/** The 16 MHz receiver.  Bits are rotated into `shift`, whose top end is also the stuffing
    history; a one that was cleared to break a run of six is remembered in x3, which moves
    along with the bits two places at a time. */
module Receive16 {
  import opened Arithmetic
  import opened Bits
  import opened Wire

  /** The run length this engine starts with: its first sample is filed inverted. */
  function First(line: nat -> bv8): nat { if Minus(line(0)) then 1 else 0 }

  /** Bit j of byte n is in shift, inverted if it is marked in x3. */
  ghost predicate Placed(line: nat -> bv8, shift: bv8, x3: bv8, n: nat, k: nat, off: nat, j: nat)
    requires k + off <= 8 && j < k
  {
    (Bit(shift, 8 - k + j) != Bit(x3, j + off)) == BitAt(line, First(line), 8 * n + j)
  }

  /** k bits of byte n are at the top of shift; the mark of bit j is at place j + off of x3,
      which is clear above its marks. */
  ghost predicate Data(line: nat -> bv8, shift: bv8, x3: bv8, n: nat, k: nat, off: nat)
    requires k + off <= 8
  {
    && (forall j :: 0 <= j < k ==> Placed(line, shift, x3, n, k, off, j))
    && (forall i :: k + off <= i < 8 ==> !Bit(x3, i))
  }

  lemma DataRead(line: nat -> bv8, shift: bv8, x3: bv8, n: nat, k: nat, off: nat)
    requires k + off < 8 && Data(line, shift, x3, n, k, off)
    ensures Data(line, Ror(shift, BitAt(line, First(line), 8 * n + k)), x3, n, k + 1, off)
  {
    hide Bit, Ror, BitAt;
    var v := BitAt(line, First(line), 8 * n + k);
    RorBits(shift, v);
    var s := Ror(shift, v);
    var next := k + 1;
    forall j | 0 <= j < next ensures Placed(line, s, x3, n, next, off, j) {
      if j < k {
        assert Placed(line, shift, x3, n, k, off, j);
        assert Bit(s, 8 - (k + 1) + j) == Bit(shift, 8 - k + j);
      }
    }
  }

  /** `ori x3, 1<<m` and `andi shift, ~0x80` */
  lemma DataMark(line: nat -> bv8, shift: bv8, x3: bv8, n: nat, k: nat, off: nat)
    requires 1 <= k && k + off <= 8 && Data(line, shift, x3, n, k, off)
    requires Bit(shift, 7) && !Bit(x3, k - 1 + off)
    ensures Data(line, Bld(shift, 7, false), Bld(x3, k - 1 + off, true), n, k, off)
    ensures History(Bld(shift, 7, false), 0)
  {
    hide Bit, Bld, BitAt;
    BldBits(shift, 7, false);
    BldBits(x3, k - 1 + off, true);
    var s, x := Bld(shift, 7, false), Bld(x3, k - 1 + off, true);
    forall j | 0 <= j < k ensures Placed(line, s, x, n, k, off, j) {
      assert Placed(line, shift, x3, n, k, off, j);
      if j < k - 1 {
        assert Bit(s, 8 - k + j) == Bit(shift, 8 - k + j) && Bit(x, j + off) == Bit(x3, j + off);
      }
    }
  }

  /** `lsr x3` twice */
  lemma DataShift(line: nat -> bv8, shift: bv8, x3: bv8, n: nat, k: nat, off: nat)
    requires k + off <= 8 && 2 <= off && Data(line, shift, x3, n, k, off)
    ensures Data(line, shift, Lsr(Lsr(x3)), n, k, off - 2)
  {
    hide Bit, Ror, BitAt;
    RorBits(x3, false);
    RorBits(Lsr(x3), false);
    var x := Lsr(Lsr(x3));
    assert forall i :: 0 <= i < 6 ==> Bit(x, i) == Bit(Lsr(x3), i + 1) == Bit(x3, i + 2);
    var off2 := off - 2;
    forall j | 0 <= j < k ensures Placed(line, shift, x, n, k, off2, j) {
      assert Placed(line, shift, x3, n, k, off, j);
      assert Bit(x, j + (off - 2)) == Bit(x3, j + off);
    }
    forall i | k + (off - 2) <= i < 8 ensures !Bit(x, i) {
      assert i < 6 ==> Bit(x, i) == Bit(x3, i + 2);
    }
  }

  /** A register that holds the level of the last sample, other pins masked. */
  predicate Holds(x: bv8, level: bool)
  {
    x & USBMASK == x && IsJK(x) && Minus(x) == level
  }

  lemma MaskHolds(sample: bv8)
    requires IsJK(sample)
    ensures Holds(sample & USBMASK, Minus(sample)) && sample & USBMASK != 0
  {}

  predicate Same(last: bv8, x: bv8) { last ^ x == 0 }

  /** What matters of `eor`, `subi x, 1` and `ror shift`: equal samples rotate in a one, and
      the compare with 0xfc finds the sixth. */
  lemma Arrive(line: nat -> bv8, shift: bv8, n: nat, k: nat, last: bv8, sample: bv8)
    requires 1 <= 8 * n + k
    requires var r := Settle(line, After(line, First(line), 8 * n + k));
      && History(shift, r.ones) && r.ones <= 5
      && Holds(last, r.level) && IsJK(sample) && sample == line(r.pos)
    ensures var r := Settle(line, After(line, First(line), 8 * n + k));
      var next := After(line, First(line), 8 * n + k + 1);
      var one := Same(last, sample & USBMASK);
      && one == BitAt(line, First(line), 8 * n + k)
      && next == Read(line, r) && next.level == Minus(sample)
      && History(Ror(shift, one), next.ones)
      && (Full(Ror(shift, one)) <==> next.ones == 6)
  {
    hide Bit, Ror, IsJK, History;
    SameLine(last, sample);
    var r := Settle(line, After(line, First(line), 8 * n + k));
    HistoryStep(shift, r.ones, Minus(last) == Minus(sample));
    HistoryFull(Ror(shift, Minus(last) == Minus(sample)), After(line, First(line), 8 * n + k + 1).ones);
  }

  /** None of the first n samples was half a bit time off, as far as there are so many. */
  ghost predicate Small(drift: seq<int>, n: nat)
  {
    forall i :: 0 <= i < |drift| && i < n ==> -16 < drift[i] < 16
  }

  lemma StaySmall(drift: seq<int>, drift': seq<int>, n: nat)
    requires drift <= drift' && |drift| >= n && Small(drift, n)
    ensures |drift'| >= n && Small(drift', n)
  {}

  lemma AllSmall(drift: seq<int>, n: nat)
    requires Small(drift, |drift|)
    ensures Small(drift, n)
  {}

  class Receiver {
    const line: nat -> bv8
    var pos: nat             // samples taken, that is, bit times elapsed
    var clock: nat           // CPU cycles elapsed since the first sample
    var shift: bv8
    var x3: bv8
    var leap: int            // a signed byte; the bounds on it leave no room for an overflow
    var stored: seq<bv8>
    ghost var stuffs: nat    // stuff bits skipped in the current byte

    /** For each sample, in thirds of a cycle, how late it was against the nominal 32/3 cycles
        per bit. */
    ghost var drift: seq<int>

    constructor (line: nat -> bv8)
      ensures this.line == line && pos == 0 && clock == 0 && leap == 0 && stored == [] && drift == []
    {
      this.line := line;
      pos, clock, shift, x3, leap, stored, stuffs, drift := 0, 0, 0, 0x10, 0, [], 0, [];
    }

    ghost function R(n: nat, k: nat): Reader
      requires 1 <= 8 * n + k
    {
      After(line, First(line), 8 * n + k)
    }

    ghost function S(n: nat, k: nat): Reader
      requires 1 <= 8 * n + k
    {
      Settle(line, R(n, k))
    }

    /** k bits of byte n have been read and no stuff bit is due. */
    ghost predicate Ready(shift: bv8, x3: bv8, n: nat, k: nat, off: nat)
      requires k + off <= 8 && 1 <= 8 * n + k
    {
      && S(n, k).ones <= 5 && History(shift, S(n, k).ones)
      && Data(line, shift, x3, n, k, off)
    }

    /** Enough stuff bits for the ones seen, and no more; leap has gone along with them. */
    ghost predicate Counted(n: nat, k: nat)
      requires 1 <= 8 * n + k
      reads `stuffs, `leap
    {
      6 * stuffs + S(n, k).ones <= 5 + k && -2 <= leap - stuffs <= n + 3
    }

    /** If the port is sampled now, the error against the nominal 32/3 cycles per bit, in
        thirds of a cycle, is what leap says plus `phase`. */
    ghost predicate Due(phase: int)
      reads `clock, `pos, `leap
    {
      3 * clock - 32 * pos == leap + phase
    }

    /** No sample so far was half a bit time off. */
    ghost predicate Centred()
      reads `pos, `drift
    {
      |drift| == pos && Small(drift, pos)
    }

    method In() returns (sample: bv8)
      modifies `pos, `clock, `drift
      ensures sample == line(old(pos)) && pos == old(pos) + 1 && clock == old(clock) + 1
      ensures drift == old(drift) + [3 * old(clock) - 32 * old(pos)]
      ensures old(Centred()) && -16 < 3 * old(clock) - 32 * old(pos) < 16 ==> Centred()
    {
      sample := line(pos);
      drift := drift + [3 * clock - 32 * pos];
      pos := pos + 1;
      clock := clock + 1;
    }

    method Tick(cycles: nat)
      modifies `clock
      ensures clock == old(clock) + cycles
    {
      clock := clock + cycles;
    }

    /** Rotating in bit k of byte n. */
    lemma Rotated(shift: bv8, x3: bv8, n: nat, k: nat, off: nat, last: bv8, x: bv8)
      requires k + off < 8 && 1 <= 8 * n + k && Ready(shift, x3, n, k, off)
      requires Holds(last, S(n, k).level) && IsJK(line(S(n, k).pos)) && x == line(S(n, k).pos) & USBMASK
      ensures R(n, k + 1) == Read(line, S(n, k)) && Holds(x, R(n, k + 1).level) && x != 0
      ensures var s := Ror(shift, Same(last, x));
        && (Full(s) <==> R(n, k + 1).ones == 6)
        && Data(line, s, x3, n, k + 1, off) && History(s, R(n, k + 1).ones)
        && (!Full(s) ==> Ready(s, x3, n, k + 1, off) && S(n, k + 1) == R(n, k + 1))
      ensures !Bit(x3, k + off)
    {
      hide Bit, Ror, IsJK, History, Data, Holds, After, Same;
      Arrive(line, shift, n, k, last, line(S(n, k).pos));
      MaskHolds(line(S(n, k).pos));
      DataRead(line, shift, x3, n, k, off);
      RunBound(shift, n, k + 1, Same(last, x));
      DataClear(shift, x3, n, k, off);
    }

    lemma NextBitMoves(n: nat, k: nat)
      requires 1 <= 8 * n + k
      ensures S(n, k).pos < S(n, k + 1).pos
      ensures R(n, k + 1).ones == 6 ==> S(n, k + 1).pos == S(n, k).pos + 2
    {}

    lemma DataClear(shift: bv8, x3: bv8, n: nat, k: nat, off: nat)
      requires k + off < 8 && Data(line, shift, x3, n, k, off)
      ensures !Bit(x3, k + off)
    {}

    lemma RunBound(s: bv8, n: nat, k: nat, one: bool)
      requires 1 <= 8 * n + k && History(Ror(s, one), R(n, k).ones)
      ensures R(n, k).ones <= 6
    {}

    /** The common part of the unstuff code: clear the last bit and remember it. */
    method Mark(ghost n: nat, ghost k: nat, ghost off: nat, place: nat, ghost mode: Mode)
      requires 1 <= k && k + off <= 8 && place == k - 1 + off
      requires mode == Known ==>
        Data(line, shift, x3, n, k, off) && History(shift, 6) && R(n, k).ones == 6 && !Bit(x3, place)
      modifies `shift, `x3, `stuffs
      ensures stuffs == old(stuffs) + 1
      ensures mode == Known ==>
        && Ready(shift, x3, n, k, off)
        && S(n, k) == Reader(R(n, k).pos + 1, Minus(line(R(n, k).pos)), 0)
    {
      hide Bit, Bld, Data;
      if mode == Known {
        assert Bit(shift, 7);
        DataMark(line, shift, x3, n, k, off);
      }
      x3 := Bld(x3, place, true);
      shift := Bld(shift, 7, false);
      stuffs := stuffs + 1;
    }

    /** `andi x3, 0x3f` only matters for what an earlier byte left behind. */
    lemma AlreadyClear(shift: bv8, x3: bv8, n: nat, k: nat, off: nat)
      requires k + off == 6 && 1 <= 8 * n + k && Ready(shift, x3, n, k, off)
      ensures x3 & 0x3f == x3
    {
      assert !Bit(x3, 6) && !Bit(x3, 7);
    }

    lemma LevelChanges(shift: bv8, last: bv8)
      requires last != 0
      ensures !Same(last, 0) && !Full(Ror(shift, false))
    {}

    /** `subi`, `ror shift` and the compare, for the masked sample x of bit k of byte n. */
    method RotateIn(ghost n: nat, ghost k: nat, ghost off: nat, last: bv8, x: bv8, ghost mode: Mode)
      returns (full: bool)
      requires mode == Known ==>
        && k + off < 8 && 1 <= 8 * n + k && Ready(shift, x3, n, k, off)
        && Holds(last, S(n, k).level) && IsJK(line(S(n, k).pos)) && x == line(S(n, k).pos) & USBMASK
      requires mode == Ending ==> last != 0 && x == 0
      modifies `shift
      ensures mode == Known ==>
        && R(n, k + 1).pos == S(n, k).pos + 1 && Holds(x, R(n, k + 1).level) && x != 0
        && R(n, k + 1).ones <= S(n, k).ones + 1
        && (full <==> R(n, k + 1).ones == 6)
        && (full ==> Data(line, shift, x3, n, k + 1, off) && History(shift, 6) && !Bit(x3, k + off))
        && (!full ==> Ready(shift, x3, n, k + 1, off) && S(n, k + 1) == R(n, k + 1))
      ensures mode == Ending ==> !full
    {
      hide Bit, Ror, IsJK, History, Data, Holds, After, Same, IsSe0;
      if mode == Known {
        Rotated(shift, x3, n, k, off, last, x);
      } else if mode == Ending {
        LevelChanges(shift, last);
      }
      shift := Ror(shift, Same(last, x));
      full := Full(shift);
    }

    /** unstuffEven and unstuffOdd differ in the register they sample into. */
    method Unstuff(ghost n: nat, ghost k: nat, ghost off: nat, place: nat, ghost mode: Mode) returns (se0: bool, x: bv8)
      requires 1 <= k && k + off <= 8 && place == k - 1 + off
      requires mode == Known ==>
        && Data(line, shift, x3, n, k, off) && History(shift, 6) && R(n, k).ones == 6
        && !Bit(x3, place) && pos == R(n, k).pos && IsJK(line(pos))
        && Centred() && -16 < 3 * (clock + 3) - 32 * pos < 16
      modifies `pos, `clock, `shift, `x3, `leap, `stuffs, `drift
      ensures old(leap) <= leap <= old(leap) + 1 && old(drift) <= drift
      ensures mode == Known ==>
        && !se0 && Ready(shift, x3, n, k, off) && pos == S(n, k).pos && Holds(x, S(n, k).level)
        && S(n, k).ones == 0 && pos == old(pos) + 1 && clock == old(clock) + 12
        && leap == old(leap) + 1 && stuffs == old(stuffs) + 1 && Centred()
    {
      hide IsJK, History, Data, Holds, After, Centred;
      Tick(3);
      Mark(n, k, off, place, mode);
      x := In();
      if mode == Known { MaskHolds(x); }
      x := x & USBMASK;
      Tick(2);
      se0 := x == 0;
      if se0 { return; }
      leap := leap + 1;
      Tick(6);
    }

    /** What is known at bit 2p of byte n. */
    ghost predicate BeforeEven(n: nat, p: nat, last: bv8)
      requires p <= 2 && 1 <= 8 * n + 2 * p
      reads this
    {
      && Holds(last, S(n, 2 * p).level) && last != 0
      && (if p == 0 then Ready(shift, x3 & 0x3f, n, 0, 6) else Ready(shift, x3, n, 2 * p, 6 - 2 * p))
      && Counted(n, 2 * p) && Due(-(p as int)) && pos == S(n, 2 * p).pos && Centred()
    }

    /** `andi x3, 0x3f`, between the sample and its rotation. */
    method ClearMarks(ghost n: nat, ghost p: nat, ghost mode: Mode)
      requires p <= 2 && 1 <= 8 * n + 2 * p
      requires mode != Unknown ==>
        if p == 0 then Ready(shift, x3 & 0x3f, n, 0, 6) else Ready(shift, x3, n, 2 * p, 6 - 2 * p)
      modifies `x3
      ensures mode != Unknown ==> Ready(shift, x3, n, 2 * p, 6 - 2 * p)
    {
      hide Ready;
      if p > 0 && mode != Unknown { AlreadyClear(shift, x3, n, 2 * p, 6 - 2 * p); }
      x3 := x3 & 0x3f;
    }

    /** rxBitLoop: bit 2p, with the stuff bit behind it.  Behind the last byte the sample is
        SE0, which reads as a change of level and is left for the next bit to find. */
    method EvenBit(ghost n: nat, ghost p: nat, last: bv8, ghost mode: Mode) returns (se0: bool, x1: bv8)
      requires p <= 2 && 1 <= 8 * n + 2 * p && n <= 11
      requires mode != Unknown ==> BeforeEven(n, p, last)
      requires mode == Known ==> forall i :: pos <= i < S(n, 2 * p + 1).pos ==> IsJK(line(i))
      requires mode == Ending ==> IsSe0(line(pos))
      modifies `pos, `clock, `shift, `x3, `leap, `stuffs, `drift
      ensures old(leap) <= leap <= old(leap) + 1 && old(drift) <= drift
      ensures mode == Known ==> !se0 && BeforeOdd(n, p, x1)
      ensures mode == Ending ==> !se0 && pos == old(pos) + 1 && leap == old(leap)
    {
      hide Bit, Ror, IsJK, IsSe0, History, Data, Holds, After, Ready, Settle, Centred;
      NextBitMoves(n, 2 * p);
      x1 := In();
      MaskKeepsSe0(x1);
      x1 := x1 & USBMASK;
      ClearMarks(n, p, mode);
      var full := RotateIn(n, 2 * p, 6 - 2 * p, last, x1, mode);
      Tick(6);
      if mode == Ending { assert !full; }
      se0, x1 := Settled(n, p, x1, full, mode);
    }

    /** The rest of rxBitLoop: the stuff bit, if one is due, and the marks. */
    method Settled(ghost n: nat, ghost p: nat, sample: bv8, full: bool, ghost mode: Mode) returns (se0: bool, x1: bv8)
      requires p <= 2 && n <= 11
      requires mode == Known ==>
        && pos == R(n, 2 * p + 1).pos && Holds(sample, R(n, 2 * p + 1).level)
        && (full <==> R(n, 2 * p + 1).ones == 6)
        && (full ==>
            && Data(line, shift, x3, n, 2 * p + 1, 6 - 2 * p) && History(shift, 6)
            && !Bit(x3, 6) && IsJK(line(pos)))
        && (!full ==> Ready(shift, x3, n, 2 * p + 1, 6 - 2 * p) && S(n, 2 * p + 1) == R(n, 2 * p + 1))
        && 6 * stuffs + R(n, 2 * p + 1).ones <= 6 + 2 * p && -2 <= leap - stuffs <= n + 3
        && 3 * (clock - 7) - 32 * (pos - 1) == leap - p && Centred()
      requires mode == Ending ==> !full
      modifies `pos, `clock, `shift, `x3, `leap, `stuffs, `drift
      ensures old(leap) <= leap <= old(leap) + 1 && old(drift) <= drift
      ensures mode == Known ==> !se0 && BeforeOdd(n, p, x1)
      ensures mode == Ending ==> !se0 && pos == old(pos) && leap == old(leap)
    {
      hide Bit, Ror, IsJK, IsSe0, History, Data, Holds, After, Ready, Settle, Centred;
      x1 := sample;
      if full {
        se0, x1 := Unstuff(n, 2 * p + 1, 6 - 2 * p, 6, mode);
        if se0 { return; }
      } else {
        Tick(1);
      }
      ShiftMarks(n, p, mode);
      se0 := false;
    }

    /** `lsr x3` twice: the marks move along with the bits. */
    method ShiftMarks(ghost n: nat, ghost p: nat, ghost mode: Mode)
      requires p <= 2
      requires mode == Known ==> Ready(shift, x3, n, 2 * p + 1, 6 - 2 * p)
      modifies `x3, `clock
      ensures clock == old(clock) + 2
      ensures mode == Known ==> Ready(shift, x3, n, 2 * p + 1, 4 - 2 * p)
    {
      hide Ready;
      if mode == Known { ReadyShift(shift, x3, n, 2 * p + 1, 6 - 2 * p); }
      x3 := Lsr(Lsr(x3));
      Tick(2);
    }

    lemma ReadyShift(shift: bv8, x3: bv8, n: nat, k: nat, off: nat)
      requires 1 <= 8 * n + k && k + off <= 8 && 2 <= off && Ready(shift, x3, n, k, off)
      ensures Ready(shift, Lsr(Lsr(x3)), n, k, off - 2)
    {
      DataShift(line, shift, x3, n, k, off);
    }

    /** At rxbit1, about to sample bit 2p + 1. */
    ghost predicate BeforeOdd(n: nat, p: nat, last: bv8)
      requires p <= 2
      reads this
    {
      && Ready(shift, x3, n, 2 * p + 1, 4 - 2 * p) && Holds(last, S(n, 2 * p + 1).level)
      && Counted(n, 2 * p + 1) && Due(-2 - p as int) && pos == S(n, 2 * p + 1).pos && Centred()
    }

    /** rxbit1: the SE0 check, then bit 2p + 1. */
    method OddBit(ghost n: nat, ghost p: nat, last: bv8, ghost mode: Mode) returns (se0: bool, x2: bv8)
      requires p <= 2 && n <= 11
      requires mode == Known ==> BeforeOdd(n, p, last) && forall i :: pos <= i < S(n, 2 * p + 2).pos ==> IsJK(line(i))
      requires mode == Ending ==> IsSe0(line(pos))
      modifies `pos, `clock, `shift, `x3, `leap, `stuffs, `drift
      ensures old(leap) <= leap <= old(leap) + 1 && old(drift) <= drift
      ensures mode == Ending ==> se0 && leap == old(leap)
      ensures mode == Known ==>
        && !se0 && Ready(shift, x3, n, 2 * p + 2, 4 - 2 * p) && Holds(x2, S(n, 2 * p + 2).level)
        && Counted(n, 2 * p + 2) && Due(-10 - p as int) && pos == S(n, 2 * p + 2).pos && Centred()
    {
      hide Bit, Ror, IsJK, IsSe0, History, Data, Holds, After, Ready, Settle, Centred;
      x2 := In();
      MaskKeepsSe0(x2);
      x2 := x2 & USBMASK;
      if mode == Known {
        NextBitMoves(n, 2 * p + 1);
        JKIsNotSe0(line(pos - 1));
      }
      se0 := x2 == 0;
      if se0 { return; }
      var full := RotateIn(n, 2 * p + 1, 4 - 2 * p, last, x2, mode);
      Tick(6);
      if full {
        se0, x2 := Unstuff(n, 2 * p + 2, 4 - 2 * p, 5, mode);
        if se0 { return; }
      } else {
        Tick(1);
      }
    }

    lemma JKIsNotSe0(sample: bv8)
      requires IsJK(sample)
      ensures !IsSe0(sample)
    {}

    lemma MaskKeepsSe0(sample: bv8)
      ensures sample & USBMASK == 0 <==> IsSe0(sample)
    {}

    lemma {:induction false} BitsMove(n: nat, k: nat, m: nat)
      requires k <= m && 1 <= 8 * n + k
      ensures S(n, k).pos <= S(n, m).pos
      decreases m - k
    {
      if k < m {
        NextBitMoves(n, k);
        BitsMove(n, k + 1, m);
      }
    }

    /** `brcs rxBitLoop`, taken. */
    method Back(ghost n: nat, ghost p: nat, last: bv8, ghost mode: Mode) returns (se0: bool, x1: bv8)
      requires 1 <= p <= 2 && n <= 11 && mode != Ending
      requires mode == Known ==>
        && Ready(shift, x3, n, 2 * p, 6 - 2 * p) && Holds(last, S(n, 2 * p).level)
        && Counted(n, 2 * p) && Due(-6 - p as int) && pos == S(n, 2 * p).pos && Centred()
        && forall i :: 0 <= i < S(n, 6).pos ==> IsJK(line(i))
      modifies `pos, `clock, `shift, `x3, `leap, `stuffs, `drift
      ensures old(leap) <= leap <= old(leap) + 1 && old(drift) <= drift
      ensures mode == Known ==> !se0 && BeforeOdd(n, p, x1)
    {
      hide IsJK, IsSe0, Holds, Ready, After, Settle, Centred, BeforeOdd;
      Tick(2);
      BitsMove(n, 2 * p + 1, 6);
      if mode == Known { HoldsLevel(last, S(n, 2 * p).level); }
      se0, x1 := EvenBit(n, p, last, mode);
    }

    /** rxbit1 to the last `brcs rxBitLoop`: bits 1 to 5 of byte n, or the end of the packet.
        `subi bitcnt, 0xab` adds a third of 256, so that every third one does not borrow. */
    method BitLoop(ghost n: nat, last: bv8, bitcnt0: nat, ghost mode: Mode)
      returns (se0: bool, x2: bv8, bitcnt: nat)
      requires 1 <= bitcnt0 <= 0x55 && n <= 11
      requires mode == Known ==> BeforeOdd(n, 0, last) && forall i :: 0 <= i < S(n, 6).pos ==> IsJK(line(i))
      requires mode == Ending ==> IsSe0(line(pos))
      modifies `pos, `clock, `shift, `x3, `leap, `stuffs, `drift
      ensures old(leap) <= leap <= old(leap) + 5 && old(drift) <= drift
      ensures !se0 ==> bitcnt == bitcnt0 - 1
      ensures mode == Ending ==> se0 && leap == old(leap)
      ensures mode == Known ==>
        && !se0 && Ready(shift, x3, n, 6, 0) && Holds(x2, S(n, 6).level)
        && Counted(n, 6) && pos == S(n, 6).pos && Due(-6) && Centred()
    {
      hide IsJK, IsSe0, Holds, Ready, After, Settle, Centred;
      var x1 := last;
      bitcnt := bitcnt0;
      ghost var p := 0;
      while true
        invariant 0 <= p <= 2 && bitcnt == bitcnt0 + 0x55 * p
        invariant mode == Known ==> BeforeOdd(n, p, x1)
        invariant mode == Ending ==> p == 0 && IsSe0(line(pos)) && leap == old(leap)
        invariant old(leap) <= leap <= old(leap) + 2 * p && old(drift) <= drift
        decreases 2 - p
      {
        if mode == Known { BitsMove(n, 2 * p + 2, 6); }
        se0, x2 := OddBit(n, p, x1, mode);
        if se0 { return; }
        ThirdBorrows(bitcnt0, p);
        var borrow := bitcnt < 0xab;
        bitcnt := (bitcnt - 0xab) % 256;
        Tick(1);
        if !borrow {
          Tick(1);
          break;
        }
        p := p + 1;
        se0, x1 := Back(n, p, x2, mode);
        if se0 { return; }
      }
    }

    lemma ThirdBorrows(bitcnt0: nat, p: nat)
      requires 1 <= bitcnt0 <= 0x55 && p <= 2
      ensures var bitcnt := bitcnt0 + 0x55 * p;
        if p < 2 then bitcnt < 0xab && (bitcnt - 0xab) % 256 == bitcnt + 0x55
        else bitcnt >= 0xab && (bitcnt - 0xab) % 256 == bitcnt0 - 1
    {}

    lemma HoldsLevel(x: bv8, level: bool)
      requires Holds(x, level)
      ensures x != 0
    {}

    /** rxByteLoop: bit 6 and the leap cycle that makes a byte last 85 or 86 cycles. */
    method Bit6(ghost n: nat, last: bv8, sample: bv8, ghost mode: Mode) returns (x1: bv8, x2: bv8)
      requires n <= 10
      requires mode == Known ==>
        && Ready(shift, x3, n, 6, 0) && Holds(last, S(n, 6).level)
        && sample == line(S(n, 6).pos) && pos == S(n, 6).pos + 1
        && 3 * (clock - 1) - 32 * (pos - 1) == leap - 3 && Centred() && Counted(n, 6)
        && forall i :: S(n, 6).pos <= i < S(n, 7).pos ==> IsJK(line(i))
      requires mode != Ending
      modifies `pos, `clock, `shift, `x3, `leap, `stuffs, `drift
      ensures old(leap) - 1 <= leap <= old(leap) + 3 && old(drift) <= drift
      ensures mode == Known ==>
        && Ready(shift, x3, n, 7, 0) && Holds(x1, S(n, 7).level)
        && x2 == line(S(n, 7).pos) && pos == S(n, 7).pos + 1
        && 3 * (clock - 2) - 32 * (pos - 1) == leap - 1 && Centred()
        && 6 * stuffs + S(n, 7).ones <= 12 && stuffs >= old(stuffs)
        && 0 <= leap - (stuffs - old(stuffs))
        && (leap - stuffs < old(leap) - old(stuffs) || leap - (stuffs - old(stuffs)) <= 2)
    {
      hide Bit, Ror, IsJK, IsSe0, History, Data, Holds, After, Ready, Settle, Centred;
      NextBitMoves(n, 6);
      x1 := sample & USBMASK;
      Tick(5);
      LeapCycle();
      var full := RotateIn(n, 6, 0, last, x1, mode);
      Tick(3);
      x2 := In();
      if full {
        x1, x2 := Unstuff6(n, x2, mode);
      }
      Tick(1);
    }

    /** `subi leap, 1` and `brpl`: an extra cycle whenever leap would become negative.  Of the
        time it takes, only the nominal 7/3 cycles are not accounted for in leap. */
    method LeapCycle()
      modifies `leap, `clock
      ensures 3 * clock - leap == old(3 * clock - leap) + 7
      ensures old(leap) >= -2 ==> leap >= 0
      ensures leap < old(leap) || leap <= 2
      ensures old(leap) - 1 <= leap <= old(leap) + 2
    {
      leap := leap - 1;
      if leap >= 0 {
        Tick(2);
      } else {
        leap := leap + 3;
        Tick(3);
      }
    }

    /** unstuff6: what was sampled as bit 7 is the stuff bit. */
    method Unstuff6(ghost n: nat, sample: bv8, ghost mode: Mode) returns (x1: bv8, x2: bv8)
      requires mode == Known ==>
        && Data(line, shift, x3, n, 7, 0) && History(shift, 6) && R(n, 7).ones == 6
        && !Bit(x3, 6) && pos == R(n, 7).pos + 1 && sample == line(R(n, 7).pos) && IsJK(sample)
        && Centred() && -16 < 3 * (clock + 10) - 32 * pos < 16
      modifies `pos, `clock, `shift, `x3, `leap, `stuffs, `drift
      ensures leap == old(leap) + 1 && old(drift) <= drift
      ensures mode == Known ==>
        && Ready(shift, x3, n, 7, 0) && Holds(x1, S(n, 7).level) && S(n, 7).ones == 0
        && x2 == line(S(n, 7).pos) && pos == S(n, 7).pos + 1 && pos == old(pos) + 1
        && clock == old(clock) + 11 && stuffs == old(stuffs) + 1 && Centred()
    {
      hide IsJK, History, Data, Holds, After, Centred;
      if mode == Known { MaskHolds(sample); }
      x2 := sample & USBMASK;
      Mark(n, 7, 0, 6, mode);
      x1 := x2;
      leap := leap + 1;
      Tick(10);
      x2 := In();
    }

    /** The rest of rxByteLoop: bit 7, and storing the byte. */
    method Bit7(ghost n: nat, last: bv8, sample: bv8, ghost mode: Mode) returns (x2: bv8)
      requires mode == Known ==>
        && Ready(shift, x3, n, 7, 0) && Holds(last, S(n, 7).level)
        && sample == line(S(n, 7).pos) && pos == S(n, 7).pos + 1
        && 3 * (clock - 2) - 32 * (pos - 1) == leap - 1 && Centred()
        && 6 * stuffs + S(n, 7).ones <= 12 && 0 <= leap <= 15
        && forall i :: S(n, 7).pos <= i < S(n, 8).pos ==> IsJK(line(i))
      requires mode != Ending
      modifies this
      ensures old(leap) - 2 <= leap <= old(leap) && old(drift) <= drift
      ensures |stored| == |old(stored)| + 1 && stored[..|old(stored)|] == old(stored)
      ensures mode == Known ==>
        && Ready(shift, x3 & 0x3f, n + 1, 0, 6) && Holds(x2, S(n + 1, 0).level) && x2 != 0
        && pos == S(n + 1, 0).pos && Due(0) && Centred() && S(n + 1, 0).ones <= 5
        && ByteIs(line, First(line), n, stored[|old(stored)|])
    {
      hide Bit, Ror, IsJK, IsSe0, History, Data, Holds, After, Ready, Settle, Centred;
      NextBitMoves(n, 7);
      x2 := sample & USBMASK;
      var full := RotateIn(n, 7, 0, last, x2, mode);
      Tick(5);
      if full {
        x2 := Unstuff7(n, mode);
      }
      Tick(1);
      StoreByte(n, mode);
    }

    /** `eor x3, shift` repairs the marked bits. */
    method StoreByte(ghost n: nat, ghost mode: Mode)
      requires mode == Known ==> Ready(shift, x3, n, 8, 0)
      modifies `x3, `stored, `clock
      ensures |stored| == |old(stored)| + 1 && stored[..|old(stored)|] == old(stored)
      ensures clock == old(clock) + 3
      ensures mode == Known ==>
        && Ready(shift, x3 & 0x3f, n + 1, 0, 6) && S(n + 1, 0).ones <= 5
        && ByteIs(line, First(line), n, stored[|old(stored)|])
    {
      hide Bit, Ready, After, ByteIs;
      if mode == Known { Complete(shift, x3, n); }
      x3 := x3 ^ shift;
      stored := stored + [x3];
      Tick(3);
    }

    method Unstuff7(ghost n: nat, ghost mode: Mode) returns (x2: bv8)
      requires mode == Known ==>
        && Data(line, shift, x3, n, 8, 0) && History(shift, 6) && R(n, 8).ones == 6
        && !Bit(x3, 7) && pos == R(n, 8).pos && IsJK(line(pos))
        && Centred() && -16 < 3 * (clock + 3) - 32 * pos < 16
      modifies `pos, `clock, `shift, `x3, `leap, `stuffs, `drift
      ensures leap == old(leap) - 2 && old(drift) <= drift
      ensures mode == Known ==>
        && Ready(shift, x3, n, 8, 0) && Holds(x2, S(n, 8).level) && x2 != 0 && S(n, 8).ones == 0
        && pos == S(n, 8).pos && pos == old(pos) + 1
        && clock == old(clock) + 10 && Centred()
    {
      hide IsJK, History, Data, Holds, After, Centred;
      Tick(3);
      Mark(n, 8, 0, 7, mode);
      x2 := In();
      if mode == Known { MaskHolds(x2); }
      x2 := x2 & USBMASK;
      leap := leap - 2;
      Tick(6);
    }

    lemma Complete(shift: bv8, x3: bv8, n: nat)
      requires Ready(shift, x3, n, 8, 0)
      ensures ByteIs(line, First(line), n, x3 ^ shift)
      ensures Ready(shift, (x3 ^ shift) & 0x3f, n + 1, 0, 6) && S(n, 8).ones <= 5
    {
      hide Bit, BitAt, After, History;
      XorBits(x3, shift);
      var byte := x3 ^ shift;
      forall j | 0 <= j < 8 ensures Bit(byte, j) == BitAt(line, First(line), 8 * n + j) {
        assert Placed(line, shift, x3, n, 8, 0, j);
      }
      TopClear(byte);
    }

    lemma TopClear(y: bv8)
      ensures !Bit(y & 0x3f, 6) && !Bit(y & 0x3f, 7)
    {}

    /** The entry code: bit 0 of the first byte is filed inverted, and marked in x3. */
    method FirstBit() returns (x1: bv8)
      requires pos == 0 && clock == 0 && drift == [] && IsJK(line(0))
      modifies this
      ensures BeforeOdd(0, 0, x1) && leap == 0 && stored == old(stored)
    {
      x1 := In();
      MaskHolds(x1);
      x1 := x1 & USBMASK;
      shift := Bld(0, 7, Minus(x1));
      x3 := 0x10;
      leap := 0;
      stuffs := 0;
      Tick(9);
      Entry(shift, Minus(x1));
    }

    lemma Entry(shift: bv8, minus: bool)
      requires shift == Bld(0, 7, minus) && minus == Minus(line(0))
      ensures Ready(shift, 0x10, 0, 1, 4)
    {
      BldBits(0, 7, minus);
      assert Placed(line, shift, 0x10, 0, 1, 4, 0);
    }

    lemma Inside(N: nat, n: nat, k: nat)
      requires Trace(line, First(line), N) && n < N && 1 <= k <= 8
      ensures forall i :: 0 <= i < S(n, k).pos ==> IsJK(line(i))
      ensures IsJK(line(0))
    {
      hide IsJK, IsSe0, After, Settle;
      BitsMove(n, k, 8 * (N - n));
      BitsMove(0, 1, 8 * N);
      FirstMoves();
    }

    lemma FirstMoves()
      ensures S(0, 1).pos >= 1
    {}

    lemma AtTheEnd(N: nat)
      requires CleanPacket(line, First(line), N)
      ensures IsSe0(line(S(N, 0).pos)) && IsSe0(line(S(N, 0).pos + 1))
    {}

    /** Bits 6 and 7 of byte n. */
    method LastBits(ghost n: nat, last: bv8, sample: bv8, ghost mode: Mode) returns (x2: bv8)
      requires n <= 10 && mode != Ending
      requires mode == Known ==>
        && Ready(shift, x3, n, 6, 0) && Holds(last, S(n, 6).level)
        && sample == line(S(n, 6).pos) && pos == S(n, 6).pos + 1
        && 3 * (clock - 1) - 32 * (pos - 1) == leap - 3 && Centred() && Counted(n, 6)
        && forall i :: 0 <= i < S(n, 8).pos ==> IsJK(line(i))
      modifies this
      ensures old(leap) - 3 <= leap <= old(leap) + 3 && old(drift) <= drift
      ensures |stored| == |old(stored)| + 1 && stored[..|old(stored)|] == old(stored)
      ensures mode == Known ==>
        && Ready(shift, x3 & 0x3f, n + 1, 0, 6) && Holds(x2, S(n + 1, 0).level) && x2 != 0
        && pos == S(n + 1, 0).pos && Due(0) && Centred() && -2 <= leap <= n + 4 && S(n + 1, 0).ones <= 5
        && ByteIs(line, First(line), n, stored[|old(stored)|])
    {
      hide IsJK, IsSe0, Holds, Ready, After, Settle, ByteIs, Centred;
      if mode == Known { BitsMove(n, 7, 8); }
      var x1;
      x1, x2 := Bit6(n, last, sample, mode);
      x2 := Bit7(n, x1, x2, mode);
    }

    /** Bits 1 to 7 of byte n, unless the packet has ended or the buffer is full. */
    method ReadByte(ghost n: nat, x1: bv8, bitcnt0: nat, cnt: nat, ghost mode: Mode)
      returns (se0: bool, overflow: bool, x2: bv8, bitcnt: nat)
      requires 1 <= bitcnt0 <= 0x55 && n + cnt == 11
      requires mode == Known ==> BeforeOdd(n, 0, x1) && forall i :: 0 <= i < S(n, 8).pos ==> IsJK(line(i))
      requires mode == Ending ==> IsSe0(line(pos))
      modifies this
      ensures old(leap) - 3 <= leap <= old(leap) + 8 && old(drift) <= drift
      ensures mode == Known ==> !se0
      ensures mode == Ending ==> se0 && leap == old(leap)
      ensures se0 || overflow ==> stored == old(stored)
      ensures !se0 ==> (overflow <==> cnt == 0)
      ensures mode == Known && overflow ==> Centred() && -16 < leap < 16
      ensures !se0 && !overflow ==>
        && bitcnt == bitcnt0 - 1
        && |stored| == |old(stored)| + 1 && stored[..|old(stored)|] == old(stored)
      ensures mode == Known && !overflow ==>
        && Ready(shift, x3 & 0x3f, n + 1, 0, 6) && Holds(x2, S(n + 1, 0).level) && x2 != 0
        && pos == S(n + 1, 0).pos && Due(0) && Centred() && -2 <= leap <= n + 4 && S(n + 1, 0).ones <= 5
        && ByteIs(line, First(line), n, stored[|old(stored)|])
    {
      hide IsJK, IsSe0, Holds, Ready, After, Settle, ByteIs, BeforeOdd, Centred;
      overflow := false;
      if mode == Known { BitsMove(n, 6, 8); BitsMove(n, 6, 7); }
      se0, x2, bitcnt := BitLoop(n, x1, bitcnt0, mode);
      if se0 { return; }
      overflow := cnt < 1;
      Tick(1);
      var sample := In();
      if overflow { return; }
      x2 := LastBits(n, x2, sample, mode);
    }

    /** Bit 0 of byte n, if there is one. */
    method StartByte(ghost n: nat, last: bv8, ghost mode: Mode) returns (se0: bool, x1: bv8)
      requires 1 <= n <= 11
      requires mode != Unknown ==>
        && Ready(shift, x3 & 0x3f, n, 0, 6) && Holds(last, S(n, 0).level) && last != 0
        && pos == S(n, 0).pos && S(n, 0).ones <= 5 && Due(0) && Centred() && -2 <= leap <= n + 3
      requires mode == Known ==> forall i :: 0 <= i < S(n, 8).pos ==> IsJK(line(i))
      requires mode == Ending ==> IsSe0(line(S(n, 0).pos)) && IsSe0(line(S(n, 0).pos + 1))
      modifies this
      ensures old(leap) <= leap <= old(leap) + 1 && old(drift) <= drift && stored == old(stored)
      ensures mode == Known ==> !se0 && BeforeOdd(n, 0, x1)
      ensures mode == Ending ==> !se0 && IsSe0(line(pos)) && leap == old(leap)
    {
      hide IsJK, IsSe0, Holds, Ready, After, Settle, BeforeOdd, Centred;
      stuffs := 0;
      if mode == Known { BitsMove(n, 1, 8); }
      se0, x1 := EvenBit(n, 0, last, mode);
    }

    /** What is known at bit 0 of byte n. */
    lemma AtByte(N: nat, n: nat)
      requires Trace(line, First(line), N)
      ensures 1 <= N
      ensures ModeAt(line, First(line), N, n) == Known ==> IsJK(line(0))
      ensures ModeAt(line, First(line), N, n) == Known ==> forall i :: 0 <= i < S(n, 8).pos ==> IsJK(line(i))
      ensures ModeAt(line, First(line), N, n) == Ending ==> IsSe0(line(S(n, 0).pos)) && IsSe0(line(S(n, 0).pos + 1))
    {
      if n < N { Inside(N, n, 8); } else if n == N && CleanPacket(line, First(line), N) { AtTheEnd(N); }
    }

    /** No sample of the trace was half a bit time off. */
    ghost predicate CentredIn(N: nat, n: nat)
      requires 1 <= N
      reads `pos, `drift
    {
      if n < N then Centred() else
        var end := Boundary(line, First(line), N);
        |drift| >= end && Small(drift, end)
    }

    /** At bit 1 of byte n, as far as anything is known. */
    ghost predicate Going(N: nat, n: nat, x1: bv8)
      requires 1 <= N
      reads this
    {
      var mode := ModeAt(line, First(line), N, n);
      && CentredIn(N, n) && -3 * n <= leap <= 9 * n
      && (mode == Known ==> BeforeOdd(n, 0, x1))
      && (mode == Ending ==> IsSe0(line(pos)) && -2 <= leap <= n + 3)
    }

    /** ReadByte, on a trace. */
    method NextByte(ghost N: nat, ghost n: nat, x1: bv8, bitcnt0: nat, cnt: nat)
      returns (se0: bool, overflow: bool, x2: bv8, bitcnt: nat)
      requires Trace(line, First(line), N) && 1 <= N && Going(N, n, x1)
      requires 1 <= bitcnt0 <= 0x55 && n + cnt == 11
      modifies this
      ensures -3 * n - 3 <= leap <= 9 * n + 8
      ensures se0 ==> n >= N && CentredIn(N, n)
      ensures ModeAt(line, First(line), N, n) == Ending ==> se0 && -2 <= leap <= n + 3
      ensures se0 || overflow ==> stored == old(stored)
      ensures !se0 ==> (overflow <==> cnt == 0)
      ensures overflow ==> CentredIn(N, n) && (n < N ==> -16 < leap < 16)
      ensures !se0 && !overflow ==>
        && bitcnt == bitcnt0 - 1
        && |stored| == |old(stored)| + 1 && stored[..|old(stored)|] == old(stored)
        && (n < N ==> ByteIs(line, First(line), n, stored[|old(stored)|]))
        && Between(N, n + 1, x2)
    {
      hide IsJK, IsSe0, Holds, Ready, After, Settle, ByteIs, Trace, CleanPacket, BeforeOdd, Boundary, Centred, Small;
      ghost var mode := ModeAt(line, First(line), N, n);
      AtByte(N, n);
      ghost var before := drift;
      se0, overflow, x2, bitcnt := ReadByte(n, x1, bitcnt0, cnt, mode);
      if n >= N { StaySmall(before, drift, Boundary(line, First(line), N)); }
    }

    /** At bit 0 of byte n, n > 0, as far as anything is known. */
    ghost predicate Between(N: nat, n: nat, x2: bv8)
      requires 1 <= N && 1 <= n
      reads this
    {
      && CentredIn(N, n - 1)
      && (n <= N ==>
          && Ready(shift, x3 & 0x3f, n, 0, 6) && Holds(x2, S(n, 0).level) && x2 != 0
          && pos == S(n, 0).pos && Due(0) && -2 <= leap <= n + 3 && S(n, 0).ones <= 5)
    }

    /** StartByte, on a trace. */
    method StartNext(ghost N: nat, ghost n: nat, last: bv8) returns (se0: bool, x1: bv8)
      requires Trace(line, First(line), N) && 1 <= N && 1 <= n <= 11 && Between(N, n, last)
      requires -3 * (n - 1) - 3 <= leap <= 9 * (n - 1) + 8
      modifies this
      ensures stored == old(stored) && Going(N, n, x1)
      ensures se0 ==> n > N || (n == N && !CleanPacket(line, First(line), N))
    {
      hide IsJK, IsSe0, Holds, Ready, After, Settle, Trace, CleanPacket, BeforeOdd, Centred, Small;
      ghost var mode := ModeAt(line, First(line), N, n);
      AtByte(N, n);
      ghost var before := drift;
      if n == N { AtBoundary(n); }
      se0, x1 := StartByte(n, last, mode);
      if n < N { OddIsCentred(n, x1); }
      if n >= N { StaySmall(before, drift, Boundary(line, First(line), N)); }
    }

    lemma OddIsCentred(n: nat, x1: bv8)
      requires BeforeOdd(n, 0, x1)
      ensures Centred()
    {}

    lemma AtBoundary(n: nat)
      requires 1 <= n && Centred() && pos == S(n, 0).pos
      ensures |drift| == Boundary(line, First(line), n) && Small(drift, |drift|)
    {}

    /** The receiver from the first data bit on: a trace of N bytes is stored as far as there
        is room, whatever follows it; a clean packet ends exactly behind its last byte.  While
        the trace lasts, three times the elapsed cycles never differ from 32 times the bit
        times by 16 when the port is sampled: half a bit time. */
    method Receive(ghost N: nat) returns (outcome: Outcome)
      requires Trace(line, First(line), N)
      requires pos == 0 && clock == 0 && stored == [] && drift == []
      modifies this
      ensures Received(line, First(line), N, stored, outcome)
      ensures forall i :: 0 <= i < |drift| && i < Boundary(line, First(line), N) ==> -16 < drift[i] < 16
      ensures -128 <= leap < 128 && (CleanPacket(line, First(line), N) || N >= 12 ==> -16 < leap < 16)
    {
      hide IsJK, IsSe0, Holds, Ready, After, Settle, ByteIs, Trace, CleanPacket, BeforeOdd, Boundary, Centred, Small;
      hide Due;
      AtByte(N, 0);
      var x1 := FirstBit();
      var cnt, bitcnt := 11, 0x55;
      while true
        invariant 0 <= cnt && |stored| + cnt == 11 && bitcnt == 0x55 - |stored|
        invariant Going(N, |stored|, x1)
        invariant BytesAre(line, First(line), stored[..Min(N, |stored|)])
        invariant CleanPacket(line, First(line), N) ==> |stored| <= N
        decreases cnt
      {
        ghost var n, before := |stored|, stored;
        var se0, overflow, x2;
        se0, overflow, x2, bitcnt := NextByte(N, n, x1, bitcnt, cnt);
        if se0 || overflow { Done(N, n); }
        if se0 { return Se0(11 - cnt); }
        if overflow { return Overflow; }
        cnt := cnt - 1;
        OneMoreByte(line, First(line), N, before, stored);
        se0, x1 := StartNext(N, n + 1, x2);
        if se0 {
          Done(N, n + 1);
          return Se0(11 - cnt);
        }
      }
    }

    lemma Done(N: nat, n: nat)
      requires 1 <= N && CentredIn(N, n)
      ensures forall i :: 0 <= i < |drift| && i < Boundary(line, First(line), N) ==> -16 < drift[i] < 16
    {
      hide After, Settle;
      if n < N { AllSmall(drift, Boundary(line, First(line), N)); }
    }
  }
}
