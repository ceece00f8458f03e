/** The 20 MHz receiver.  A countdown that is reloaded to six finds the stuff bits, and a
    one that travels ahead of the data in `shift` tells when seven bits have arrived. */
module Receive20 {
  import opened Arithmetic
  import opened Bits
  import opened Wire

  /** The run length this engine starts with: it counts the last bit of sync. */
  function First(line: nat -> bv8): nat { if Minus(line(0)) then 0 else 2 }

  /** A register that holds the level of the last sample, other pins masked. */
  predicate Holds(x: bv8, level: bool)
  {
    x == if level then 0x08 else 0x04
  }

  lemma MaskHolds(sample: bv8)
    requires IsJK(sample)
    ensures Holds(sample & USBMASK, Minus(sample)) && sample & USBMASK != 0
  {}

  /** k bits of byte n at the top of shift. */
  ghost predicate Data(line: nat -> bv8, shift: bv8, n: nat, k: nat)
    requires k <= 8
  {
    forall i :: 8 - k <= i < 8 ==> Bit(shift, i) == BitAt(line, First(line), 8 * n + k + i - 8)
  }

  /** The one that runs ahead of k bits, whatever they are. */
  predicate Marker(shift: bv8, k: nat)
  {
    k <= 6 ==> Bit(shift, 6 - k) && forall i :: 0 <= i < 6 - k ==> !Bit(shift, i)
  }

  lemma DataRead(line: nat -> bv8, shift: bv8, n: nat, k: nat)
    requires k < 8 && Data(line, shift, n, k)
    ensures Data(line, Ror(shift, BitAt(line, First(line), 8 * n + k)), n, k + 1)
  {
    hide Bit, Ror, BitAt;
    RorBits(shift, BitAt(line, First(line), 8 * n + k));
    var s := Ror(shift, BitAt(line, First(line), 8 * n + k));
    forall i | 8 - k - 1 <= i < 8 ensures Bit(s, i) == BitAt(line, First(line), 8 * n + (k + 1) + i - 8) {
      if i < 7 {
        assert Bit(s, i) == Bit(shift, i + 1);
      }
    }
  }

  lemma MarkerMoves(shift: bv8, k: nat, carry: bool)
    requires Marker(shift, k)
    ensures Marker(Ror(shift, carry), k + 1)
    ensures k <= 6 ==> (Bit(shift, 0) <==> k == 6)
  {
    hide Bit, Ror;
    RorBits(shift, carry);
    if k < 6 {
      forall i | 0 <= i < 6 - k - 1 ensures !Bit(Ror(shift, carry), i) {
        assert Bit(Ror(shift, carry), i) == Bit(shift, i + 1);
      }
    }
  }

  lemma ByteStart(line: nat -> bv8, n: nat)
    ensures Data(line, 0x40, n, 0) && Marker(0x40, 0)
  {}

  lemma DataByte(line: nat -> bv8, shift: bv8, n: nat)
    requires Data(line, shift, n, 8)
    ensures ByteIs(line, First(line), n, shift)
  {
    hide Bit, BitAt;
    forall j | 0 <= j < 8 ensures Bit(shift, j) == BitAt(line, First(line), 8 * n + j) {
      assert 8 * n + 8 + j - 8 == 8 * n + j;
    }
  }

  class Receiver {
    const line: nat -> bv8
    var pos: nat
    var shift: bv8
    var x2: bv8
    var bitcnt: nat
    var stored: seq<bv8>

    constructor (line: nat -> bv8)
      ensures this.line == line && pos == 0 && stored == []
      ensures shift == 0x40 && x2 == 0x04 && bitcnt == 5
    {
      this.line := line;
      pos, stored := 0, [];
      shift, x2, bitcnt := 0x40, 0x04, 5;
    }

    ghost function R(n: nat, k: nat): Reader
      requires 1 <= 8 * n + k
    {
      After(line, First(line), 8 * n + k)
    }

    /** The first bit is compared with the K that ended the sync pattern, a one itself. */
    ghost function S(n: nat, k: nat): Reader
    {
      if 8 * n + k == 0 then Reader(0, false, 1) else Settle(line, R(n, k))
    }

    lemma NextBit(n: nat, k: nat)
      ensures R(n, k + 1) == Read(line, S(n, k))
      ensures BitAt(line, First(line), 8 * n + k) == (Minus(line(S(n, k).pos)) == S(n, k).level)
      ensures S(n, k).pos < S(n, k + 1).pos
      ensures R(n, k + 1).ones == 6 ==> S(n, k + 1).pos == S(n, k).pos + 2
    {}

    ghost predicate Ready(n: nat, k: nat)
      requires k <= 8
      reads `pos, `shift, `x2, `bitcnt
    {
      && S(n, k).ones <= 5 && bitcnt == 6 - S(n, k).ones
      && Holds(x2, S(n, k).level)
      && Data(line, shift, n, k)
      && pos == S(n, k).pos
    }

    /** What the loops rely on, whatever is on the line. */
    ghost predicate Counting(k: nat)
      reads `shift, `bitcnt
    {
      1 <= bitcnt <= 6 && Marker(shift, k)
    }

    method In() returns (sample: bv8)
      modifies `pos
      ensures sample == line(old(pos)) && pos == old(pos) + 1
    {
      sample := line(pos);
      pos := pos + 1;
    }

    lemma SameLevel(a: bv8, p: bool, b: bv8, q: bool)
      requires Holds(b, q)
      ensures Holds(a, p) ==> (a == b <==> p == q)
      ensures a == 0 ==> a != b
    {}

    /** The stuff bit: its level is kept, its value not looked at. */
    method TakeStuffBit()
      modifies `pos, `x2, `bitcnt
      ensures bitcnt == 6 && pos == old(pos) + 1
      ensures IsJK(line(old(pos))) ==> Holds(x2, Minus(line(old(pos))))
    {
      hide Holds, IsJK;
      x2 := In();
      bitcnt := 6;
      if IsJK(x2) { MaskHolds(x2); }
      x2 := x2 & USBMASK;
    }

    /** handleBit, or the same steps for bit 7, with the stuff bit behind it.  The first
        sample of SE0 reads as a change of level. */
    method HandleBit(ghost n: nat, ghost k: nat, x1: bv8, ghost mode: Mode) returns (carry: bool)
      requires k < 8 && Counting(k)
      requires mode != Unknown ==>
        && pos == S(n, k).pos + 1 && S(n, k).ones <= 5 && bitcnt == 6 - S(n, k).ones
        && Holds(x2, S(n, k).level) && Data(line, shift, n, k)
      requires mode == Known ==> Holds(x1, Minus(line(S(n, k).pos)))
      requires mode == Known ==> forall i :: S(n, k).pos <= i < S(n, k + 1).pos ==> IsJK(line(i))
      requires mode == Ending ==> k == 0 && x1 == 0
      modifies `pos, `shift, `x2, `bitcnt
      ensures Counting(k + 1) && (k <= 6 ==> (carry <==> k == 6))
      ensures mode == Known ==> Ready(n, k + 1)
      ensures mode == Ending ==> pos == old(pos)
    {
      hide Bit, Ror, IsJK, After, Data, Marker, Holds, Minus;
      if mode == Known {
        NextBit(n, k);
        DataRead(line, shift, n, k);
      }
      if mode != Unknown { SameLevel(x1, Minus(line(S(n, k).pos)), x2, S(n, k).level); }
      MarkerMoves(shift, k, x1 == x2);
      carry := Bit(shift, 0);
      if x1 == x2 {
        shift := Ror(shift, true);
        bitcnt := bitcnt - 1;
        if bitcnt == 0 { TakeStuffBit(); }
      } else {
        x2 := x1;
        bitcnt := 6;
        shift := Ror(shift, false);
      }
    }

    lemma {:induction false} BitsMove(n: nat, k: nat, m: nat)
      requires k <= m
      ensures S(n, k).pos <= S(n, m).pos
      decreases m - k
    {
      if k < m {
        NextBit(n, k);
        BitsMove(n, k + 1, m);
      }
    }

    lemma Inside(N: nat, n: nat)
      requires Trace(line, First(line), N) && n < N
      ensures forall i :: 0 <= i < S(n, 8).pos ==> IsJK(line(i))
    {
      BitsMove(n, 8, 8 * (N - n));
    }

    lemma AtTheEnd(N: nat)
      requires CleanPacket(line, First(line), N)
      ensures 1 <= N && IsSe0(line(S(N, 0).pos)) && IsSe0(line(S(N, 0).pos + 1))
    {}

    /** What is known at bit 0 of byte n. */
    lemma AtByte(N: nat, n: nat)
      requires Trace(line, First(line), N)
      ensures ModeAt(line, First(line), N, n) == Known ==> forall i :: 0 <= i < S(n, 8).pos ==> IsJK(line(i))
      ensures ModeAt(line, First(line), N, n) == Ending ==> IsSe0(line(S(n, 0).pos)) && IsSe0(line(S(n, 0).pos + 1))
    {
      if n < N { Inside(N, n); } else if n == N && CleanPacket(line, First(line), N) { AtTheEnd(N); }
    }

    /** bit0 and bitloop: bits 0 to 6 of byte n, or the end of the packet, which is found in
        the sample after bit 0. */
    method SevenBits(ghost n: nat, ghost mode: Mode) returns (se0: bool)
      requires Counting(0) && (mode != Unknown ==> Ready(n, 0))
      requires mode == Known ==> forall i :: 0 <= i < S(n, 8).pos ==> IsJK(line(i))
      requires mode == Ending ==> IsSe0(line(S(n, 0).pos)) && IsSe0(line(S(n, 0).pos + 1))
      modifies `pos, `shift, `x2, `bitcnt
      ensures mode != Unknown ==> (se0 <==> mode == Ending)
      ensures !se0 ==> Counting(7) && (mode == Known ==> Ready(n, 7))
    {
      hide Bit, Ror, IsJK, IsSe0, After, Data, Marker, Holds;
      if mode == Known { BitsMove(n, 1, 8); }
      NextBit(n, 0);
      var x1 := In();
      Se0IsZero(x1);
      if mode == Known { MaskHolds(x1); }
      x1 := x1 & USBMASK;
      var carry := HandleBit(n, 0, x1, mode);
      ghost var k := 1;
      while !carry
        invariant 1 <= k <= 7 && (carry <==> k == 7) && Counting(k)
        invariant mode == Known ==> Ready(n, k)
        invariant mode == Ending ==> k == 1 && IsSe0(line(pos))
        decreases 7 - k
      {
        if mode == Known {
          NextBit(n, k);
          BitsMove(n, k + 1, 8);
          MaskHolds(line(pos));
        }
        x1 := In();
        Se0IsZero(x1);
        x1 := x1 & USBMASK;
        if x1 == 0 { return true; }
        carry := HandleBit(n, k, x1, mode);
        k := k + 1;
      }
      se0 := false;
    }

    lemma Se0IsZero(sample: bv8)
      ensures IsSe0(sample) <==> sample & USBMASK == 0
    {}

    /** Bit 7, and storing the byte. */
    method StoreByte(ghost n: nat, ghost mode: Mode)
      requires Counting(7) && (mode == Known ==> Ready(n, 7))
      requires mode == Known ==> forall i :: 0 <= i < S(n, 8).pos ==> IsJK(line(i))
      requires mode != Ending
      modifies this
      ensures Counting(0) && |stored| == |old(stored)| + 1 && stored[..|old(stored)|] == old(stored)
      ensures mode == Known ==> Ready(n + 1, 0) && ByteIs(line, First(line), n, stored[|old(stored)|])
    {
      hide Bit, Ror, IsJK, After, Data, Marker, Holds, ByteIs;
      NextBit(n, 7);
      var x1 := In();
      if mode == Known { MaskHolds(x1); }
      x1 := x1 & USBMASK;
      var carry := HandleBit(n, 7, x1, mode);
      if mode == Known { DataByte(line, shift, n); }
      stored := stored + [shift];
      shift := 0x40;
      ByteStart(line, n + 1);
    }

    lemma AtFirst()
      requires pos == 0 && shift == 0x40 && x2 == 0x04 && bitcnt == 5
      ensures Ready(0, 0) && Counting(0)
    {
      ByteStart(line, 0);
    }

    /** The receiver from the first data bit on: a trace of N bytes is stored as far as there
        is room, whatever follows it; a clean packet ends exactly behind its last byte. */
    method Receive(ghost N: nat) returns (outcome: Outcome)
      requires Trace(line, First(line), N)
      requires pos == 0 && stored == [] && shift == 0x40 && x2 == 0x04 && bitcnt == 5
      modifies this
      ensures Received(line, First(line), N, stored, outcome)
    {
      hide IsJK, IsSe0, After, Trace, CleanPacket, ByteIs, Ready, Counting;
      AtFirst();
      var cnt := 11;
      while true
        invariant 0 <= cnt && |stored| + cnt == 11 && Counting(0)
        invariant BytesAre(line, First(line), stored[..Min(N, |stored|)])
        invariant |stored| <= N ==> Ready(|stored|, 0)
        invariant CleanPacket(line, First(line), N) ==> |stored| <= N
        decreases cnt
      {
        ghost var n, before := |stored|, stored;
        ghost var mode := ModeAt(line, First(line), N, n);
        AtByte(N, n);
        var se0 := SevenBits(n, mode);
        if se0 { return Se0(11 - cnt); }
        if cnt < 1 { return Overflow; }
        cnt := cnt - 1;
        StoreByte(n, mode);
        OneMoreByte(line, First(line), N, before, stored);
      }
    }
  }
}
