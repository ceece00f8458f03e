/** The 12 MHz receiver.  Bits go to fixed places in `shift`, inverted, and six ones are
    recognized as six zeros among the last six places; a place that was changed to break
    the run is remembered in x3 and repaired when the byte is stored. */
module Receive12 {
  import opened Bits
  import opened Wire

  /** The run length this engine starts with: it does not count the last bit of sync. */
  function First(line: nat -> bv8): nat { if Minus(line(0)) then 0 else 1 }

  /** The place i bits before place k, in the ring of eight. */
  function Back(k: nat, i: nat): nat
    requires k <= 8 && 1 <= i <= 8
    ensures Back(k, i) < 8
  {
    if k >= i then k - i else k + 8 - i
  }

  /** Seen from place k, the last `ones` places are zero and the one before is set. */
  predicate Ring(shift: bv8, k: nat, ones: nat)
    requires k <= 8
  {
    && ones <= 6
    && (forall i :: 1 <= i <= ones ==> !Bit(shift, Back(k, i)))
    && (ones <= 5 ==> Bit(shift, Back(k, ones + 1)))
  }

  /** The `andi` before the test for bit k - 1 clears the two places ahead. */
  function Mask(k: nat): bv8
    requires 1 <= k <= 6
  {
    match k
    case 1 => 0xf9
    case 2 => 0xf3
    case 3 => 0xe7
    case 4 => 0xcf
    case 5 => 0x9f
    case 6 => 0x3f
  }

  function Masked(shift: bv8, k: nat): bv8
    requires 1 <= k <= 6
  {
    shift & Mask(k)
  }

  lemma MaskedBits(shift: bv8, k: nat)
    requires 1 <= k <= 6
    ensures forall i :: 0 <= i < 8 ==> Bit(Masked(shift, k), i) == (i != k && i != k + 1 && Bit(shift, i))
  {
    AndBits(shift, Mask(k));
  }

  lemma RingMask(shift: bv8, k: nat, ones: nat)
    requires 1 <= k <= 6 && Ring(shift, k, ones)
    ensures Ring(Masked(shift, k), k, ones)
    ensures Masked(shift, k) == 0 <==> ones == 6
  {
    hide Bit, Masked;
    MaskedBits(shift, k);
    ZeroBits(Masked(shift, k));
    if ones == 6 {
      forall i | 0 <= i < 8 ensures !Bit(Masked(shift, k), i) {
        var d := if i < k then k - i else k + 8 - i;
        assert i == Back(k, d);
      }
    }
  }

  lemma RingCompare(shift: bv8, k: nat, ones: nat)
    requires 7 <= k <= 8 && Ring(shift, k, ones) && (k == 7 ==> !Bit(shift, 7))
    ensures (if k == 7 then shift < 0x02 else shift < 0x04) <==> ones == 6
  {
    hide Bit;
    CompareBits(shift);
    if ones == 6 {
      forall i | k - 6 <= i < 8 ensures !Bit(shift, i) {
        assert i < k ==> i == Back(k, k - i);
      }
    }
  }

  lemma RingNext(shift: bv8, k: nat, ones: nat, v: bool)
    requires k < 8 && Ring(shift, k, ones) && ones <= 5
    ensures Ring(Bld(shift, k, v), k + 1, if v then 0 else ones + 1)
  {
    hide Bit, Bld;
    BldBits(shift, k, v);
    var s := Bld(shift, k, v);
    var next := k + 1;
    assert Back(next, 1) == k;
    if !v {
      forall i | 2 <= i <= ones + 1 ensures !Bit(s, Back(next, i)) {
        assert Back(next, i) == Back(k, i - 1);
      }
      if ones + 1 <= 5 {
        assert Back(next, ones + 2) == Back(k, ones + 1);
      }
    }
  }

  lemma RingBound(shift: bv8, k: nat, ones: nat)
    requires k <= 8 && Ring(shift, k, ones)
    ensures ones <= 6
  {}

  lemma RingBroken(shift: bv8, k: nat)
    requires 1 <= k <= 8
    ensures Ring(Bld(shift, k - 1, true), k, 0)
  {
    hide Bit, Bld;
    BldBits(shift, k - 1, true);
  }

  lemma RingStart(shift: bv8, minus: bool)
    requires shift == Bld(0xff, 0, minus)
    ensures Ring(shift, 1, if minus then 0 else 1)
  {}

  lemma RingWrap(shift: bv8, ones: nat)
    requires Ring(shift, 8, ones)
    ensures Ring(shift, 0, ones)
  {
    hide Bit;
    forall i | 1 <= i <= ones ensures !Bit(shift, Back(0, i)) {
      assert Back(0, i) == Back(8, i);
    }
  }

  lemma Reconstruct(line: nat -> bv8, first: nat, n: nat, x3: bv8, shift: bv8)
    requires forall j :: 0 <= j < 8 ==> (Bit(x3, j) != Bit(shift, j)) == BitAt(line, first, 8 * n + j)
    ensures ByteIs(line, first, n, x3 ^ shift)
  {
    hide Bit, BitAt;
    XorBits(x3, shift);
  }

  lemma AllOnes()
    ensures forall j :: 0 <= j < 8 ==> Bit(0xff, j)
  {}

  lemma MaskKeeps(sample: bv8)
    ensures Minus(sample & USBMASK) == Minus(sample)
    ensures sample & USBMASK == 0 <==> IsSe0(sample)
  {}

  /** The sample at which the engine looks for SE0 after n bytes: the second one of the
      next byte. */
  predicate EndsAfter(line: nat -> bv8, n: nat)
    requires 1 <= n
  {
    IsSe0(line(Settle(line, After(line, First(line), 8 * n)).pos + 1))
  }

  class Receiver {
    const line: nat -> bv8   // the port, one sample per bit time
    var pos: nat
    var shift: bv8
    var x3: bv8              // zero where `shift` was changed
    var stored: seq<bv8>

    constructor (line: nat -> bv8)
      ensures this.line == line && pos == 0 && stored == []
    {
      this.line := line;
      pos, shift, x3, stored := 0, 0xff, 0xff, [];
    }

    /** The decoder after bit k - 1 of byte n, before and after a stuff bit was skipped. */
    ghost function R(n: nat, k: nat): Reader
      requires 1 <= 8 * n + k
    {
      After(line, First(line), 8 * n + k)
    }

    ghost function S(n: nat, k: nat): Reader
      requires 1 <= 8 * n + k
    {
      Settle(line, R(n, k))
    }

    /** The first k bits of byte n are in shift and x3. */
    ghost predicate Holds(n: nat, k: nat)
      requires k <= 8
      reads `shift, `x3
    {
      && (forall j :: 0 <= j < k ==> (Bit(x3, j) != Bit(shift, j)) == BitAt(line, First(line), 8 * n + j))
      && (forall j :: k <= j < 8 ==> Bit(x3, j))
    }

    ghost predicate Decoded(n: nat, k: nat)
      requires 1 <= k <= 8
      reads `shift, `x3
    {
      && Ring(shift, k, R(n, k).ones)
      && Holds(n, k)
      && (k == 7 ==> !Bit(shift, 7))
    }

    ghost predicate Ready(n: nat, k: nat)
      requires k <= 8 && 1 <= 8 * n + k
      reads `shift, `x3
    {
      && S(n, k).ones <= 5 && Ring(shift, k, S(n, k).ones)
      && Holds(n, k)
      && (6 <= k <= 7 ==> !Bit(shift, 7))
    }

    method In() returns (sample: bv8)
      modifies this`pos
      ensures sample == line(old(pos)) && pos == old(pos) + 1
    {
      sample := line(pos);
      pos := pos + 1;
    }

    /** `eor`, `bst`, `bld`: file bit k, given the last sample and a new one. */
    method StoreBit(ghost n: nat, k: nat, last: bv8, sample: bv8)
      requires k < 8 && 1 <= 8 * n + k && Ready(n, k)
      requires Minus(last) == S(n, k).level && Minus(sample) == Minus(line(S(n, k).pos))
      modifies this`shift
      ensures Decoded(n, k + 1)
      ensures R(n, k + 1).pos == S(n, k).pos + 1 && Minus(sample) == R(n, k + 1).level
    {
      hide Bit, Bld, Ring, After;
      XorBits(last, sample);
      var differ := Bit(last ^ sample, 3);
      RingNext(shift, k, S(n, k).ones, differ);
      BldBits(shift, k, differ);
      shift := Bld(shift, k, differ);
      ReadNext(n, k);
    }

    lemma ReadNext(n: nat, k: nat)
      requires 1 <= 8 * n + k
      ensures R(n, k + 1) == Read(line, S(n, k))
      ensures BitAt(line, First(line), 8 * n + k) == (Minus(line(S(n, k).pos)) == S(n, k).level)
    {}

    /** `andi shift, mask`: is the next sample a stuff bit? */
    method Test(ghost n: nat, k: nat) returns (stuffed: bool)
      requires 1 <= k <= 6 && Decoded(n, k)
      modifies this`shift
      ensures stuffed <==> R(n, k).ones == 6
      ensures Decoded(n, k) && (k == 6 ==> !Bit(shift, 7))
      ensures !stuffed ==> Ready(n, k) && S(n, k) == R(n, k)
    {
      hide Bit, Ring, After, Masked;
      MaskedBits(shift, k);
      RingMask(shift, k, R(n, k).ones);
      RingBound(Masked(shift, k), k, R(n, k).ones);
      shift := Masked(shift, k);
      stuffed := shift == 0;
    }

    /** The common part of unstuff0 to unstuff7: change the last bit filed, and remember. */
    method Unstuff(ghost n: nat, k: nat)
      requires 1 <= k <= 8 && Decoded(n, k) && R(n, k).ones == 6
      requires k == 6 ==> !Bit(shift, 7)
      modifies this`shift, this`x3
      ensures Ready(n, k)
      ensures S(n, k) == Reader(R(n, k).pos + 1, Minus(line(R(n, k).pos)), 0)
    {
      hide Bit, Bld, Ring;
      BldBits(x3, k - 1, false);
      BldBits(shift, k - 1, true);
      x3 := Bld(x3, k - 1, false);
      RingBroken(shift, k);
      shift := Bld(shift, k - 1, true);
      assert 8 * n + (k - 1) == 8 * n + k - 1;
      LastWasOne(n, k);
    }

    lemma LastWasOne(n: nat, k: nat)
      requires 1 <= k && R(n, k).ones == 6
      ensures BitAt(line, First(line), 8 * n + k - 1)
    {}

    /** The last two tests of a byte are compares. */
    lemma Compare(n: nat, k: nat)
      requires 7 <= k <= 8 && Decoded(n, k)
      ensures (if k == 7 then shift < 0x02 else shift < 0x04) <==> R(n, k).ones == 6
      ensures R(n, k).ones != 6 ==> Ready(n, k) && S(n, k) == R(n, k)
    {
      hide Bit, Ring, After;
      RingBound(shift, k, R(n, k).ones);
      RingCompare(shift, k, R(n, k).ones);
    }

    /** The entry code: bits 0 and 1 of the first byte, without any test. */
    method FirstTwoBits() returns (x2: bv8)
      requires pos == 0
      modifies this`pos, this`shift, this`x3
      ensures Decoded(0, 2) && pos == R(0, 2).pos && Minus(x2) == R(0, 2).level
    {
      hide Ring;
      var x1 := In();
      BldBits(0xff, 0, Minus(x1));
      shift := Bld(0xff, 0, Minus(x1));
      x3 := 0xff;
      RingStart(shift, Minus(x1));
      x2 := In();
      StoreBit(0, 1, x1, x2);
    }

    /** Reconstruct and store byte n - 1; bit 0 of the next byte is sampled in between. */
    method Store(ghost n: nat) returns (x1: bv8)
      requires 1 <= n && Ready(n - 1, 8)
      requires pos == S(n - 1, 8).pos
      modifies this
      ensures pos == S(n, 0).pos + 1 && x1 == line(S(n, 0).pos)
      ensures |stored| == |old(stored)| + 1 && stored[..|old(stored)|] == old(stored)
      ensures ByteIs(line, First(line), n - 1, stored[|old(stored)|])
      ensures Ready(n, 0)
    {
      hide Ring, Bit, After, ByteIs, Settle;
      Reconstruct(line, First(line), n - 1, x3, shift);
      x3 := x3 ^ shift;
      x1 := In();
      stored := stored + [x3];
      x3 := 0xff;
      AllOnes();
      RingWrap(shift, S(n, 0).ones);
    }

    /** rxLoop: store byte n - 1 and read bits 0 and 1 of byte n, unless the packet ends. */
    method StoreByte(ghost n: nat, last: bv8) returns (se0: bool, x2: bv8)
      requires 1 <= n && Ready(n - 1, 8)
      requires pos == S(n - 1, 8).pos && Minus(last) == S(n - 1, 8).level
      modifies this
      ensures |stored| == |old(stored)| + 1 && stored[..|old(stored)|] == old(stored)
      ensures ByteIs(line, First(line), n - 1, stored[|old(stored)|])
      ensures se0 <==> EndsAfter(line, n)
      ensures !se0 ==> Decoded(n, 2) && pos == R(n, 2).pos && Minus(x2) == R(n, 2).level
    {
      hide Ring, Bit, After, IsSe0, Minus, Holds, Decoded, Ready;
      var x1 := Store(n);
      StoreBit(n, 0, last, x1);
      x2 := In();
      x2 := x2 & USBMASK;
      MaskKeeps(line(pos - 1));
      se0 := x2 == 0;
      if se0 { return; }
      x1, x2 := SkipEarlier(n, 1, x1, x2);
      StoreBit(n, 1, x1, x2);
    }

    /** The test behind bit 3, 4, 5, 6 or 7, with its unstuff code: the stuff bit is sampled
        in place of the last bit. */
    method SkipStuffBit(ghost n: nat, k: nat, last: bv8) returns (level: bv8)
      requires 4 <= k <= 8 && Decoded(n, k) && pos == R(n, k).pos && Minus(last) == R(n, k).level
      modifies `pos, `shift, `x3
      ensures Ready(n, k) && pos == S(n, k).pos && Minus(level) == S(n, k).level
    {
      hide Ring, Bit, After, Minus, Holds, Decoded, Ready;
      level := last;
      var stuffed;
      if k <= 6 {
        stuffed := Test(n, k);
      } else {
        Compare(n, k);
        stuffed := if k == 7 then shift < 0x02 else shift < 0x04;
      }
      if stuffed {
        Unstuff(n, k);
        level := In();
      }
    }

    /** The test behind bit 0, 1 or 2, with its unstuff code: the sample of the next bit has
        already been taken, and may turn out to be the stuff bit. */
    method SkipEarlier(ghost n: nat, k: nat, last: bv8, next: bv8) returns (level: bv8, sample: bv8)
      requires 1 <= k <= 3 && Decoded(n, k) && pos == R(n, k).pos + 1
      requires Minus(last) == R(n, k).level && Minus(next) == Minus(line(R(n, k).pos))
      modifies `pos, `shift, `x3
      ensures Ready(n, k) && pos == S(n, k).pos + 1
      ensures Minus(level) == S(n, k).level && Minus(sample) == Minus(line(S(n, k).pos))
    {
      hide Ring, Bit, After, Minus, Holds, Decoded, Ready;
      level, sample := last, next;
      var stuffed := Test(n, k);
      if stuffed {
        level := next;
        sample := In();
        Unstuff(n, k);
      }
    }

    /** rxbit2 to didUnstuff4: the overflow check, bits 2 to 4. */
    method Bits2To4(ghost n: nat, last: bv8, room: nat) returns (overflow: bool, x1: bv8)
      requires Decoded(n, 2) && pos == R(n, 2).pos && Minus(last) == R(n, 2).level
      modifies `pos, `shift, `x3
      ensures overflow <==> room == 0
      ensures !overflow ==> Decoded(n, 5) && pos == R(n, 5).pos && Minus(x1) == R(n, 5).level
    {
      hide Ring, Bit, After, Minus, Holds, Decoded, Ready, Settle, Read;
      var x2 := last;
      x1 := In();
      x2, x1 := SkipEarlier(n, 2, x2, x1);
      overflow := room < 1;
      if overflow { return; }
      StoreBit(n, 2, x2, x1);
      x2 := In();
      x1, x2 := SkipEarlier(n, 3, x1, x2);
      StoreBit(n, 3, x1, x2);
      x2 := SkipStuffBit(n, 4, x2);
      x1 := In();
      StoreBit(n, 4, x2, x1);
    }

    /** didUnstuff4 to didUnstuff7: bits 5 to 7. */
    method Bits5To7(ghost n: nat, last: bv8) returns (x2: bv8)
      requires Decoded(n, 5) && pos == R(n, 5).pos && Minus(last) == R(n, 5).level
      modifies `pos, `shift, `x3
      ensures Ready(n, 8) && pos == S(n, 8).pos && Minus(x2) == S(n, 8).level
    {
      hide Ring, Bit, After, Minus, Holds, Decoded, Ready, Settle, Read;
      var x1 := SkipStuffBit(n, 5, last);
      x2 := In();
      StoreBit(n, 5, x1, x2);
      x2 := SkipStuffBit(n, 6, x2);
      x1 := In();
      StoreBit(n, 6, x2, x1);
      x1 := SkipStuffBit(n, 7, x1);
      x2 := In();
      StoreBit(n, 7, x1, x2);
      x2 := SkipStuffBit(n, 8, x2);
    }

    /** The receiver from the first data bit on.  It ends at the first byte boundary behind
        which it finds SE0; a twelfth byte is an overflow. */
    method Receive() returns (outcome: Outcome)
      requires pos == 0 && stored == []
      modifies this
      ensures 1 <= |stored| <= 11 && BytesAre(line, First(line), stored)
      ensures forall m :: 1 <= m < |stored| ==> !EndsAfter(line, m)
      ensures match outcome
        case Se0(length) => length == |stored| && EndsAfter(line, |stored|)
        case Overflow => |stored| == 11 && !EndsAfter(line, 11)
    {
      hide Ring, Bit, After, Minus, Holds, Decoded, Ready, EndsAfter, Settle, Read, ByteIs;
      var x2 := FirstTwoBits();
      var cnt := 11;
      while true
        invariant 0 <= cnt <= 11 && |stored| == 11 - cnt && BytesAre(line, First(line), stored)
        invariant Decoded(|stored|, 2) && pos == R(|stored|, 2).pos && Minus(x2) == R(|stored|, 2).level
        invariant forall m :: 1 <= m <= |stored| ==> !EndsAfter(line, m)
        decreases cnt
      {
        ghost var n := |stored|;
        var overflow;
        var x1;
        overflow, x1 := Bits2To4(n, x2, cnt);
        if overflow { return Overflow; }
        cnt := cnt - 1;
        x2 := Bits5To7(n, x1);
        var se0;
        se0, x2 := StoreByte(n + 1, x2);
        if se0 { return Se0(11 - cnt); }
      }
    }
  }
}
