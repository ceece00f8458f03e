/** What the CRC check is for: damage that cannot go unnoticed. */
module CrcDetection {
  import opened Bits
  import opened Crc16
  import opened CrcFast
  import opened CrcReceive

  // ---- How the difference of two registers evolves ----

  lemma XorTwice(w: bv16, f: bool, g: bool)
    ensures Feedback(Feedback(w, g), f) == Feedback(w, f != g)
  {
    assert (w ^ 0xA001) ^ 0xA001 == w;
  }

  lemma XorSwap(a: bv16, b: bv16)
    ensures Xor(a, b) == Xor(b, a)
  {
    assert a ^ b == b ^ a;
  }

  lemma DifferenceStep(a: bv16, b: bv16, x: bool, y: bool)
    ensures Xor(Step(a, x), Step(b, y)) == Step(Xor(a, b), x != y)
  {
    hide Xor, Half, Odd, Feedback, Step;
    StepIs(a, x);
    StepIs(b, y);
    StepIs(Xor(a, b), x != y);
    HalfXor(a, b);
    var p, q, f, g := Half(a), Half(b), Odd(a) != x, Odd(b) != y;
    FeedbackXor(p, Feedback(q, g), f);
    XorSwap(p, Feedback(q, g));
    FeedbackXor(q, p, g);
    XorSwap(p, q);
    XorTwice(Xor(p, q), f, g);
  }

  /** The lowest value that has a bit at place w or above. */
  function Bound(w: nat): bv16
    requires w < 16
  {
    match w
    case 0 => 0x0001 case 1 => 0x0002 case 2 => 0x0004 case 3 => 0x0008
    case 4 => 0x0010 case 5 => 0x0020 case 6 => 0x0040 case 7 => 0x0080
    case 8 => 0x0100 case 9 => 0x0200 case 10 => 0x0400 case 11 => 0x0800
    case 12 => 0x1000 case 13 => 0x2000 case 14 => 0x4000 case 15 => 0x8000
  }

  predicate AtLeast(d: bv16, w: nat)
    requires w < 16
  {
    d >= Bound(w)
  }

  /** In one step the top bit of a difference moves down by one place, or a new one is set
      at the very top. */
  lemma BoundStep(d: bv16, w: nat, x: bool)
    requires 1 <= w < 16 && AtLeast(d, w)
    ensures AtLeast(Step(d, x), w - 1)
  {
    hide Feedback;
    HalfBound(d, w);
    TopBit(d);
    StepIs(d, x);
    FeedbackIs(Half(d), Odd(d) != x);
    BoundTop(w - 1);
  }

  lemma HalfBound(d: bv16, w: nat)
    requires 1 <= w < 16 && d >= Bound(w)
    ensures Half(d) >= Bound(w - 1)
  {
    hide Half;
    HalfOfBound(w);
    HalfMonotone(d, Bound(w));
  }

  lemma HalfOfBound(w: nat)
    requires 1 <= w < 16
    ensures Half(Bound(w)) == Bound(w - 1)
  {}

  lemma HalfMonotone(a: bv16, b: bv16)
    requires a >= b
    ensures Half(a) >= Half(b)
  {}

  lemma TopBit(d: bv16)
    ensures Xor(Half(d), 0xA001) >= 0x8000
  {}

  lemma FeedbackIs(w: bv16, on: bool)
    ensures Feedback(w, on) == if on then Xor(w, 0xA001) else w
  {}

  lemma BoundTop(w: nat)
    requires w < 16
    ensures 0 < Bound(w) <= 0x8000
  {
    match w {
      case 0 => case 1 => case 2 => case 3 => case 4 => case 5 => case 6 => case 7 => case 8 =>
      case 9 => case 10 => case 11 => case 12 => case 13 => case 14 => case 15 =>
    }
  }

  /** The registers differ at place w or above. */
  predicate Apart(a: bv16, b: bv16, w: nat)
    requires w < 16
  {
    AtLeast(Xor(a, b), w)
  }

  lemma FirstDifference(c: bv16, x: bool, y: bool, w: nat)
    requires x != y && w < 16
    ensures Apart(Step(c, x), Step(c, y), w)
  {
    hide Step;
    DifferenceStep(c, c, x, y);
    SelfXor(c);
    BoundTop(w);
  }

  lemma SelfXor(c: bv16)
    ensures Step(Xor(c, c), true) >= 0x8000
  {}

  lemma ApartStep(a: bv16, b: bv16, x: bool, y: bool, w: nat)
    requires 1 <= w < 16 && Apart(a, b, w)
    ensures Apart(Step(a, x), Step(b, y), w - 1)
  {
    hide Step, Xor, AtLeast;
    DifferenceStep(a, b, x, y);
    BoundStep(Xor(a, b), w, x != y);
  }

  lemma ApartDiffer(a: bv16, b: bv16, w: nat)
    requires w < 16 && Apart(a, b, w)
    ensures a != b
  {
    BoundTop(w);
    assert a ^ a == 0;
  }

  lemma CrcSnoc(c: bv16, s: seq<bool>)
    requires s != []
    ensures CrcBits(c, s) == Step(CrcBits(c, s[..|s| - 1]), s[|s| - 1])
  {}

  /** Two registers that saw the same bits up to `at`, and different ones in the window. */
  lemma {:induction false} BurstDiffers(c: bv16, s: seq<bool>, r: seq<bool>, at: nat)
    requires |s| == |r| && at < |s| && s[..at] == r[..at] && s != r
    requires forall i :: at + 16 <= i < |s| ==> s[i] == r[i]
    ensures CrcBits(c, s) != CrcBits(c, r)
    ensures |s| <= at + 16 ==> Apart(CrcBits(c, s), CrcBits(c, r), at + 16 - |s|)
  {
    hide Step, Apart, CrcBits;
    var m := |s| - 1;
    var a, b := CrcBits(c, s[..m]), CrcBits(c, r[..m]);
    assert s == s[..m] + [s[m]] && r == r[..m] + [r[m]];
    CrcSnoc(c, s);
    CrcSnoc(c, r);
    if s[..m] == r[..m] {
      FirstDifference(a, s[m], r[m], at + 16 - |s|);
      ApartDiffer(CrcBits(c, s), CrcBits(c, r), at + 16 - |s|);
    } else {
      assert s[..m][..at] == s[..at] && r[..m][..at] == r[..at];
      BurstDiffers(c, s[..m], r[..m], at);
      if m < at + 16 {
        ApartStep(a, b, s[m], r[m], at + 16 - m);
        ApartDiffer(CrcBits(c, s), CrcBits(c, r), at + 16 - |s|);
      } else {
        Injective(a, b, s[m]);
      }
    }
  }

  /** The top bit of the result tells what was fed back, so a step can be undone. */
  lemma Injective(a: bv16, b: bv16, x: bool)
    requires a != b
    ensures Step(a, x) != Step(b, x)
  {
    hide Xor, Half, Odd;
    HalvesAreLow(a, b);
    TopTells(Half(a), Half(b));
  }

  lemma TopTells(a: bv16, b: bv16)
    requires a < 0x8000 && b < 0x8000
    ensures Xor(a, 0xA001) != b && Xor(b, 0xA001) != a
    ensures Xor(a, 0xA001) == Xor(b, 0xA001) ==> a == b
  {}

  lemma HalvesAreLow(a: bv16, b: bv16)
    ensures Half(a) < 0x8000 && Half(b) < 0x8000
    ensures Half(a) == Half(b) && Odd(a) == Odd(b) ==> a == b
  {}

  /** Damage inside one window of sixteen consecutive bits never passes the check, for
      messages of any length. */
  lemma BurstIsDetected(sent: seq<bv8>, received: seq<bv8>, at: nat)
    requires Intact(sent) && |sent| == |received| && sent != received
    requires forall i :: 0 <= i < 8 * |sent| && !(at <= i < at + 16) ==> BitsOf(sent)[i] == BitsOf(received)[i]
    ensures !Intact(received)
  {
    hide CrcBits, Bit, BitsOf, Intact, Apart;
    var s, r := BitsOf(sent), BitsOf(received);
    SameBitsSameBytes(sent, received);
    assert at >= |s| ==> s == r;
    assert s[..at] == r[..at];
    BurstDiffers(0xffff, s, r, at);
    ResidueMeansIntact(sent);
    ResidueMeansIntact(received);
  }

  lemma SameBitsSameBytes(a: seq<bv8>, b: seq<bv8>)
    requires |a| == |b|
    ensures BitsOf(a) == BitsOf(b) ==> a == b
  {
    hide Bit, BitsOf;
    forall n | 0 <= n < |a| && BitsOf(a) == BitsOf(b) ensures a[n] == b[n] {
      forall j | 0 <= j < 8 ensures Bit(a[n], j) == Bit(b[n], j) {
        assert (8 * n + j) / 8 == n && (8 * n + j) % 8 == j;
        BitsOfAt(a, 8 * n + j);
        BitsOfAt(b, 8 * n + j);
      }
      SameBits(a[n], b[n]);
    }
  }

  // ---- Odd damage ----

  predicate OddOnes(w: bv16) { Parity(Lo(w)) != Parity(Hi(w)) }

  /** The generator has an even number of terms, so the register keeps the parity of the
      message. */
  lemma ParityStep(crc: bv16, bit: bool)
    ensures OddOnes(Step(crc, bit)) == (OddOnes(crc) != bit)
  {
    hide OddOnes, Xor, Half, Odd;
    HalfParity(crc);
    PolyParity(Half(crc));
  }

  lemma HalfParity(w: bv16)
    ensures OddOnes(Half(w)) == (OddOnes(w) != Odd(w))
  {}

  lemma PolyParity(w: bv16)
    ensures OddOnes(Xor(w, 0xA001)) != OddOnes(w)
  {}

  predicate OddTrue(bits: seq<bool>)
  {
    bits != [] && (OddTrue(bits[..|bits| - 1]) != bits[|bits| - 1])
  }

  lemma {:induction false} ParityKept(crc: bv16, bits: seq<bool>)
    ensures OddOnes(CrcBits(crc, bits)) == (OddOnes(crc) != OddTrue(bits))
  {
    hide OddOnes, Step;
    if bits != [] {
      ParityKept(crc, bits[..|bits| - 1]);
      ParityStep(CrcBits(crc, bits[..|bits| - 1]), bits[|bits| - 1]);
    }
  }

  /** Nor does damage to an odd number of bits, wherever they are. */
  lemma OddDamageIsDetected(sent: seq<bv8>, received: seq<bv8>)
    requires Intact(sent) && OddTrue(BitsOf(sent)) != OddTrue(BitsOf(received))
    ensures !Intact(received)
  {
    hide CrcBits, Bit, BitsOf, OddOnes;
    ParityKept(0xffff, BitsOf(sent));
    ParityKept(0xffff, BitsOf(received));
    ResidueMeansIntact(sent);
    ResidueMeansIntact(received);
  }
}
