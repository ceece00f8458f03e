/** AVR registers as 8-bit vectors, read one bit at a time.  Every proof about the
    serial engine works on these single bits; the lemmas below are the only places
    where the bit vectors themselves are reasoned about. */
module Bits {

  /** Bit i of a register, as `sbrs`/`bst` see it. */
  function Bit(b: bv8, i: nat): bool
    requires i < 8
  {
    match i
    case 0 => b & 0x01 != 0
    case 1 => b & 0x02 != 0
    case 2 => b & 0x04 != 0
    case 3 => b & 0x08 != 0
    case 4 => b & 0x10 != 0
    case 5 => b & 0x20 != 0
    case 6 => b & 0x40 != 0
    case 7 => b & 0x80 != 0
  }

  /** `ror`: rotate right, the carry flag enters at the top. */
  function Ror(b: bv8, carry: bool): bv8 { (b >> 1) | (if carry then 0x80 else 0) }

  /** `lsr`: shift right, a zero enters at the top. */
  function Lsr(b: bv8): bv8 { Ror(b, false) }

  /** `lsl`: shift left, a zero enters at the bottom. */
  function Lsl(b: bv8): bv8 { b << 1 }

  /** `rol`: rotate left, the carry flag enters at the bottom. */
  function Rol(b: bv8, carry: bool): bv8 { (b << 1) | (if carry then 0x01 else 0) }

  /** `bld b, i` after a `bst` that set the T flag to v. */
  function Bld(b: bv8, i: nat, v: bool): bv8
    requires i < 8
  {
    if v then b | OneBit(i) else b & !OneBit(i)
  }

  function OneBit(i: nat): bv8
    requires i < 8
  {
    match i
    case 0 => 0x01
    case 1 => 0x02
    case 2 => 0x04
    case 3 => 0x08
    case 4 => 0x10
    case 5 => 0x20
    case 6 => 0x40
    case 7 => 0x80
  }

  lemma AndBits(a: bv8, b: bv8)
    ensures forall i :: 0 <= i < 8 ==> Bit(a & b, i) == (Bit(a, i) && Bit(b, i))
  {
    forall i | 0 <= i < 8 ensures Bit(a & b, i) == (Bit(a, i) && Bit(b, i)) {
      match i { case 0 => case 1 => case 2 => case 3 => case 4 => case 5 => case 6 => case 7 => }
    }
  }

  lemma XorBits(a: bv8, b: bv8)
    ensures forall i :: 0 <= i < 8 ==> Bit(a ^ b, i) == (Bit(a, i) != Bit(b, i))
  {}

  lemma BldBits(b: bv8, i: nat, v: bool)
    requires i < 8
    ensures forall j :: 0 <= j < 8 ==> Bit(Bld(b, i, v), j) == if j == i then v else Bit(b, j)
  {}

  lemma RorBits(b: bv8, carry: bool)
    ensures forall i :: 0 <= i < 7 ==> Bit(Ror(b, carry), i) == Bit(b, i + 1)
    ensures Bit(Ror(b, carry), 7) == carry
  {}

  lemma RorTop(b: bv8, carry: bool)
    ensures Bit(Ror(b, carry), 7) == carry
  {}

  lemma LslBits(b: bv8)
    ensures !Bit(Lsl(b), 0)
    ensures forall i :: 0 < i < 8 ==> Bit(Lsl(b), i) == Bit(b, i - 1)
  {}

  /** `rol` with a clear carry followed by `ror`: a zero leaves, and the register is back. */
  lemma RolRor(b: bv8)
    ensures Ror(Rol(b, false), Bit(b, 7)) == b && !Bit(Rol(b, false), 0)
  {}

  lemma ZeroBits(b: bv8)
    ensures b == 0 <==> forall i :: 0 <= i < 8 ==> !Bit(b, i)
  {
    assert b != 0 ==>
      Bit(b, 0) || Bit(b, 1) || Bit(b, 2) || Bit(b, 3) || Bit(b, 4) || Bit(b, 5) || Bit(b, 6) || Bit(b, 7);
  }

  /** The compares that stand for "bits 1..7 clear", "bits 2..7 clear", "bits 2..7 set". */
  lemma CompareBits(b: bv8)
    ensures b < 0x02 <==> forall i :: 1 <= i < 8 ==> !Bit(b, i)
    ensures b < 0x04 <==> forall i :: 2 <= i < 8 ==> !Bit(b, i)
    ensures b >= 0xfc <==> forall i :: 2 <= i < 8 ==> Bit(b, i)
  {
    assert b >= 0x02 ==> Bit(b, 1) || Bit(b, 2) || Bit(b, 3) || Bit(b, 4) || Bit(b, 5) || Bit(b, 6) || Bit(b, 7);
    assert b >= 0x04 ==> Bit(b, 2) || Bit(b, 3) || Bit(b, 4) || Bit(b, 5) || Bit(b, 6) || Bit(b, 7);
    assert b < 0xfc ==> !Bit(b, 2) || !Bit(b, 3) || !Bit(b, 4) || !Bit(b, 5) || !Bit(b, 6) || !Bit(b, 7);
  }

  lemma SameBits(a: bv8, b: bv8)
    requires forall i :: 0 <= i < 8 ==> Bit(a, i) == Bit(b, i)
    ensures a == b
  {
    assert Bit(a, 0) == Bit(b, 0) && Bit(a, 1) == Bit(b, 1) && Bit(a, 2) == Bit(b, 2) && Bit(a, 3) == Bit(b, 3);
    assert Bit(a, 4) == Bit(b, 4) && Bit(a, 5) == Bit(b, 5) && Bit(a, 6) == Bit(b, 6) && Bit(a, 7) == Bit(b, 7);
  }

  /** A byte in wire order, least significant bit first. */
  function ByteBits(b: bv8): (bits: seq<bool>)
    ensures |bits| == 8 && forall i :: 0 <= i < 8 ==> bits[i] == Bit(b, i)
  {
    seq(8, i requires 0 <= i < 8 => Bit(b, i))
  }

  /** A byte string in wire order. */
  function BitsOf(s: seq<bv8>): (bits: seq<bool>)
    ensures |bits| == 8 * |s|
  {
    if s == [] then [] else BitsOf(s[..|s| - 1]) + ByteBits(s[|s| - 1])
  }

  lemma {:induction false} BitsOfAt(s: seq<bv8>, k: nat)
    requires k < 8 * |s|
    ensures BitsOf(s)[k] == Bit(s[k / 8], k % 8)
  {
    var m := |s| - 1;
    if k < 8 * m {
      BitsOfAt(s[..m], k);
    } else {
      assert k / 8 == m && k % 8 == k - 8 * m;
    }
  }

  lemma {:induction false} BitsOfConcat(s: seq<bv8>, t: seq<bv8>)
    ensures BitsOf(s + t) == BitsOf(s) + BitsOf(t)
  {
    if t == [] {
      assert s + t == s;
    } else {
      var m := |t| - 1;
      BitsOfConcat(s, t[..m]);
      assert (s + t)[..|s| + m] == s + t[..m];
    }
  }
}
