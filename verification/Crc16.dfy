/** CRC16 of section 8.3.5.2 of the USB 2.0 specification, and the two ways usbdrvasm.S
    computes it. */
module Crc16 {
  import opened Bits
  import opened Wire

  // ---- The specification: most significant bit first ----

  /** One data bit into the remainder register of the generator x^16 + x^15 + x^2 + 1. */
  function SpecStep(r: bv16, bit: bool): bv16
  {
    if (r & 0x8000 != 0) != bit then (r << 1) ^ 0x8005 else r << 1
  }

  function Remainder(bits: seq<bool>): bv16
  {
    if bits == [] then 0xffff else SpecStep(Remainder(bits[..|bits| - 1]), bits[|bits| - 1])
  }

  /** The check field: the remainder inverted, sent most significant bit first. */
  function CheckField(bits: seq<bool>): seq<bool>
  {
    seq(16, i requires 0 <= i < 16 => !Bit16(Remainder(bits), 15 - i))
  }

  function Bit16(w: bv16, i: nat): bool
    requires i < 16
  {
    match i
    case 0 => w & 0x0001 != 0 case 1 => w & 0x0002 != 0 case 2 => w & 0x0004 != 0 case 3 => w & 0x0008 != 0
    case 4 => w & 0x0010 != 0 case 5 => w & 0x0020 != 0 case 6 => w & 0x0040 != 0 case 7 => w & 0x0080 != 0
    case 8 => w & 0x0100 != 0 case 9 => w & 0x0200 != 0 case 10 => w & 0x0400 != 0 case 11 => w & 0x0800 != 0
    case 12 => w & 0x1000 != 0 case 13 => w & 0x2000 != 0 case 14 => w & 0x4000 != 0 case 15 => w & 0x8000 != 0
  }

  // ---- The same register, mirrored ----

  function Xor(a: bv16, b: bv16): bv16 { a ^ b }
  function Half(a: bv16): bv16 { a >> 1 }
  predicate Odd(a: bv16) { a & 1 != 0 }

  function Feedback(w: bv16, on: bool): bv16 { if on then Xor(w, 0xA001) else w }

  function Step(crc: bv16, bit: bool): bv16 { Feedback(Half(crc), Odd(crc) != bit) }

  function CrcBits(crc: bv16, bits: seq<bool>): bv16
  {
    if bits == [] then crc else Step(CrcBits(crc, bits[..|bits| - 1]), bits[|bits| - 1])
  }

  function Crc(crc: bv16, message: seq<bv8>): bv16 { CrcBits(crc, BitsOf(message)) }

  function Lo(w: bv16): bv8 { (w & 0xff) as bv8 }
  function Hi(w: bv16): bv8 { (w >> 8) as bv8 }
  function Word(hi: bv8, lo: bv8): bv16 { ((hi as bv16) << 8) | (lo as bv16) }

  /** The two bytes that usbCrc16Append writes behind a message. */
  function Appended(message: seq<bv8>): seq<bv8>
  {
    [Lo(!Crc(0xffff, message)), Hi(!Crc(0xffff, message))]
  }

  function Mirror(w: bv16): bv16
  {
    ((w & 0x0001) << 15) | ((w & 0x0002) << 13) | ((w & 0x0004) << 11) | ((w & 0x0008) << 9) |
    ((w & 0x0010) << 7) | ((w & 0x0020) << 5) | ((w & 0x0040) << 3) | ((w & 0x0080) << 1) |
    ((w & 0x0100) >> 1) | ((w & 0x0200) >> 3) | ((w & 0x0400) >> 5) | ((w & 0x0800) >> 7) |
    ((w & 0x1000) >> 9) | ((w & 0x2000) >> 11) | ((w & 0x4000) >> 13) | ((w & 0x8000) >> 15)
  }

  lemma MirrorShift(w: bv16)
    ensures Mirror(w << 1) == Half(Mirror(w))
    ensures w & 0x8000 != 0 <==> Odd(Mirror(w))
  {}

  lemma MirrorXor(w: bv16)
    ensures Mirror(w ^ 0x8005) == Xor(Mirror(w), 0xA001)
  {}

  lemma MirrorBit(w: bv16, i: nat)
    requires i < 16
    ensures Bit16(!Mirror(w), i) == !Bit16(w, 15 - i)
  {
    match i {
      case 0 => case 1 => case 2 => case 3 => case 4 => case 5 => case 6 => case 7 =>
      case 8 => case 9 => case 10 => case 11 => case 12 => case 13 => case 14 => case 15 =>
    }
  }

  lemma HalfBits(w: bv16, i: nat)
    requires i < 8
    ensures Bit(Lo(w), i) == Bit16(w, i) && Bit(Hi(w), i) == Bit16(w, i + 8)
  {
    match i { case 0 => case 1 => case 2 => case 3 => case 4 => case 5 => case 6 => case 7 => }
  }

  lemma MirrorStep(r: bv16, bit: bool)
    ensures Mirror(SpecStep(r, bit)) == Step(Mirror(r), bit)
  {
    hide Mirror, Xor, Half, Odd;
    MirrorShift(r);
    MirrorXor(r << 1);
  }

  lemma {:induction false} MirrorsTheSpecification(bits: seq<bool>)
    ensures CrcBits(0xffff, bits) == Mirror(Remainder(bits))
  {
    hide Mirror, SpecStep, Step;
    if bits == [] {
      MirrorOnes();
    } else {
      MirrorsTheSpecification(bits[..|bits| - 1]);
      MirrorStep(Remainder(bits[..|bits| - 1]), bits[|bits| - 1]);
    }
  }

  lemma MirrorOnes()
    ensures Mirror(0xffff) == 0xffff
  {}

  lemma AppendedBit(message: seq<bv8>, i: nat)
    requires i < 16
    ensures BitsOf(Appended(message))[i] == Bit16(!Crc(0xffff, message), i)
  {
    hide Bit, Bit16, Crc, BitsOf, Lo, Hi;
    BitsOfAt(Appended(message), i);
    if i < 8 {
      assert i / 8 == 0 && i % 8 == i;
      HalfBits(!Crc(0xffff, message), i);
    } else {
      assert i / 8 == 1 && i % 8 == i - 8;
      HalfBits(!Crc(0xffff, message), i - 8);
    }
  }

  lemma FieldBit(message: seq<bv8>, i: nat)
    requires i < 16
    ensures CheckField(BitsOf(message))[i] == Bit16(!Crc(0xffff, message), i)
  {
    hide Mirror, Bit16, CrcBits, Remainder, BitsOf;
    MirrorsTheSpecification(BitsOf(message));
    MirrorBit(Remainder(BitsOf(message)), i);
  }

  /** On the wire, what the driver appends is the check field of the specification. */
  lemma AppendedIsTheCheckField(message: seq<bv8>)
    ensures BitsOf(Appended(message)) == CheckField(BitsOf(message))
  {
    hide *;
    HasSixteenBits(message);
    var field, appended := CheckField(BitsOf(message)), BitsOf(Appended(message));
    forall i | 0 <= i < 16 ensures appended[i] == field[i] {
      AppendedBit(message, i);
      FieldBit(message, i);
    }
  }

  lemma HasSixteenBits(message: seq<bv8>)
    ensures |BitsOf(Appended(message))| == 16 && |CheckField(BitsOf(message))| == 16
  {
    hide BitsOf, Lo, Hi, Crc, Remainder;
  }

  // ---- usbCrc16, small version ----

  /** The complemented register, with the message bits still to come mixed into it. */
  predicate Mixed(reg: bv16, crc: bv16, rest: bv8) { reg == Xor(!crc, rest as bv16) }

  /** `ror` and `ror` with the carry set. */
  function HalfSet(reg: bv16): bv16 { (reg >> 1) | 0x8000 }

  /** The same, and the exclusive-or when a zero drops out. */
  function BitLoopStep(reg: bv16): bv16 { Feedback(HalfSet(reg), !Odd(reg)) }

  lemma MixedStep(reg: bv16, crc: bv16, rest: bv8)
    requires Mixed(reg, crc, rest)
    ensures Mixed(BitLoopStep(reg), Step(crc, Bit(rest, 0)), Lsr(rest))
  {
    hide Mixed, Xor, Half, HalfSet, Odd, Bit, Ror;
    MixedShift(reg, crc, rest);
    MixedFlip(HalfSet(reg), Half(crc), Lsr(rest));
  }

  lemma MixedShift(reg: bv16, crc: bv16, rest: bv8)
    requires Mixed(reg, crc, rest)
    ensures Mixed(HalfSet(reg), Half(crc), Lsr(rest))
    ensures Odd(reg) <==> Odd(crc) == Bit(rest, 0)
  {
    hide Xor, Half, HalfSet, Odd, Bit, Ror;
    RestHalf(rest);
    HalfSetXor(crc, rest as bv16);
  }

  lemma HalfSetXor(crc: bv16, rest: bv16)
    requires rest < 0x100
    ensures HalfSet(Xor(!crc, rest)) == Xor(!Half(crc), Half(rest))
    ensures Odd(Xor(!crc, rest)) == (Odd(crc) == Odd(rest))
  {}

  lemma RestHalf(rest: bv8)
    ensures (rest as bv16) < 0x100
    ensures Half(rest as bv16) == Lsr(rest) as bv16 && Odd(rest as bv16) == Bit(rest, 0)
  {}

  lemma MixedFlip(reg: bv16, crc: bv16, rest: bv8)
    requires Mixed(reg, crc, rest)
    ensures Mixed(Xor(reg, 0xA001), Xor(crc, 0xA001), rest)
  {
    hide Xor;
    FlipBoth(crc, rest as bv16);
  }

  lemma FlipBoth(crc: bv16, rest: bv16)
    ensures Xor(Xor(!crc, rest), 0xA001) == Xor(!Xor(crc, 0xA001), rest)
  {}

  lemma WordRor(hi: bv8, lo: bv8)
    ensures Word(Ror(hi, true), Ror(lo, Bit(hi, 0))) == HalfSet(Word(hi, lo))
    ensures Bit(lo, 0) == Odd(Word(hi, lo))
  {}

  lemma WordPoly(hi: bv8, lo: bv8)
    ensures Word(hi ^ 0xa0, lo ^ 0x01) == Xor(Word(hi, lo), 0xA001)
  {}

  /** The registers hold the CRC of a message, complemented as it is sent. */
  predicate Complemented(hi: bv8, lo: bv8, crc: bv16) { Word(hi, lo) == !crc }

  lemma MixIn(hi: bv8, lo: bv8, crc: bv16, byte: bv8)
    requires Complemented(hi, lo, crc)
    ensures Mixed(Word(hi, lo ^ byte), crc, byte)
  {}

  lemma Unmixed(hi: bv8, lo: bv8, crc: bv16)
    requires Mixed(Word(hi, lo), crc, 0)
    ensures Complemented(hi, lo, crc)
  {}

  /** What is left of a byte after j of its bits were shifted out and zeros shifted in. */
  predicate Rest(rest: bv8, byte: bv8, j: nat)
    requires j <= 8
  {
    Left(rest, byte, j) && forall i :: 8 - j <= i < 8 ==> !Bit(rest, i)
  }

  lemma RestStep(rest: bv8, byte: bv8, j: nat)
    requires j < 8 && Rest(rest, byte, j)
    ensures Rest(Lsr(rest), byte, j + 1) && Bit(rest, 0) == Bit(byte, j)
  {
    hide Bit, Ror;
    RorLeft(rest, byte, j, false);
    RorBits(rest, false);
    var shifted := Lsr(rest);
    forall i | 8 - (j + 1) <= i < 8 ensures !Bit(shifted, i) {
      assert i < 7 ==> Bit(shifted, i) == Bit(rest, i + 1);
    }
  }

  lemma RestGone(rest: bv8, byte: bv8)
    requires Rest(rest, byte, 8)
    ensures rest == 0
  {
    hide Bit;
    ZeroBits(rest);
  }

  lemma NextCrcBit(crc: bv16, byte: bv8, j: nat)
    requires j < 8
    ensures CrcBits(crc, ByteBits(byte)[..j + 1]) == Step(CrcBits(crc, ByteBits(byte)[..j]), Bit(byte, j))
  {
    hide Bit, Step;
    assert ByteBits(byte)[..j + 1][..j] == ByteBits(byte)[..j];
  }

  /** usbCrcBitLoop: `subi bitCnt, 224` borrows seven times out of eight, and the borrow is
      the carry that the next `ror` needs. */
  method BitLoop(lo0: bv8, hi0: bv8, byte: bv8, ghost crc: bv16) returns (lo: bv8, hi: bv8)
    requires Complemented(hi0, lo0, crc)
    ensures Complemented(hi, lo, CrcBits(crc, ByteBits(byte)))
  {
    hide Bit, Ror, Word, Mixed, Step, CrcBits, Rest, BitLoopStep, Complemented;
    MixIn(hi0, lo0, crc, byte);
    lo, hi := lo0 ^ byte, hi0;
    var bitCnt, carry := 0, true;
    ghost var j, rest := 0, byte;
    Whole(crc, byte);
    while true
      invariant 0 <= j <= 7 && bitCnt == 32 * j && carry
      invariant Rest(rest, byte, j)
      invariant Mixed(Word(hi, lo), CrcBits(crc, ByteBits(byte)[..j]), rest)
      decreases 7 - j
    {
      RestStep(rest, byte, j);
      MixedStep(Word(hi, lo), CrcBits(crc, ByteBits(byte)[..j]), rest);
      NextCrcBit(crc, byte, j);
      hi, lo := RorAndPoly(hi, lo, carry);
      rest := Lsr(rest);
      j := j + 1;
      carry := bitCnt < 224;
      bitCnt := (bitCnt - 224) % 256;
      if !carry { break; }
    }
    RestGone(rest, byte);
    assert ByteBits(byte)[..8] == ByteBits(byte);
    Unmixed(hi, lo, CrcBits(crc, ByteBits(byte)));
  }

  lemma Whole(crc: bv16, byte: bv8)
    ensures CrcBits(crc, ByteBits(byte)[..0]) == crc && Rest(byte, byte, 0)
  {
    LeftAll(byte);
  }

  method RorAndPoly(hi0: bv8, lo0: bv8, carry0: bool) returns (hi: bv8, lo: bv8)
    requires carry0
    ensures Word(hi, lo) == BitLoopStep(Word(hi0, lo0))
  {
    hide Bit, Ror, Word;
    WordRor(hi0, lo0);
    var carry := Bit(hi0, 0);
    hi := Ror(hi0, carry0);
    lo := Ror(lo0, carry);
    carry := Bit(lo0, 0);
    if !carry {
      WordPoly(hi, lo);
      lo := lo ^ 0x01;
      hi := hi ^ 0xa0;
    }
  }

  lemma NextCrcByte(crc: bv16, message: seq<bv8>, n: nat)
    requires n < |message|
    ensures Crc(crc, message[..n + 1]) == CrcBits(Crc(crc, message[..n]), ByteBits(message[n]))
  {
    hide Step;
    assert message[..n + 1][..n] == message[..n];
    CrcConcat(crc, BitsOf(message[..n]), ByteBits(message[n]));
  }

  lemma {:induction false} CrcConcat(crc: bv16, a: seq<bool>, b: seq<bool>)
    ensures CrcBits(crc, a + b) == CrcBits(CrcBits(crc, a), b)
  {
    hide Step;
    if b == [] {
      assert a + b == a;
    } else {
      assert (a + b)[..|a + b| - 1] == a + b[..|b| - 1];
      CrcConcat(crc, a, b[..|b| - 1]);
    }
  }

  /** usbCrc16: `com argLen` and `subi argLen, -1` make a loop that runs len times and always
      enters the bit loop with the carry set. */
  method UsbCrc16(data: array<bv8>, at: nat, len: nat) returns (resCrcL: bv8, resCrcH: bv8, ptr: nat)
    requires at + len <= data.Length && len < 256
    ensures Complemented(resCrcH, resCrcL, Crc(0xffff, data[at..at + len])) && ptr == at + len
  {
    hide Word, Crc, CrcBits, BitsOf, Complemented;
    ghost var message := data[at..at + len];
    ptr := at;
    resCrcL, resCrcH := 0, 0;
    var argLen := 255 - len;
    ghost var n := 0;
    EmptyCrc();
    assert message[..0] == [];
    while true
      invariant 0 <= n <= len && argLen == 255 - len + n && ptr == at + n
      invariant Complemented(resCrcH, resCrcL, Crc(0xffff, message[..n]))
      decreases len - n
    {
      var carry := argLen < 255;
      argLen := (argLen - 255) % 256;
      if !carry { break; }
      NextCrcByte(0xffff, message, n);
      var byte := data[ptr];
      resCrcL, resCrcH := BitLoop(resCrcL, resCrcH, byte, Crc(0xffff, message[..n]));
      ptr := ptr + 1;
      n := n + 1;
    }
    assert message[..len] == message;
  }

  lemma EmptyCrc()
    ensures Complemented(0, 0, Crc(0xffff, []))
  {}

  /** usbCrc16Append: the check bytes go behind the message, low byte first. */
  method UsbCrc16Append(data: array<bv8>, at: nat, len: nat)
    requires at + len + 2 <= data.Length && len < 256
    modifies data
    ensures data[at + len..at + len + 2] == Appended(old(data[at..at + len]))
    ensures forall i :: 0 <= i < data.Length && !(at + len <= i < at + len + 2) ==> data[i] == old(data[i])
  {
    hide Crc;
    var resCrcL, resCrcH, ptr := UsbCrc16(data, at, len);
    Halves(resCrcH, resCrcL);
    data[ptr] := resCrcL;
    data[ptr + 1] := resCrcH;
  }

  lemma Halves(hi: bv8, lo: bv8)
    ensures Lo(Word(hi, lo)) == lo && Hi(Word(hi, lo)) == hi
  {}
}
