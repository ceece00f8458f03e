/** The fast version of usbCrc16: one table step per byte, the table itself a formula in the
    parity of its index. */
module CrcFast {
  import opened Bits
  import opened Wire
  import opened Crc16

  function High(hi: bv8): bv16 { (hi as bv16) << 8 }

  /** A zero bit into the register. */
  function Shift(w: bv16): bv16 { Feedback(Half(w), Odd(w)) }

  function Shift8(w: bv16): bv16 { Shift(Shift(Shift(Shift(Shift(Shift(Shift(Shift(w)))))))) }

  /** Entry x of the table that a CRC program would tabulate. */
  function Table(x: bv8): bv16 { Shift8(x as bv16) }

  /** Bits that are not at the bottom only move; they meet no feedback. */
  lemma ShiftXor(w: bv16, high: bv16)
    requires !Odd(high)
    ensures Shift(Xor(w, high)) == Xor(Shift(w), Half(high))
  {
    hide Xor, Half, Odd, Feedback;
    HalfXor(w, high);
    FeedbackXor(Half(w), Half(high), Odd(w));
  }

  lemma HalfXor(a: bv16, b: bv16)
    ensures Half(Xor(a, b)) == Xor(Half(a), Half(b))
    ensures Odd(Xor(a, b)) == (Odd(a) != Odd(b))
  {}

  lemma FeedbackXor(a: bv16, b: bv16, on: bool)
    ensures Feedback(Xor(a, b), on) == Xor(Feedback(a, on), b)
  {
    hide Xor;
    PolyXor(a, b);
  }

  lemma PolyXor(a: bv16, b: bv16)
    ensures Xor(Xor(a, b), 0xA001) == Xor(Xor(a, 0xA001), b)
  {
    assert (a ^ b) ^ 0xA001 == (a ^ 0xA001) ^ b;
  }

  lemma HighBits(hi: bv8)
    ensures var h := High(hi);
      && !Odd(h) && !Odd(Half(h)) && !Odd(Half(Half(h))) && !Odd(Half(Half(Half(h))))
      && !Odd(Half(Half(Half(Half(h))))) && !Odd(Half(Half(Half(Half(Half(h))))))
      && !Odd(Half(Half(Half(Half(Half(Half(h))))))) && !Odd(Half(Half(Half(Half(Half(Half(Half(h))))))))
      && Half(Half(Half(Half(Half(Half(Half(Half(h)))))))) == hi as bv16
  {}

  lemma Shift8Xor(w: bv16, hi: bv8)
    ensures Shift8(Xor(w, High(hi))) == Xor(Shift8(w), hi as bv16)
  {
    hide Shift, Xor, Half, Odd, High;
    HighBits(hi);
    var h := High(hi);
    var h1 := Half(h);
    var h2 := Half(h1);
    var h3 := Half(h2);
    var h4 := Half(h3);
    var h5 := Half(h4);
    var h6 := Half(h5);
    var w1 := Shift(w);
    var w2 := Shift(w1);
    var w3 := Shift(w2);
    var w4 := Shift(w3);
    var w5 := Shift(w4);
    var w6 := Shift(w5);
    ShiftXor(w, h);
    ShiftXor(w1, h1);
    ShiftXor(w2, h2);
    ShiftXor(w3, h3);
    ShiftXor(w4, h4);
    ShiftXor(w5, h5);
    ShiftXor(w6, h6);
    ShiftXor(Shift(w6), Half(h6));
  }

  /** Mixing in a whole byte first and shifting in zeros is the same as taking it bit by bit:
      what is left of the byte travels along with the register. */
  lemma ShiftMixed(crc: bv16, rest: bv8)
    ensures Shift(Xor(crc, rest as bv16)) == Xor(Step(crc, Bit(rest, 0)), Lsr(rest) as bv16)
  {
    hide Xor, Half, Odd, Feedback, Bit, Ror;
    HalfXor(crc, rest as bv16);
    RestHalf(rest);
    StepIs(crc, Bit(rest, 0));
    FeedbackXor(Half(crc), Half(rest as bv16), Odd(crc) != Bit(rest, 0));
  }

  lemma StepIs(crc: bv16, bit: bool)
    ensures Step(crc, bit) == Feedback(Half(crc), Odd(crc) != bit)
  {}

  function Shifts(w: bv16, n: nat): bv16
  {
    if n == 0 then w else Shift(Shifts(w, n - 1))
  }

  function Lsrs(b: bv8, n: nat): bv8
  {
    if n == 0 then b else Lsr(Lsrs(b, n - 1))
  }

  lemma {:induction false} LsrsRest(b: bv8, n: nat)
    requires n <= 8
    ensures Rest(Lsrs(b, n), b, n)
  {
    hide Bit, Rest, Ror;
    if n == 0 {
      Whole(0, b);
    } else {
      LsrsRest(b, n - 1);
      RestStep(Lsrs(b, n - 1), b, n - 1);
    }
  }

  lemma {:induction false} ByteMixed(crc: bv16, byte: bv8, j: nat)
    requires j <= 8
    ensures Shifts(Xor(crc, byte as bv16), j) == Xor(CrcBits(crc, ByteBits(byte)[..j]), Lsrs(byte, j) as bv16)
  {
    hide Shift, Xor, Bit, Step, Rest, Ror;
    if j == 0 {
      assert ByteBits(byte)[..0] == [];
    } else {
      ByteMixed(crc, byte, j - 1);
      ShiftMixed(CrcBits(crc, ByteBits(byte)[..j - 1]), Lsrs(byte, j - 1));
      LsrsRest(byte, j - 1);
      RestStep(Lsrs(byte, j - 1), byte, j - 1);
      NextCrcBit(crc, byte, j - 1);
    }
  }

  /** One table step consumes one byte: the loop body of the pseudo-code in the source. */
  lemma ByteStep(hi: bv8, lo: bv8, byte: bv8)
    ensures CrcBits(Word(hi, lo), ByteBits(byte)) == Xor(Table(lo ^ byte), hi as bv16)
  {
    hide Shift, Xor, Bit, Word, CrcBits, Rest, Ror, High;
    ByteMixed(Word(hi, lo), byte, 8);
    LsrsRest(byte, 8);
    RestGone(Lsrs(byte, 8), byte);
    assert ByteBits(byte)[..8] == ByteBits(byte);
    XorZero(CrcBits(Word(hi, lo), ByteBits(byte)));
    SplitWord(hi, lo, byte);
    Shift8Xor((lo ^ byte) as bv16, hi);
    EightShifts(Xor(Word(hi, lo), byte as bv16));
  }

  lemma EightShifts(w: bv16)
    ensures Shifts(w, 8) == Shift8(w)
  {
    hide Shift;
    assert Shifts(w, 1) == Shift(Shifts(w, 0));
    assert Shifts(w, 2) == Shift(Shifts(w, 1));
    assert Shifts(w, 4) == Shift(Shift(Shifts(w, 2)));
    assert Shifts(w, 6) == Shift(Shift(Shifts(w, 4)));
  }

  lemma XorZero(a: bv16)
    ensures Xor(a, 0) == a
  {}

  lemma SplitWord(hi: bv8, lo: bv8, byte: bv8)
    ensures Xor(Word(hi, lo), byte as bv16) == Xor((lo ^ byte) as bv16, High(hi))
  {}

  // ---- The register code ----

  predicate Parity(x: bv8)
  {
    (((Bit(x, 0) != Bit(x, 1)) != (Bit(x, 2) != Bit(x, 3)))
    != ((Bit(x, 4) != Bit(x, 5)) != (Bit(x, 6) != Bit(x, 7))))
  }

  /** table(x) of the pseudo-code in the source. */
  function ParityTable(x: bv8): bv16
  {
    ((x as bv16) << 6) ^ ((x as bv16) << 7) ^ (if Parity(x) then 0xC001 else 0)
  }

  lemma TableIsParity(x: bv8)
    ensures Table(x) == ParityTable(x)
  {}

  function Swap(b: bv8): bv8 { (b << 4) | (b >> 4) }

  /** swap, eor, lsr, lsr, eor, inc, lsr, andi: the parity of x in bit 0. */
  method ParityOf(x: bv8) returns (byte: bv8)
    ensures byte == if Parity(x) then 1 else 0
  {
    byte := Swap(x);
    byte := byte ^ x;
    var scratch := byte;
    byte := byte >> 2;
    byte := byte ^ scratch;
    byte := byte + 1;
    byte := byte >> 1;
    byte := byte & 1;
  }

  /** usbCrcByteLoop: the register pair after one byte. */
  method ByteLoop(lo0: bv8, hi0: bv8, data: bv8) returns (lo: bv8, hi: bv8)
    ensures Word(hi, lo) == CrcBits(Word(hi0, lo0), ByteBits(data))
  {
    hide Parity, CrcBits, Bit, Word, Xor, Table, ParityTable;
    ByteStep(hi0, lo0, data);
    TableIsParity(lo0 ^ data);
    lo := lo0 ^ data;
    var byte := ParityOf(lo);
    hi, lo := Assemble(lo, hi0, byte);
  }

  /** The rest of the loop: the index shifted by six and by seven, and the old high byte. */
  method Assemble(x: bv8, hi0: bv8, parity: bv8) returns (hi: bv8, lo: bv8)
    requires parity == if Parity(x) then 1 else 0
    ensures Word(hi, lo) == Xor(ParityTable(x), hi0 as bv16)
  {
    hide Parity;
    assert ParityTable(x) == (if Parity(x) then 0xC001 else 0) ^ (((x as bv16) << 6) ^ ((x as bv16) << 7));
    var scratch := x;
    lo := hi0;
    lo := lo ^ parity;
    var byte := 0 - parity;
    byte := byte & 0xc0;
    hi := byte;
    byte := 0;
    var carry := Bit(scratch, 0);
    scratch := Lsr(scratch);
    byte := Ror(byte, carry);
    hi := hi ^ scratch;
    lo := lo ^ byte;
    carry := Bit(scratch, 0);
    scratch := Lsr(scratch);
    byte := Ror(byte, carry);
    hi := hi ^ scratch;
    lo := lo ^ byte;
  }

  /** usbCrc16, fast version: the same result as the small one, for every message. */
  method UsbCrc16(data: array<bv8>, at: nat, len: nat) returns (resCrcL: bv8, resCrcH: bv8, ptr: nat)
    requires at + len <= data.Length && len < 256
    ensures Complemented(resCrcH, resCrcL, Crc(0xffff, data[at..at + len])) && ptr == at + len
  {
    hide Word, Crc, CrcBits, BitsOf, Complemented, Bit;
    ghost var message := data[at..at + len];
    ptr := at;
    resCrcL, resCrcH := 0xff, 0xff;
    var argLen := len;
    ghost var n := 0;
    Start(message);
    while true
      invariant 0 <= n <= len && argLen == len - n && ptr == at + n
      invariant Word(resCrcH, resCrcL) == Crc(0xffff, message[..n])
      decreases len - n
    {
      var borrow := argLen < 1;
      argLen := (argLen + 255) % 256;
      if borrow { break; }
      NextCrcByte(0xffff, message, n);
      var byte := data[ptr];
      ptr := ptr + 1;
      resCrcL, resCrcH := ByteLoop(resCrcL, resCrcH, byte);
      n := n + 1;
    }
    assert message[..len] == message;
    Complement(resCrcH, resCrcL);
    resCrcL := !resCrcL;
    resCrcH := !resCrcH;
  }

  lemma Start(message: seq<bv8>)
    ensures Word(0xff, 0xff) == Crc(0xffff, message[..0])
  {
    assert message[..0] == [];
  }

  lemma Complement(hi: bv8, lo: bv8)
    ensures Complemented(!hi, !lo, Word(hi, lo))
  {}
}
