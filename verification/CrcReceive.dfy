/** CRC checking in the 18 MHz receiver: a table in program memory, applied one byte late. */
module CrcReceive {
  import opened Bits
  import opened Wire
  import opened Crc16
  import opened CrcFast

  // ---- usbCrcTableLow and usbCrcTableHigh, eight entries per row as in the source ----

  function Column(row: bv64, column: bv8): bv8
  {
    if column == 0 then ((row >> 56) & 0xff) as bv8
    else if column == 1 then ((row >> 48) & 0xff) as bv8
    else if column == 2 then ((row >> 40) & 0xff) as bv8
    else if column == 3 then ((row >> 32) & 0xff) as bv8
    else if column == 4 then ((row >> 24) & 0xff) as bv8
    else if column == 5 then ((row >> 16) & 0xff) as bv8
    else if column == 6 then ((row >> 8) & 0xff) as bv8
    else (row & 0xff) as bv8
  }

  function TableLow(x: bv8): bv8 { Column(LowRow(x >> 3), x & 7) }
  function TableHigh(x: bv8): bv8 { Column(HighRow(x >> 3), x & 7) }

  function LowRow(row: bv8): bv64
  {
    if row == 0 then 0x00C1814001C08041
    else if row == 1 then 0x01C0804100C18140
    else if row == 2 then 0x01C0804100C18140
    else if row == 3 then 0x00C1814001C08041
    else if row == 4 then 0x01C0804100C18140
    else if row == 5 then 0x00C1814001C08041
    else if row == 6 then 0x00C1814001C08041
    else if row == 7 then 0x01C0804100C18140
    else if row == 8 then 0x01C0804100C18140
    else if row == 9 then 0x00C1814001C08041
    else if row == 10 then 0x00C1814001C08041
    else if row == 11 then 0x01C0804100C18140
    else if row == 12 then 0x00C1814001C08041
    else if row == 13 then 0x01C0804100C18140
    else if row == 14 then 0x01C0804100C18140
    else if row == 15 then 0x00C1814001C08041
    else if row == 16 then 0x01C0804100C18140
    else if row == 17 then 0x00C1814001C08041
    else if row == 18 then 0x00C1814001C08041
    else if row == 19 then 0x01C0804100C18140
    else if row == 20 then 0x00C1814001C08041
    else if row == 21 then 0x01C0804100C18140
    else if row == 22 then 0x01C0804100C18140
    else if row == 23 then 0x00C1814001C08041
    else if row == 24 then 0x00C1814001C08041
    else if row == 25 then 0x01C0804100C18140
    else if row == 26 then 0x01C0804100C18140
    else if row == 27 then 0x00C1814001C08041
    else if row == 28 then 0x01C0804100C18140
    else if row == 29 then 0x00C1814001C08041
    else if row == 30 then 0x00C1814001C08041
    else 0x01C0804100C18140
  }

  function HighRow(row: bv8): bv64
  {
    if row == 0 then 0x00C0C101C30302C2
    else if row == 1 then 0xC60607C705C5C404
    else if row == 2 then 0xCC0C0DCD0FCFCE0E
    else if row == 3 then 0x0ACACB0BC90908C8
    else if row == 4 then 0xD81819D91BDBDA1A
    else if row == 5 then 0x1EDEDF1FDD1D1CDC
    else if row == 6 then 0x14D4D515D71716D6
    else if row == 7 then 0xD21213D311D1D010
    else if row == 8 then 0xF03031F133F3F232
    else if row == 9 then 0x36F6F737F53534F4
    else if row == 10 then 0x3CFCFD3DFF3F3EFE
    else if row == 11 then 0xFA3A3BFB39F9F838
    else if row == 12 then 0x28E8E929EB2B2AEA
    else if row == 13 then 0xEE2E2FEF2DEDEC2C
    else if row == 14 then 0xE42425E527E7E626
    else if row == 15 then 0x22E2E323E12120E0
    else if row == 16 then 0xA06061A163A3A262
    else if row == 17 then 0x66A6A767A56564A4
    else if row == 18 then 0x6CACAD6DAF6F6EAE
    else if row == 19 then 0xAA6A6BAB69A9A868
    else if row == 20 then 0x78B8B979BB7B7ABA
    else if row == 21 then 0xBE7E7FBF7DBDBC7C
    else if row == 22 then 0xB47475B577B7B676
    else if row == 23 then 0x72B2B373B17170B0
    else if row == 24 then 0x5090915193535292
    else if row == 25 then 0x9656579755959454
    else if row == 26 then 0x9C5C5D9D5F9F9E5E
    else if row == 27 then 0x5A9A9B5B99595898
    else if row == 28 then 0x884849894B8B8A4A
    else if row == 29 then 0x4E8E8F4F8D4D4C8C
    else if row == 30 then 0x4484854587474686
    else 0x8242438341818040
  }

  lemma LowIsRight(x: bv8)
    ensures TableLow(x) == Lo(ParityTable(x))
  {}

  lemma HighIsRight(x: bv8)
    ensures TableHigh(x) == Hi(ParityTable(x))
  {
    hide TableHigh, Hi;
    if x < 0x40 {
      HighIsRightFrom0(x);
    } else if x < 0x80 {
      HighIsRightFrom40(x);
    } else if x < 0xc0 {
      HighIsRightFrom80(x);
    } else {
      HighIsRightFromC0(x);
    }
  }

  lemma HighIsRightFrom0(x: bv8)
    requires x < 0x40
    ensures TableHigh(x) == Hi(ParityTable(x))
  {}

  lemma HighIsRightFrom40(x: bv8)
    requires 0x40 <= x < 0x80
    ensures TableHigh(x) == Hi(ParityTable(x))
  {}

  lemma HighIsRightFrom80(x: bv8)
    requires 0x80 <= x < 0xc0
    ensures TableHigh(x) == Hi(ParityTable(x))
  {}

  lemma HighIsRightFromC0(x: bv8)
    requires 0xc0 <= x
    ensures TableHigh(x) == Hi(ParityTable(x))
  {}

  /** Every entry is the register after eight zero bits. */
  lemma TablesAreRight(x: bv8)
    ensures TableLow(x) == Lo(Table(x)) && TableHigh(x) == Hi(Table(x))
  {
    hide Table, TableLow, TableHigh, ParityTable;
    TableIsParity(x);
    LowIsRight(x);
    HighIsRight(x);
  }

  // ---- The receive loop ----

  /** The register pair one table step behind: looking ZL up yields the CRC so far. */
  predicate Behind(x3: bv8, zl: bv8, crc: bv16) { Xor(Table(zl), x3 as bv16) == crc }

  lemma LookUp(x3: bv8, zl: bv8, crc: bv16)
    requires Behind(x3, zl, crc)
    ensures Word(TableHigh(zl), TableLow(zl) ^ x3) == crc
  {
    hide Table, TableLow, TableHigh;
    TablesAreRight(zl);
    WordXor(Table(zl), x3);
  }

  lemma WordXor(w: bv16, x: bv8)
    ensures Word(Hi(w), Lo(w) ^ x) == Xor(w, x as bv16)
  {}

  lemma FeedByte(hi: bv8, lo: bv8, byte: bv8)
    ensures Behind(hi, lo ^ byte, CrcBits(Word(hi, lo), ByteBits(byte)))
  {
    hide Table, Xor, CrcBits, Word;
    ByteStep(hi, lo, byte);
  }

  /** Look-up and next byte. */
  lemma OneByte(x3: bv8, zl: bv8, crc: bv16, byte: bv8)
    requires Behind(x3, zl, crc)
    ensures Behind(TableHigh(zl), (TableLow(zl) ^ x3) ^ byte, CrcBits(crc, ByteBits(byte)))
  {
    hide TableLow, TableHigh, Behind, Word, CrcBits;
    LookUp(x3, zl, crc);
    FeedByte(TableHigh(zl), TableLow(zl) ^ x3, byte);
  }

  /** The seed 0xFE54 is one table step behind 0xFFFF. */
  lemma Seed()
    ensures Behind(0xfe, 0x54, 0xffff)
  {
    hide Table;
    TableIsParity(0x54);
  }

  /** rxDataStart to didunstuff7 for each byte behind the PID, as far as the CRC registers go,
      and CRC_CLEANUP_AND_CHECK: a packet passes exactly if it ends in the two bytes that
      usbCrc16Append would have written. */
  method ReceiveAndCheck(payload: seq<bv8>) returns (accepted: bool)
    ensures accepted <==> Intact(payload)
  {
    hide Table, TableLow, TableHigh, Behind, Word, Crc, CrcBits, Intact;
    var x3: bv8, zl: bv8 := 0xfe, 0x54;
    Seed();
    EmptyIsSeed(payload);
    for i := 0 to |payload|
      invariant Behind(x3, zl, Crc(0xffff, payload[..i]))
    {
      OneByte(x3, zl, Crc(0xffff, payload[..i]), payload[i]);
      NextCrcByte(0xffff, payload, i);
      var x4 := TableHigh(zl);
      zl := TableLow(zl);
      zl := zl ^ x3;
      x3 := x4;
      zl := zl ^ payload[i];
    }
    assert payload[..|payload|] == payload;
    FinalLookUp(x3, zl, Crc(0xffff, payload));
    ResidueMeansIntact(payload);
    var x2 := TableHigh(zl);
    zl := TableLow(zl);
    zl := zl ^ x3;
    accepted := zl == 0x01 && x2 == 0xb0;
  }

  lemma FinalLookUp(x3: bv8, zl: bv8, crc: bv16)
    requires Behind(x3, zl, crc)
    ensures TableLow(zl) ^ x3 == 0x01 && TableHigh(zl) == 0xb0 <==> crc == 0xB001
  {
    hide TableLow, TableHigh, Behind, Word;
    LookUp(x3, zl, crc);
    WordIs(TableHigh(zl), TableLow(zl) ^ x3);
  }

  lemma EmptyIsSeed(payload: seq<bv8>)
    ensures Crc(0xffff, payload[..0]) == 0xffff
  {
    assert payload[..0] == [];
  }

  lemma WordIs(hi: bv8, lo: bv8)
    ensures Word(hi, lo) == 0xB001 <==> lo == 0x01 && hi == 0xb0
  {}

  // ---- The residue ----

  predicate Intact(payload: seq<bv8>)
  {
    |payload| >= 2 && payload[|payload| - 2..] == Appended(payload[..|payload| - 2])
  }

  lemma HighUnique(x: bv8, y: bv8)
    requires Hi(ParityTable(x)) == Hi(ParityTable(y))
    ensures x == y
  {}

  /** Two bytes a and b after the CRC c: the first look-up is at z, the second at y. */
  lemma TwoBytes(c: bv16, a: bv8, b: bv8)
    ensures var z := Lo(c) ^ a;
      var y := (Lo(Table(z)) ^ Hi(c)) ^ b;
      CrcBits(CrcBits(c, ByteBits(a)), ByteBits(b)) == Xor(Table(y), Hi(Table(z)) as bv16)
  {
    hide Table, Xor, CrcBits, Word;
    var z := Lo(c) ^ a;
    WordOf(c);
    ByteStep(Hi(c), Lo(c), a);
    var c1 := Xor(Table(z), Hi(c) as bv16);
    WordOf(c1);
    XorHalves(Table(z), Hi(c));
    ByteStep(Hi(c1), Lo(c1), b);
  }

  lemma WordOf(c: bv16)
    ensures Word(Hi(c), Lo(c)) == c
  {}

  lemma XorHalves(w: bv16, x: bv8)
    ensures Lo(Xor(w, x as bv16)) == Lo(w) ^ x && Hi(Xor(w, x as bv16)) == Hi(w)
  {}

  /** Section 8.3.5 of USB 2.0: an intact packet leaves the residual 1000000000001101, here
      mirrored to 0xB001; and no other two bytes do. */
  lemma Residue(c: bv16, a: bv8, b: bv8)
    ensures CrcBits(CrcBits(c, ByteBits(a)), ByteBits(b)) == 0xB001 <==> a == Lo(!c) && b == Hi(!c)
  {
    hide CrcBits, Table, ParityTable, Lo, Hi, Xor;
    TwoBytes(c, a, b);
    var z := Lo(c) ^ a;
    var y := (Lo(Table(z)) ^ Hi(c)) ^ b;
    TableIsParity(z);
    TableIsParity(y);
    LookUps(z, y);
    Inverse(c, a, b, y);
  }

  /** The only two look-ups that leave the residual. */
  lemma LookUps(z: bv8, y: bv8)
    ensures Lo(ParityTable(0xff)) == 0x40
    ensures Xor(ParityTable(y), Hi(ParityTable(z)) as bv16) == 0xB001 <==> z == 0xff && y == 0xbf
  {
    XorHalves(ParityTable(y), Hi(ParityTable(z)));
    if Hi(ParityTable(y)) == 0xb0 { HighUnique(y, 0xbf); }
    if Hi(ParityTable(z)) == Hi(ParityTable(0xff)) { HighUnique(z, 0xff); }
  }

  lemma Inverse(c: bv16, a: bv8, b: bv8, y: bv8)
    ensures Lo(c) ^ a == 0xff <==> a == Lo(!c)
    ensures y == (0x40 ^ Hi(c)) ^ b ==> (y == 0xbf <==> b == Hi(!c))
  {}

  lemma ResidueMeansIntact(payload: seq<bv8>)
    ensures Crc(0xffff, payload) == 0xB001 <==> Intact(payload)
  {
    hide CrcBits, Table, Lo, Hi;
    if |payload| >= 2 {
      var n := |payload| - 2;
      NextCrcByte(0xffff, payload, n);
      NextCrcByte(0xffff, payload, n + 1);
      assert payload[..n + 2] == payload;
      Residue(Crc(0xffff, payload[..n]), payload[n], payload[n + 1]);
      assert payload[n..] == [payload[n], payload[n + 1]];
    } else {
      TooShort(payload);
    }
  }

  lemma TooShort(payload: seq<bv8>)
    requires |payload| < 2
    ensures Crc(0xffff, payload) != 0xB001
  {
    hide Table, Bit;
    if |payload| == 1 {
      EmptyIsSeed(payload);
      NextCrcByte(0xffff, payload, 0);
      assert payload[..1] == payload;
      WordOf(0xffff);
      ByteStep(0xff, 0xff, payload[0]);
      TableIsParity(0xff ^ payload[0]);
      NeverAlone(0xff ^ payload[0]);
    } else {
      EmptyIsSeed(payload);
      assert payload[..0] == payload;
    }
  }

  lemma NeverAlone(x: bv8)
    ensures Xor(ParityTable(x), 0xff) != 0xB001
  {}
}
