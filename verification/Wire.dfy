/** The wire format the serial engines share: NRZI (section 7.1.8 of the USB 2.0
    specification) and bit stuffing (section 7.1.9), as plain functions on bit strings,
    and a decoder that reads a stream of port samples one bit at a time. */
module Wire {
  import opened Arithmetic
  import opened Bits

  /** usbconfig.h puts D- on port bit 3 and D+ on port bit 2. */
  const USBMASK: bv8 := 0x0c

  /** The level of D-: high is J (idle), low is K. */
  predicate Minus(sample: bv8) { Bit(sample, 3) }

  predicate IsSe0(sample: bv8) { sample & USBMASK == 0 }

  /** Exactly one of D+ and D- is high; the other six port pins may be anything. */
  predicate IsJK(sample: bv8) { sample & USBMASK == 0x08 || sample & USBMASK == 0x04 }

  // ---- Sending ----

  /** The number of ones at the end of a bit string. */
  function TrailingOnes(bits: seq<bool>): (n: nat)
    ensures n <= |bits|
  {
    if bits == [] || !bits[|bits| - 1] then 0 else 1 + TrailingOnes(bits[..|bits| - 1])
  }

  /** A zero is inserted after every six consecutive ones. */
  function Stuff(bits: seq<bool>): seq<bool>
  {
    if bits == [] then [] else
      var s := Stuff(bits[..|bits| - 1]) + [bits[|bits| - 1]];
      if TrailingOnes(s) == 6 then s + [false] else s
  }

  /** A one keeps the level, a zero changes it; the idle level is J. */
  function Nrzi(bits: seq<bool>): (wave: seq<bool>)
    ensures |wave| == |bits|
  {
    if bits == [] then [] else
      var wave := Nrzi(bits[..|bits| - 1]);
      wave + [LastLevel(wave) == bits[|bits| - 1]]
  }

  function LastLevel(wave: seq<bool>): bool
  {
    wave == [] || wave[|wave| - 1]
  }

  /** The D- levels on the bus for a bit string, one per bit time. */
  function Wave(bits: seq<bool>): seq<bool> { Nrzi(Stuff(bits)) }

  /** The stuffing state after a bit string: how many ones the wire has seen in a row. */
  function Ones(bits: seq<bool>): nat { TrailingOnes(Stuff(bits)) }

  /** One more bit costs one more bit time, or two when it completes a run of six. */
  lemma WaveSnoc(bits: seq<bool>, b: bool)
    requires Ones(bits) <= 5
    ensures var level := LastLevel(Wave(bits)) == b;
      var next := Wave(bits + [b]);
      if b && Ones(bits) == 5
      then next == Wave(bits) + [level, !level] && LastLevel(next) == !level && Ones(bits + [b]) == 0
      else
        && next == Wave(bits) + [level] && LastLevel(next) == level
        && Ones(bits + [b]) == if b then Ones(bits) + 1 else 0
  {
    hide Nrzi;
    assert (bits + [b])[..|bits|] == bits;
    var s := Stuff(bits) + [b];
    assert s[..|s| - 1] == Stuff(bits);
    NrziSnoc(Stuff(bits), b);
    if TrailingOnes(s) == 6 {
      NrziSnoc(s, false);
      var t := s + [false];
      assert t[..|t| - 1] == s;
    }
  }

  lemma NrziSnoc(bits: seq<bool>, b: bool)
    ensures var level := LastLevel(Nrzi(bits)) == b;
      Nrzi(bits + [b]) == Nrzi(bits) + [level] && LastLevel(Nrzi(bits + [b])) == level
  {
    assert (bits + [b])[..|bits|] == bits;
  }

  lemma {:induction false} OnesBound(bits: seq<bool>)
    ensures Ones(bits) <= 5
  {
    if bits != [] {
      var front := bits[..|bits| - 1];
      OnesBound(front);
      WaveSnoc(front, bits[|bits| - 1]);
      assert front + [bits[|bits| - 1]] == bits;
    }
  }

  /** Section 7.1.9: the stuffed stream never holds seven ones in a row ... */
  lemma {:induction false} NoSevenOnes(bits: seq<bool>, i: nat)
    requires i + 7 <= |Stuff(bits)|
    ensures exists j :: i <= j < i + 7 && !Stuff(bits)[j]
  {
    var front := bits[..|bits| - 1];
    var s := Stuff(front) + [bits[|bits| - 1]];
    OnesBound(front);
    assert s <= Stuff(bits);
    if i + 7 <= |Stuff(front)| {
      NoSevenOnes(front, i);
      var j :| i <= j < i + 7 && !Stuff(front)[j];
      assert !Stuff(bits)[j];
    } else if i + 7 == |s| + 1 {
      assert !Stuff(bits)[|s|];
    } else if forall j :: i <= j < i + 7 ==> Stuff(bits)[j] {
      assert forall j :: i <= j < |s| ==> s[j] == Stuff(bits)[j];
      TrailingAtLeast(s, i);
    }
  }

  lemma {:induction false} TrailingAtLeast(s: seq<bool>, i: nat)
    requires i <= |s|
    requires forall j :: i <= j < |s| ==> s[j]
    ensures TrailingOnes(s) >= |s| - i
  {
    if i < |s| {
      TrailingAtLeast(s[..|s| - 1], i);
    }
  }

  lemma {:induction false} NrziAt(bits: seq<bool>, k: nat)
    requires k < |bits|
    ensures Nrzi(bits)[k] == (LastLevel(Nrzi(bits)[..k]) == bits[k])
  {
    var m := |bits| - 1;
    if k < m {
      NrziAt(bits[..m], k);
      assert Nrzi(bits)[..k] == Nrzi(bits[..m])[..k];
    } else {
      assert Nrzi(bits)[..k] == Nrzi(bits[..m]);
    }
  }

  /** ... so the bus changes level at least once in every seven bit times. */
  lemma TransitionEverySevenBitTimes(bits: seq<bool>, i: nat)
    requires i + 7 <= |Wave(bits)|
    ensures exists j :: i <= j < i + 7 && Wave(bits)[j] != LastLevel(Wave(bits)[..j])
  {
    NoSevenOnes(bits, i);
    var j :| i <= j < i + 7 && !Stuff(bits)[j];
    NrziAt(Stuff(bits), j);
  }

  /** Port values that put these levels on the bus. */
  predicate Drives(ports: seq<bv8>, levels: seq<bool>)
  {
    && |ports| == |levels|
    && forall i :: 0 <= i < |ports| ==> IsJK(ports[i]) && Minus(ports[i]) == levels[i]
  }

  lemma DriveOne(ports: seq<bv8>, levels: seq<bool>, x: bv8)
    requires Drives(ports, levels) && IsJK(x)
    ensures Drives(ports + [x], levels + [Minus(x)])
  {}

  lemma Flip(x: bv8)
    requires IsJK(x)
    ensures IsJK(x ^ USBMASK) && Minus(x ^ USBMASK) == !Minus(x)
  {}

  /** The pins of the port that are not USB's. */
  function Others(port: bv8): bv8 { port & !USBMASK }

  lemma OthersStay(x: bv8)
    ensures Others(x ^ USBMASK) == Others(x) && Others(x | 0x08) == Others(x) && Others(x & !USBMASK) == Others(x)
  {}

  /** The low bits of the shift register, when j bits of `byte` have been shifted out. */
  predicate Left(shift: bv8, byte: bv8, j: nat)
  {
    forall i :: 0 <= i < 8 - j ==> Bit(shift, i) == Bit(byte, i + j)
  }

  /** The same with the next bit replaced by a zero: the bit a transmitter stuffs. */
  predicate LeftStuffed(shift: bv8, byte: bv8, j: nat)
  {
    && !Bit(shift, 0)
    && forall i :: 1 <= i < 8 - j ==> Bit(shift, i) == Bit(byte, i + j)
  }

  lemma RorLeft(shift: bv8, byte: bv8, j: nat, carry: bool)
    requires j < 8
    ensures Left(shift, byte, j) ==> Left(Ror(shift, carry), byte, j + 1) && Bit(shift, 0) == Bit(byte, j)
    ensures LeftStuffed(shift, byte, j) ==> Left(Ror(shift, carry), byte, j + 1) && !Bit(shift, 0)
  {
    hide Bit, Ror;
    RorBits(shift, carry);
    if Left(shift, byte, j) {
      assert Bit(shift, 0) == Bit(byte, 0 + j);
    }
  }

  lemma LeftAll(byte: bv8)
    ensures Left(byte, byte, 0)
  {}

  lemma LslLeft(shift: bv8, byte: bv8, j: nat)
    requires j < 8 && Left(shift, byte, j + 1)
    ensures LeftStuffed(Lsl(shift), byte, j)
  {
    hide Bit, Lsl;
    LslBits(shift);
    forall i | 1 <= i < 8 - j ensures Bit(Lsl(shift), i) == Bit(byte, i + j) {
      assert Bit(shift, i - 1) == Bit(byte, i - 1 + (j + 1));
    }
  }

  /** A history register: its top bits are the last bits sent (or received), newest at the
      top, of which the last `ones` were ones. */
  predicate History(x: bv8, ones: nat)
  {
    && ones <= 6
    && !Bit(x, 7 - ones)
    && forall i :: 8 - ones <= i < 8 ==> Bit(x, i)
  }

  lemma HistoryStep(x: bv8, ones: nat, b: bool)
    requires !b || (ones <= 5 && History(x, ones))
    ensures History(Ror(x, b), if b then ones + 1 else 0)
  {
    hide Bit, Ror;
    RorBits(x, b);
    forall i | 8 - (ones + 1) <= i < 8 && b ensures Bit(Ror(x, b), i) {
      assert i < 7 ==> Bit(x, i + 1);
    }
  }

  /** `cpi x, 0xfc` */
  predicate Full(x: bv8) { x >= 0xfc }

  /** The comparison recognizes six ones. */
  lemma HistoryFull(x: bv8, ones: nat)
    requires History(x, ones)
    ensures Full(x) <==> ones == 6
  {
    hide Bit;
    CompareBits(x);
  }

  lemma HistoryClear()
    ensures History(0, 0) && !Full(0)
  {}

  /** The bytes of a transmission of cnt bytes: sync, then memory from address y on. */
  function Packet(mem: nat -> bv8, y: nat, cnt: nat): (p: seq<bv8>)
    requires 1 <= cnt
    ensures |p| == cnt
  {
    [0x80] + seq(cnt - 1, i requires 0 <= i => mem(y + i))
  }

  lemma NextBit(full: seq<bv8>, n: nat, j: nat)
    requires n < |full| && j < 8
    ensures BitsOf(full)[..8 * n + j] + [Bit(full[n], j)] == BitsOf(full)[..8 * n + j + 1]
  {
    hide Bit, BitsOf;
    assert (8 * n + j) / 8 == n && (8 * n + j) % 8 == j;
    BitsOfAt(full, 8 * n + j);
  }

  lemma FirstBitIsZero(full: seq<bv8>, n: nat, j: nat)
    requires n < |full| && j < 8 && full[0] == 0x80
    ensures BitsOf(full)[..8 * n + j] == [] ==> !Bit(full[n], j)
  {}

  // ---- Receiving ----

  /** A decoder between two bits: the next sample, the level of the last one and the
      number of ones in a row (6 means that the next sample is a stuff bit). */
  datatype Reader = Reader(pos: nat, level: bool, ones: nat)

  /** Skip the stuff bit if one is due; its own value is not looked at. */
  function Settle(line: nat -> bv8, r: Reader): Reader
  {
    if r.ones == 6 then Reader(r.pos + 1, Minus(line(r.pos)), 0) else r
  }

  function Read(line: nat -> bv8, r: Reader): Reader
  {
    var level := Minus(line(r.pos));
    Reader(r.pos + 1, level, if level == r.level then r.ones + 1 else 0)
  }

  /** The decoder after k bits of a packet whose sync pattern ended in level K.  `first` is
      the number of ones it believes to have seen once the first bit is read: the engines
      disagree on that. */
  function After(line: nat -> bv8, first: nat, k: nat): Reader
    requires 1 <= k
  {
    if k == 1 then Reader(1, Minus(line(0)), first) else Read(line, Settle(line, After(line, first, k - 1)))
  }

  /** Bit k of the packet. */
  function BitAt(line: nat -> bv8, first: nat, k: nat): bool
  {
    if k == 0 then !Minus(line(0)) else
      var r := Settle(line, After(line, first, k));
      Minus(line(r.pos)) == r.level
  }

  predicate ByteIs(line: nat -> bv8, first: nat, n: nat, byte: bv8)
  {
    forall j :: 0 <= j < 8 ==> Bit(byte, j) == BitAt(line, first, 8 * n + j)
  }
  predicate BytesAre(line: nat -> bv8, first: nat, bytes: seq<bv8>)
  {
    forall n :: 0 <= n < |bytes| ==> ByteIs(line, first, n, bytes[n])
  }

  /** Where the decoder stands once n bytes and any stuff bit behind them are read. */
  function Boundary(line: nat -> bv8, first: nat, n: nat): nat
    requires 1 <= n
  {
    Settle(line, After(line, first, 8 * n)).pos
  }

  /** n whole bytes of J and K, with any stuff bit behind them; anything may follow. */
  ghost predicate Trace(line: nat -> bv8, first: nat, n: nat)
  {
    1 <= n && forall i :: 0 <= i < Boundary(line, first, n) ==> IsJK(line(i))
  }

  /** A packet of n whole bytes and its end, as an error-free bus delivers it: J or K up to
      the byte boundary, then two bit times of SE0. */
  ghost predicate CleanPacket(line: nat -> bv8, first: nat, n: nat)
  {
    && Trace(line, first, n)
    && IsSe0(line(Boundary(line, first, n))) && IsSe0(line(Boundary(line, first, n) + 1))
  }

  /** How a receiver stops: at SE0, with the number of bytes it has counted, or for want of
      room. */
  datatype Outcome = Se0(length: nat) | Overflow

  /** What a receiver is known to see next: a byte of a trace, the end of a clean packet, or
      anything. */
  datatype Mode = Known | Ending | Unknown

  ghost function ModeAt(line: nat -> bv8, first: nat, N: nat, n: nat): Mode
  {
    if n < N then Known else if n == N && CleanPacket(line, first, N) then Ending else Unknown
  }

  /** What a receiver with room for eleven bytes has to make of a trace of N bytes, and of a
      clean packet. */
  ghost predicate Received(line: nat -> bv8, first: nat, N: nat, stored: seq<bv8>, outcome: Outcome)
  {
    && Min(N, 11) <= |stored| <= 11 && BytesAre(line, first, stored[..Min(N, 11)])
    && (if outcome.Se0? then outcome.length == |stored| else |stored| == 11)
    && (N >= 12 ==> outcome.Overflow?)
    && (CleanPacket(line, first, N) && N <= 11 ==> outcome == Se0(N))
  }

  lemma OneMoreByte(line: nat -> bv8, first: nat, N: nat, before: seq<bv8>, stored: seq<bv8>)
    requires |stored| == |before| + 1 && stored[..|before|] == before
    requires BytesAre(line, first, before[..Min(N, |before|)])
    requires |before| < N ==> ByteIs(line, first, |before|, stored[|before|])
    ensures BytesAre(line, first, stored[..Min(N, |stored|)])
  {
    hide ByteIs;
    assert forall i :: 0 <= i < |before| ==> stored[i] == stored[..|before|][i];
  }

  lemma {:induction false} AfterMoves(line: nat -> bv8, first: nat, k: nat, m: nat)
    requires 1 <= k < m
    ensures Settle(line, After(line, first, k)).pos < After(line, first, m).pos
    decreases m
  {
    if k < m - 1 {
      AfterMoves(line, first, k, m - 1);
    }
  }

  lemma SameLine(a: bv8, b: bv8)
    requires IsJK(a) && IsJK(b)
    ensures (a & USBMASK) ^ (b & USBMASK) == 0 <==> Minus(a) == Minus(b)
    ensures IsJK(a & USBMASK) && Minus(a & USBMASK) == Minus(a) && a & USBMASK != 0
    ensures a & USBMASK & USBMASK == a & USBMASK
  {}
}
