/** What the transmitters put on the bus is what the receivers store, whichever two of the
    engines are connected. */
module RoundTrip {
  import opened Arithmetic
  import opened Bits
  import opened Wire
  import Transmit12
  import TransmitHistory
  import Receive12
  import Receive16
  import Receive20

  /** A packet identifier carries its own complement (section 8.3.1 of USB 2.0). */
  predicate ValidPid(b: bv8)
  {
    forall j :: 0 <= j < 4 ==> Bit(b, j + 4) == !Bit(b, j)
  }

  // ---- The engines disagree about the run length at the start, and it does not matter ----

  /** A run length an engine may believe in after the first bit. */
  predicate Plausible(line: nat -> bv8, first: nat)
  {
    first <= 1 || (first == 2 && !Minus(line(0)))
  }

  /** Bit k, if no stuff bit comes before it. */
  function Raw(line: nat -> bv8, k: nat): bool
  {
    if k == 0 then !Minus(line(0)) else Minus(line(k)) == Minus(line(k - 1))
  }

  predicate PidOnLine(line: nat -> bv8)
  {
    forall j :: 0 <= j < 4 ==> Raw(line, j + 4) == !Raw(line, j)
  }

  predicate PidDecoded(line: nat -> bv8, first: nat)
  {
    forall j :: 0 <= j < 4 ==> BitAt(line, first, j + 4) == !BitAt(line, first, j)
  }

  /** The decoder before any stuff bit. */
  function Unstuffed(line: nat -> bv8, first: nat, k: nat): Reader
    requires 1 <= k
  {
    Reader(k, Minus(line(k - 1)),
           if k == 1 then first else if Raw(line, k - 1) then Unstuffed(line, first, k - 1).ones + 1 else 0)
  }

  lemma {:induction false} NoStuffing(line: nat -> bv8, first: nat, k: nat)
    requires 1 <= k <= 8 && Plausible(line, first)
    requires PidOnLine(line) || PidDecoded(line, first)
    ensures After(line, first, k) == Unstuffed(line, first, k) && After(line, first, k).ones <= 5
    ensures forall j :: 0 <= j <= k ==> BitAt(line, first, j) == Raw(line, j)
  {
    if k > 1 {
      NoStuffing(line, first, k - 1);
      forall j | 0 <= j && j + 4 < k ensures Raw(line, j + 4) == !Raw(line, j) {
        assert BitAt(line, first, j) == Raw(line, j) && BitAt(line, first, j + 4) == Raw(line, j + 4);
      }
      Runs(line, first, k);
    }
  }

  /** A run of six would hold a bit and its complement. */
  lemma Runs(line: nat -> bv8, first: nat, k: nat)
    requires 1 <= k <= 8 && Plausible(line, first)
    requires forall j :: 0 <= j && j + 4 < k ==> Raw(line, j + 4) == !Raw(line, j)
    ensures Unstuffed(line, first, k).ones <= 5
  {
    hide Raw;
    if k >= 5 {
      var u4 := Unstuffed(line, first, k - 4).ones;
      assert Unstuffed(line, first, k - 2).ones <= u4 + 2;
      assert Unstuffed(line, first, k - 1).ones <= u4 + 3;
      assert Raw(line, k - 5 + 4) == !Raw(line, k - 5);
      FirstRaw(line, first);
    } else if k >= 3 {
      assert Unstuffed(line, first, 2).ones <= 3;
    }
  }

  lemma FirstRaw(line: nat -> bv8, first: nat)
    requires Plausible(line, first)
    ensures first == 2 ==> Raw(line, 0)
  {}

  /** If the first byte is a valid PID to one engine, every engine decodes the same stream,
      and from the second byte on in the same state. */
  lemma {:induction false} StartIsForgotten(line: nat -> bv8, f: nat, g: nat, k: nat)
    requires Plausible(line, f) && Plausible(line, g) && PidDecoded(line, f)
    ensures k >= 8 ==> After(line, f, k) == After(line, g, k)
    ensures BitAt(line, f, k) == BitAt(line, g, k)
  {
    if k > 8 {
      StartIsForgotten(line, f, g, k - 1);
    } else {
      NoStuffing(line, f, 8);
      assert PidOnLine(line) by {
        forall j | 0 <= j < 4 ensures Raw(line, j + 4) == !Raw(line, j) {
          assert BitAt(line, f, j + 4) == !BitAt(line, f, j);
        }
      }
      NoStuffing(line, g, 8);
      assert BitAt(line, f, k) == Raw(line, k) == BitAt(line, g, k);
      Zero(line, f, g);
    }
  }

  lemma Zero(line: nat -> bv8, f: nat, g: nat)
    requires PidOnLine(line)
    ensures Unstuffed(line, f, 8) == Unstuffed(line, g, 8)
  {
    assert Raw(line, 1 + 4) == !Raw(line, 1);
    var k := if Raw(line, 5) then 2 else 6;
    assert Unstuffed(line, f, k) == Unstuffed(line, g, k);
    SameRun(line, f, g, k, 8);
  }

  lemma {:induction false} SameRun(line: nat -> bv8, f: nat, g: nat, k: nat, m: nat)
    requires 1 <= k <= m && Unstuffed(line, f, k) == Unstuffed(line, g, k)
    ensures Unstuffed(line, f, m) == Unstuffed(line, g, m)
  {
    if k < m {
      SameRun(line, f, g, k, m - 1);
    }
  }

  // ---- Sending and receiving ----

  lemma {:induction false} WavePrefix(bits: seq<bool>, m: nat)
    requires m <= |bits|
    ensures Wave(bits[..m]) <= Wave(bits)
  {
    hide Wave, Ones, LastLevel;
    if m < |bits| {
      var front := bits[..|bits| - 1];
      WavePrefix(front, m);
      assert front[..m] == bits[..m];
      OnesBound(front);
      WaveSnoc(front, bits[|bits| - 1]);
      assert front + [bits[|bits| - 1]] == bits;
    } else {
      assert bits[..m] == bits;
    }
  }

  /** After the sync byte the bus has been in state K for two bit times. */
  lemma AfterSync(full: seq<bv8>)
    requires |full| >= 1 && full[0] == 0x80
    ensures var sync := BitsOf(full)[..8];
      |Wave(sync)| == 8 && LastLevel(Wave(sync)) == false && Ones(sync) == 1
  {
    var b := BitsOf(full);
    BitsOfAt(full, 0); BitsOfAt(full, 1); BitsOfAt(full, 2); BitsOfAt(full, 3);
    BitsOfAt(full, 4); BitsOfAt(full, 5); BitsOfAt(full, 6); BitsOfAt(full, 7);
    assert b[..8] == [false] + [false] + [false] + [false] + [false] + [false] + [false] + [true];
    WaveSnoc([], false);
    WaveSnoc([false], false);
    WaveSnoc([false] + [false], false);
    WaveSnoc([false] + [false] + [false], false);
    WaveSnoc([false] + [false] + [false] + [false], false);
    WaveSnoc([false] + [false] + [false] + [false] + [false], false);
    WaveSnoc([false] + [false] + [false] + [false] + [false] + [false], false);
    WaveSnoc([false] + [false] + [false] + [false] + [false] + [false] + [false], true);
  }

  /** The receiver's port shows what the transmitter drives, from the end of sync on; the
      other six pins may show anything. */
  predicate Carries(line: nat -> bv8, wave: seq<bv8>)
  {
    forall i :: 0 <= i && i + 8 < |wave| ==> line(i) & USBMASK == wave[i + 8] & USBMASK
  }

  /** What a transmitter has put on the bus for the packet `full`, sync and end included. */
  predicate Transmitted(wave: seq<bv8>, full: seq<bv8>)
  {
    && |wave| >= 2 && IsSe0(wave[|wave| - 2]) && IsSe0(wave[|wave| - 1])
    && Drives(wave[..|wave| - 2], Wave(BitsOf(full)))
  }

  /** The run length that counts the last bit of sync. */
  function Counting(line: nat -> bv8): nat { if Minus(line(0)) then 0 else 2 }

  /** The decoder has read exactly what the encoder has sent. */
  predicate InStep(r: Reader, sent: seq<bool>)
  {
    |Wave(sent)| == r.pos + 8 && LastLevel(Wave(sent)) == r.level && Ones(sent) == r.ones
  }

  lemma OneBit(line: nat -> bv8, wave: seq<bv8>, full: seq<bv8>, m: nat, r: Reader)
    requires Transmitted(wave, full) && Carries(line, wave)
    requires m < |BitsOf(full)| && InStep(r, BitsOf(full)[..m])
    ensures InStep(Settle(line, Read(line, r)), BitsOf(full)[..m + 1])
    ensures Minus(line(r.pos)) == (r.level == BitsOf(full)[m])
  {
    hide Wave, Ones, LastLevel, Minus, IsJK, BitsOf;
    var bits := BitsOf(full);
    var before := bits[..m];
    assert before + [bits[m]] == bits[..m + 1];
    OnesBound(before);
    WaveSnoc(before, bits[m]);
    WavePrefix(bits, m + 1);
    SampleIs(line, wave, full, r.pos);
    if bits[m] && Ones(before) == 5 {
      SampleIs(line, wave, full, r.pos + 1);
    }
  }

  /** By induction over the packet: bit k is decoded as it was sent, and the decoder stays in
      step. */
  lemma {:induction false} DecodedAsSent(line: nat -> bv8, wave: seq<bv8>, full: seq<bv8>, k: nat)
    requires Transmitted(wave, full) && Carries(line, wave)
    requires |full| >= 1 && full[0] == 0x80 && 8 + k < |BitsOf(full)|
    ensures InStep(Settle(line, After(line, Counting(line), k + 1)), BitsOf(full)[..8 + k + 1])
    ensures BitAt(line, Counting(line), k) == BitsOf(full)[8 + k]
  {
    hide Wave, Ones, LastLevel, Minus, BitsOf;
    if k == 0 {
      AfterSync(full);
      OneBit(line, wave, full, 8, Reader(0, false, 1));
    } else {
      DecodedAsSent(line, wave, full, k - 1);
      OneBit(line, wave, full, 8 + k, Settle(line, After(line, Counting(line), k)));
    }
  }

  lemma SampleIs(line: nat -> bv8, wave: seq<bv8>, full: seq<bv8>, i: nat)
    requires Transmitted(wave, full) && Carries(line, wave) && i + 8 < |Wave(BitsOf(full))|
    ensures IsJK(line(i)) && Minus(line(i)) == Wave(BitsOf(full))[i + 8]
  {
    hide Wave;
    assert wave[..|wave| - 2][i + 8] == wave[i + 8];
    SameMinus(line(i), wave[i + 8]);
  }

  lemma SameMinus(a: bv8, b: bv8)
    requires a & USBMASK == b & USBMASK
    ensures IsJK(a) == IsJK(b) && Minus(a) == Minus(b) && IsSe0(a) == IsSe0(b)
  {}

  // ---- The theorems ----

  /** If the first byte is a valid PID to one engine, all engines see the same bytes and the
      same byte boundaries, on any line. */
  lemma DecodersAgree(line: nat -> bv8, f: nat, g: nat)
    requires PidDecoded(line, f) && Plausible(line, f) && Plausible(line, g)
    ensures forall n, byte :: ByteIs(line, f, n, byte) <==> ByteIs(line, g, n, byte)
    ensures forall n :: 1 <= n ==> Boundary(line, f, n) == Boundary(line, g, n)
  {
    hide BitAt, ByteIs, After;
    forall n, byte ensures ByteIs(line, f, n, byte) <==> ByteIs(line, g, n, byte) {
      SameByte(line, f, g, n, byte);
    }
    forall n | 1 <= n ensures Boundary(line, f, n) == Boundary(line, g, n) {
      StartIsForgotten(line, f, g, 8 * n);
    }
  }

  lemma SameByte(line: nat -> bv8, f: nat, g: nat, n: nat, byte: bv8)
    requires Plausible(line, f) && Plausible(line, g) && PidDecoded(line, f)
    ensures ByteIs(line, f, n, byte) <==> ByteIs(line, g, n, byte)
  {
    hide BitAt, Bit;
    forall j | 0 <= j < 8
      ensures (Bit(byte, j) == BitAt(line, f, 8 * n + j)) == (Bit(byte, j) == BitAt(line, g, 8 * n + j))
    {
      StartIsForgotten(line, f, g, 8 * n + j);
    }
  }

  /** Every packet with a valid PID arrives as it was sent, to an engine with any plausible
      idea of the run length at the start. */
  lemma Delivered(line: nat -> bv8, wave: seq<bv8>, packet: seq<bv8>, first: nat)
    requires Transmitted(wave, [0x80] + packet) && Carries(line, wave)
    requires packet != [] && ValidPid(packet[0]) && Plausible(line, first)
    ensures CleanPacket(line, first, |packet|) && BytesAre(line, first, packet)
    ensures Boundary(line, first, |packet|) + 10 == |wave|
  {
    hide Bit, Wave;
    var c := Counting(line);
    DeliveredToCounting(line, wave, packet);
    assert ByteIs(line, c, 0, packet[0]);
    PidBits(line, c, packet[0]);
    DecodersAgree(line, c, first);
  }

  lemma PidBits(line: nat -> bv8, first: nat, pid: bv8)
    requires ByteIs(line, first, 0, pid) && ValidPid(pid)
    ensures PidDecoded(line, first)
  {
    hide Bit, BitAt;
    forall j | 0 <= j < 4 ensures BitAt(line, first, j + 4) == !BitAt(line, first, j) {
      assert Bit(pid, j + 4) == !Bit(pid, j);
      assert Bit(pid, j) == BitAt(line, first, 8 * 0 + j) && Bit(pid, j + 4) == BitAt(line, first, 8 * 0 + (j + 4));
    }
  }

  lemma DeliveredToCounting(line: nat -> bv8, wave: seq<bv8>, packet: seq<bv8>)
    requires Transmitted(wave, [0x80] + packet) && Carries(line, wave) && packet != []
    ensures var c := Counting(line);
      && CleanPacket(line, c, |packet|) && BytesAre(line, c, packet)
      && Boundary(line, c, |packet|) + 10 == |wave|
  {
    hide Bit, Wave, IsJK, IsSe0, After, BitAt;
    var c, full := Counting(line), [0x80] + packet;
    var last := 8 * |packet| - 1;
    DecodedAsSent(line, wave, full, last);
    assert BitsOf(full)[..8 + last + 1] == BitsOf(full);
    forall i | 0 <= i < Boundary(line, c, |packet|) ensures IsJK(line(i)) {
      SampleIs(line, wave, full, i);
    }
    SameMinus(line(|wave| - 10), wave[|wave| - 2]);
    SameMinus(line(|wave| - 9), wave[|wave| - 1]);
    forall n | 0 <= n < |packet| ensures ByteIs(line, c, n, packet[n]) {
      forall j | 0 <= j < 8 ensures Bit(packet[n], j) == BitAt(line, c, 8 * n + j) {
        DecodedAsSent(line, wave, full, 8 * n + j);
        assert (8 + (8 * n + j)) / 8 == n + 1 && (8 + (8 * n + j)) % 8 == j;
        BitsOfAt(full, 8 + (8 * n + j));
      }
    }
  }

  lemma SamePackets(line: nat -> bv8, first: nat, a: seq<bv8>, b: seq<bv8>)
    requires BytesAre(line, first, a) && BytesAre(line, first, b) && |a| == |b|
    ensures a == b
  {
    hide Bit, BitAt;
    forall n | 0 <= n < |a| ensures a[n] == b[n] {
      assert ByteIs(line, first, n, a[n]) && ByteIs(line, first, n, b[n]);
      SameBits(a[n], b[n]);
    }
  }

  /** The 12 MHz engine does not stop before the end of a trace. */
  lemma NoEndInside(line: nat -> bv8, N: nat, m: nat)
    requires Trace(line, Receive12.First(line), N) && 1 <= m < N
    ensures !Receive12.EndsAfter(line, m)
  {
    hide IsSe0, IsJK, After;
    var first := Receive12.First(line);
    AfterMoves(line, first, 8 * m, 8 * N);
    AfterMoves(line, first, 8 * m + 1, 8 * N);
    NotBoth(line(Boundary(line, first, m) + 1));
    TwoBits(line, first, 8 * m);
  }

  /** It stops at the end of a clean packet and nowhere before. */
  lemma EndIsFound(line: nat -> bv8, N: nat, m: nat)
    requires CleanPacket(line, Receive12.First(line), N) && 1 <= m <= N
    ensures Receive12.EndsAfter(line, m) <==> m == N
  {
    hide IsSe0, IsJK, After;
    if m < N { NoEndInside(line, N, m); }
  }

  lemma TwoBits(line: nat -> bv8, first: nat, k: nat)
    requires 1 <= k
    ensures Settle(line, After(line, first, k + 1)).pos >= Settle(line, After(line, first, k)).pos + 1
  {}

  lemma NotBoth(sample: bv8)
    ensures !(IsSe0(sample) && IsJK(sample))
  {}

  // ---- All receivers on one bus ----

  datatype Reception = Reception(stored: seq<bv8>, outcome: Outcome)

  /** What all engines must have in common after a trace of N bytes. */
  ghost predicate Good(line: nat -> bv8, N: nat, r: Reception)
  {
    Received(line, Receive12.First(line), N, r.stored, r.outcome)
  }

  /** To engines with different starts the same reception is right. */
  lemma SameReception(line: nat -> bv8, f: nat, g: nat, N: nat)
    requires PidDecoded(line, f) && Plausible(line, f) && Plausible(line, g)
    ensures Trace(line, f, N) <==> Trace(line, g, N)
    ensures forall stored, outcome :: Received(line, f, N, stored, outcome) <==> Received(line, g, N, stored, outcome)
  {
    hide ByteIs, IsJK, IsSe0, Boundary, PidDecoded, Plausible;
    DecodersAgree(line, f, g);
  }

  lemma TwelveReceives(line: nat -> bv8, N: nat, r: Reception)
    requires Trace(line, Receive12.First(line), N)
    requires 1 <= |r.stored| <= 11 && BytesAre(line, Receive12.First(line), r.stored)
    requires forall m :: 1 <= m < |r.stored| ==> !Receive12.EndsAfter(line, m)
    requires match r.outcome
      case Se0(length) => length == |r.stored| && Receive12.EndsAfter(line, |r.stored|)
      case Overflow => |r.stored| == 11 && !Receive12.EndsAfter(line, 11)
    ensures Good(line, N, r)
  {
    hide BytesAre, Receive12.EndsAfter, Trace, CleanPacket;
    var m := |r.stored|;
    if m < N { NoEndInside(line, N, m); }
    if CleanPacket(line, Receive12.First(line), N) && N <= 11 {
      IsNotEmpty(line, N);
      EndIsFound(line, N, N);
    }
    assert Min(N, 11) <= m;
    Prefix(line, Receive12.First(line), r.stored, Min(N, 11));
  }

  lemma IsNotEmpty(line: nat -> bv8, N: nat)
    requires Trace(line, Receive12.First(line), N)
    ensures 1 <= N
  {}

  lemma Prefix(line: nat -> bv8, first: nat, bytes: seq<bv8>, n: nat)
    requires BytesAre(line, first, bytes) && n <= |bytes|
    ensures BytesAre(line, first, bytes[..n])
  {
    hide ByteIs;
  }

  method ReceiveAt12(line: nat -> bv8, ghost N: nat) returns (r: Reception)
    requires Trace(line, Receive12.First(line), N)
    ensures Good(line, N, r)
  {
    hide Good, Trace, ByteIs, Receive12.EndsAfter;
    var receiver := new Receive12.Receiver(line);
    var outcome := receiver.Receive();
    r := Reception(receiver.stored, outcome);
    TwelveReceives(line, N, r);
  }

  /** Three engines on one line that carries N bytes, the first of them a valid PID, and then
      anything: all store the same bytes, as far as there is room, and on a clean packet all
      end behind its last byte. */
  method ReceiveByAll(line: nat -> bv8, ghost N: nat) returns (all: seq<Reception>)
    requires Trace(line, Receive12.First(line), N) && PidDecoded(line, Receive12.First(line))
    ensures |all| == 3 && Good(line, N, all[0]) && Good(line, N, all[1]) && Good(line, N, all[2])
  {
    hide Trace, PidDecoded, Received, ByteIs;
    var f := Receive12.First(line);
    SameReception(line, f, Receive16.First(line), N);
    SameReception(line, f, Receive20.First(line), N);
    var r12 := ReceiveAt12(line, N);
    var at16 := new Receive16.Receiver(line);
    var o16 := at16.Receive(N);
    var at20 := new Receive20.Receiver(line);
    var o20 := at20.Receive(N);
    all := [r12, Reception(at16.stored, o16), Reception(at20.stored, o20)];
  }

  /** Good receptions agree on the bytes of the trace. */
  lemma GoodAgree(line: nat -> bv8, N: nat, r: Reception, q: Reception)
    requires Good(line, N, r) && Good(line, N, q)
    ensures r.stored[..Min(N, 11)] == q.stored[..Min(N, 11)]
  {
    hide ByteIs, CleanPacket;
    SamePackets(line, Receive12.First(line), r.stored[..Min(N, 11)], q.stored[..Min(N, 11)]);
  }

  /** And what is good for a packet that was sent is the packet, its end and its length. */
  lemma GoodIsSent(line: nat -> bv8, wave: seq<bv8>, packet: seq<bv8>, r: Reception)
    requires Transmitted(wave, [0x80] + packet) && Carries(line, wave)
    requires 1 <= |packet| <= 11 && ValidPid(packet[0]) && Good(line, |packet|, r)
    ensures r == Reception(packet, Se0(|packet|))
  {
    hide ByteIs, CleanPacket, Transmitted, Carries, ValidPid;
    var f := Receive12.First(line);
    Delivered(line, wave, packet, f);
    SamePackets(line, f, r.stored[..|packet|], packet);
  }

  /** A packet that fits the eleven byte buffer, heard by all. */
  method Hear(line: nat -> bv8, ghost wave: seq<bv8>, ghost packet: seq<bv8>) returns (all: seq<Reception>)
    requires Transmitted(wave, [0x80] + packet) && Carries(line, wave)
    requires 1 <= |packet| <= 11 && ValidPid(packet[0])
    ensures all == seq(3, _ => Reception(packet, Se0(|packet|)))
  {
    hide Transmitted, Carries, ValidPid, Good, BytesAre, Plausible, Trace, PidDecoded;
    ArrivesAsTrace(line, wave, packet);
    all := ReceiveByAll(line, |packet|);
    GoodIsSent(line, wave, packet, all[0]);
    GoodIsSent(line, wave, packet, all[1]);
    GoodIsSent(line, wave, packet, all[2]);
    AllThree(all, Reception(packet, Se0(|packet|)));
  }

  lemma AllThree(all: seq<Reception>, r: Reception)
    requires |all| == 3 && all[0] == r && all[1] == r && all[2] == r
    ensures all == seq(3, _ => r)
  {}

  lemma ArrivesAsTrace(line: nat -> bv8, wave: seq<bv8>, packet: seq<bv8>)
    requires Transmitted(wave, [0x80] + packet) && Carries(line, wave)
    requires packet != [] && ValidPid(packet[0])
    ensures Trace(line, Receive12.First(line), |packet|) && PidDecoded(line, Receive12.First(line))
  {
    hide Transmitted, Carries, ByteIs, ValidPid;
    var f := Receive12.First(line);
    Delivered(line, wave, packet, f);
    assert ByteIs(line, f, 0, packet[0]);
    PidBits(line, f, packet[0]);
  }

  /** The bus as a receiver sees it: the wave from the end of sync on, then idle. */
  function OnPort(wave: seq<bv8>): (line: nat -> bv8)
    ensures Carries(line, wave)
  {
    (i: nat) => if i + 8 < |wave| then wave[i + 8] else 0x08
  }

  /** Every transmitter, heard by every receiver. */
  method Exchange(port: bv8, mem: nat -> bv8, y: nat, n: nat) returns (all: seq<Reception>)
    requires port & USBMASK == 0 && 1 <= n <= 11 && ValidPid(mem(y))
    ensures all == seq(12, _ => Reception(seq(n, j requires 0 <= j => mem(y + j)), Se0(n)))
  {
    hide Bit, Wave, BitsOf, IsSe0, Drives, ValidPid, Carries;
    ghost var packet := seq(n, j requires 0 <= j => mem(y + j));
    assert Packet(mem, y, n + 1) == [0x80] + packet;
    var t12 := new Transmit12.Sender();
    t12.UsbSend(port, mem, y, n + 1);
    all := Hear(OnPort(t12.wave), t12.wave, packet);
    var t := new TransmitHistory.Sender();
    t.UsbSend16(port, mem, y, n + 1);
    var s16 := Hear(OnPort(t.wave), t.wave, packet);
    t := new TransmitHistory.Sender();
    t.UsbSend165(port, mem, y, n + 1);
    var s165 := Hear(OnPort(t.wave), t.wave, packet);
    t := new TransmitHistory.Sender();
    t.UsbSend20(port, mem, y, n + 1);
    var s20 := Hear(OnPort(t.wave), t.wave, packet);
    all := all + s16 + s165 + s20;
  }
}
