/** The test pattern of the benchmark and its checker (AVR/libusb/examples/benchmark.c). */
module VerifyPattern {
  import opened Wrappers
  import opened Arithmetic

  type byte = x: int | 0 <= x < 256

  /** Byte i of a packet, its key aside: 0, then 1 to 255 over and over. */
  function Pattern(i: nat): byte { if i == 0 then 0 else (i - 1) % 255 + 1 }

  /** The key byte of packet n, and the key that follows a key. */
  function Key(n: nat): byte { n % 256 }

  function NextKey(key: byte): byte { (key + 1) % 256 }

  lemma KeysCount(n: nat)
    ensures Key(n + 1) == NextKey(Key(n))
  {}

  /** indexC after one more byte. */
  lemma NextPattern(i: nat)
    requires i >= 1
    ensures Pattern(i + 1) == if Pattern(i) == 255 then 1 else Pattern(i) + 1
  {}

  /** 0 only in front, then 1 to 255 over and over. */
  lemma PatternRepeats(i: nat)
    ensures Pattern(0) == 0 && (1 <= i <= 255 ==> Pattern(i) == i)
    ensures i >= 1 ==> Pattern(i) != 0 && Pattern(i + 255) == Pattern(i)
  {
    if i >= 1 {
      var q, r := (i - 1) / 255, (i - 1) % 255;
      Quotient(i + 254, q + 1, r, 255);
      if i <= 255 { Quotient(i - 1, 0, i - 1, 255); }
    }
  }

  // ---- The pattern ----

  /** CreateVerifyBuffer */
  method CreateVerifyBuffer(endpointMaxPacketSize: nat) returns (buffer: array<byte>)
    ensures fresh(buffer) && buffer.Length == endpointMaxPacketSize
    ensures forall i :: 0 <= i < buffer.Length ==> buffer[i] == Pattern(i)
  {
    buffer := new byte[endpointMaxPacketSize];
    var indexC: byte := 0;
    for i := 0 to endpointMaxPacketSize
      invariant indexC == Pattern(i)
      invariant forall j :: 0 <= j < i ==> buffer[j] == Pattern(j)
    {
      buffer[i] := indexC;
      if i >= 1 { NextPattern(i); }
      indexC := (indexC + 1) % 256;
      if indexC == 0 { indexC := 1; }
    }
  }

  function StreamByte(n: nat, d: nat): byte { if d == 1 then Key(n) else Pattern(d) }

  /** Packet number n of the stream. */
  function StreamPacket(n: nat, size: nat): (packet: seq<byte>)
    ensures |packet| == size
  {
    seq(size, d requires d >= 0 => StreamByte(n, d))
  }

  function Stream(n: nat, count: nat, size: nat): (data: seq<byte>)
  {
    if count == 0 then [] else Stream(n, count - 1, size) + StreamPacket(n + count - 1, size)
  }

  lemma {:induction false} StreamLength(n: nat, count: nat, size: nat)
    ensures |Stream(n, count, size)| == count * size
  {
    if count > 0 { StreamLength(n, count - 1, size); }
  }

  /** The loop that fills the transfer buffers, as one stream of packets. */
  method Fill(buffer: array<byte>, wMaxPacketSize: nat)
    requires wMaxPacketSize > 0
    modifies buffer
    ensures var packetCount := buffer.Length / wMaxPacketSize;
      && packetCount * wMaxPacketSize <= buffer.Length
      && buffer[..packetCount * wMaxPacketSize] == Stream(0, packetCount, wMaxPacketSize)
      && buffer[packetCount * wMaxPacketSize..] == old(buffer[packetCount * wMaxPacketSize..])
  {
    hide StreamPacket, Pattern;
    var packetCount := buffer.Length / wMaxPacketSize;
    Floor(buffer.Length, wMaxPacketSize);
    ghost var end := packetCount * wMaxPacketSize;
    var bufferIndex := 0;
    var packetIndex := 0;
    while packetIndex < packetCount
      invariant packetIndex <= packetCount && bufferIndex == packetIndex * wMaxPacketSize && bufferIndex <= end
      invariant buffer[..bufferIndex] == Stream(0, packetIndex, wMaxPacketSize)
      invariant buffer[bufferIndex..] == old(buffer[bufferIndex..])
    {
      Fits(packetIndex, packetCount, wMaxPacketSize);
      bufferIndex := FillPacket(buffer, bufferIndex, packetIndex, wMaxPacketSize);
      packetIndex := packetIndex + 1;
    }
  }

  lemma Floor(n: nat, size: nat)
    requires size > 0
    ensures (n / size) * size <= n
  {}

  lemma Fits(p: nat, count: nat, size: nat)
    requires p < count
    ensures p * size + size == (p + 1) * size <= count * size
  {}

  /** The inner loop: one packet. */
  method FillPacket(buffer: array<byte>, start: nat, packetIndex: nat, wMaxPacketSize: nat) returns (bufferIndex: nat)
    requires start + wMaxPacketSize <= buffer.Length
    modifies buffer
    ensures bufferIndex == start + wMaxPacketSize
    ensures buffer[..bufferIndex] == old(buffer[..start]) + StreamPacket(packetIndex, wMaxPacketSize)
    ensures buffer[bufferIndex..] == old(buffer[bufferIndex..])
  {
    hide Pattern, StreamPacket;
    bufferIndex := start;
    var indexC: byte := 2;
    for dataIndex := 0 to wMaxPacketSize
      invariant bufferIndex == start + dataIndex && indexC == (if dataIndex < 2 then 2 else Pattern(dataIndex))
      invariant buffer[..bufferIndex] == old(buffer[..start]) + StreamPacket(packetIndex, wMaxPacketSize)[..dataIndex]
      invariant forall j :: bufferIndex <= j < buffer.Length ==> buffer[j] == old(buffer[j])
    {
      PacketByte(packetIndex, wMaxPacketSize, dataIndex);
      if dataIndex == 0 {
        buffer[bufferIndex] := 0;
      } else if dataIndex == 1 {
        buffer[bufferIndex] := packetIndex % 256;
      } else {
        buffer[bufferIndex] := indexC;
        indexC := (indexC + 1) % 256;
      }
      if indexC == 0 { indexC := 1; }
      bufferIndex := bufferIndex + 1;
    }
  }

  lemma PacketByte(n: nat, size: nat, d: nat)
    requires d < size
    ensures StreamPacket(n, size)[d] == (if d == 0 then 0 else if d == 1 then Key(n) else Pattern(d))
    ensures d >= 1 ==> Pattern(d + 1) == if Pattern(d) == 255 then 1 else Pattern(d) + 1
    ensures Pattern(2) == 2
  {}

  // ---- The checker ----

  /** All bytes but the key are as they should be. */
  predicate IsPattern(packet: seq<byte>)
  {
    forall i :: 0 <= i < |packet| && i != 1 ==> packet[i] == Pattern(i)
  }

  function FirstPacket(data: seq<byte>, size: nat): seq<byte>
  {
    if |data| > size then data[..size] else data
  }

  /** Whether a packet is reported, given the key of the one before it if that was good: its
      bytes are wrong, or its key is neither the next one nor 0. */
  predicate Bad(packet: seq<byte>, before: Option<byte>)
    requires |packet| >= 2
  {
    !IsPattern(packet) || (before.Some? && packet[1] != 0 && packet[1] != NextKey(before.value))
  }

  /** Which packets of the data are reported. */
  function Reports(data: seq<byte>, size: nat, before: Option<byte>): (reports: seq<bool>)
    requires size >= 2
  {
    if |data| <= 1 then [] else
      var packet := FirstPacket(data, size);
      var bad := Bad(packet, before);
      [bad] + Reports(data[|packet|..], size, if bad then None else Some(packet[1]))
  }

  /** The decision of the loop body of VerifyData, by comparison with the whole buffer. */
  lemma Decision(packet: seq<byte>, verify: seq<byte>, before: Option<byte>, keyC: byte, key: byte)
    requires |verify| >= |packet| >= 2
    requires IsPattern(verify)
    requires before.Some? ==> keyC == before.value
    requires key == if before.None? then packet[1] else if packet[1] == 0 then 0 else NextKey(keyC)
    ensures Bad(packet, before) <==> packet != verify[1 := key][..|packet|]
    ensures !Bad(packet, before) ==> key == packet[1]
  {
    var expected := verify[1 := key][..|packet|];
    if packet == expected {
      assert forall i :: 0 <= i < |packet| ==> packet[i] == expected[i];
    }
  }

  /** One packet of VerifyData: the expected key goes into the pattern, then all is compared. */
  method VerifyPacket(verifyBuffer: array<byte>, packet: seq<byte>, seedKey: bool, lastKey: byte)
    returns (keyC: byte, mismatch: bool)
    requires verifyBuffer.Length >= |packet| >= 2
    requires IsPattern(verifyBuffer[..])
    modifies verifyBuffer
    ensures mismatch <==> Bad(packet, if seedKey then None else Some(lastKey))
    ensures !mismatch ==> keyC == packet[1]
    ensures IsPattern(verifyBuffer[..])
  {
    hide Bad, Pattern;
    ghost var verify := verifyBuffer[..];
    if seedKey {
      keyC := packet[1];
    } else if packet[1] == 0 {
      keyC := 0;
    } else {
      keyC := (lastKey + 1) % 256;
    }
    verifyBuffer[1] := keyC;
    Decision(packet, verify, if seedKey then None else Some(lastKey), lastKey, keyC);
    assert verifyBuffer[..] == verify[1 := keyC];
    KeyIsFree(verify, keyC);
    mismatch := packet != verifyBuffer[..|packet|];
  }

  lemma KeyIsFree(verify: seq<byte>, key: byte)
    requires |verify| >= 2 && IsPattern(verify)
    ensures IsPattern(verify[1 := key])
  {}

  /** VerifyData: the out-parameter stands for the messages, packet by packet. */
  method VerifyData(verifyBuffer: array<byte>, data: seq<byte>) returns (reports: seq<bool>)
    requires verifyBuffer.Length >= 2
    requires IsPattern(verifyBuffer[..])
    modifies verifyBuffer
    ensures reports == Reports(data, verifyBuffer.Length, None)
    ensures IsPattern(verifyBuffer[..])
  {
    hide Bad, IsPattern, Pattern, Reports;
    reports := [];
    var keyC: byte := 0;
    var seedKey := true;
    var dataLeft, dataIndex := |data|, 0;
    assert data[0..] == data;
    while dataLeft > 1
      invariant 0 <= dataLeft && dataIndex + dataLeft == |data|
      invariant IsPattern(verifyBuffer[..])
      invariant reports + Reports(data[dataIndex..], verifyBuffer.Length, if seedKey then None else Some(keyC))
             == Reports(data, verifyBuffer.Length, None)
    {
      var verifyDataSize := if dataLeft > verifyBuffer.Length then verifyBuffer.Length else dataLeft;
      var packet := data[dataIndex..dataIndex + verifyDataSize];
      NextReport(data, dataIndex, verifyBuffer.Length, if seedKey then None else Some(keyC));
      keyC, seedKey := VerifyPacket(verifyBuffer, packet, seedKey, keyC);
      reports := reports + [seedKey];
      dataLeft := dataLeft - verifyDataSize;
      dataIndex := dataIndex + verifyDataSize;
    }
    NoReport(data[dataIndex..], verifyBuffer.Length, if seedKey then None else Some(keyC));
  }

  lemma NoReport(data: seq<byte>, size: nat, before: Option<byte>)
    requires size >= 2 && |data| <= 1
    ensures Reports(data, size, before) == []
  {}

  lemma NextReport(data: seq<byte>, at: nat, size: nat, before: Option<byte>)
    requires size >= 2 && at + 1 < |data|
    ensures var n := if |data| - at > size then size else |data| - at;
      var packet := data[at..at + n];
      var bad := Bad(packet, before);
      Reports(data[at..], size, before) == [bad] + Reports(data[at + n..], size, if bad then None else Some(packet[1]))
  {
    hide Bad;
    var n := if |data| - at > size then size else |data| - at;
    assert FirstPacket(data[at..], size) == data[at..at + n];
    assert data[at..][n..] == data[at + n..];
  }

  // ---- Which packets are reported ----

  /** The packets of the data; the last one may be shorter, and one byte alone is not looked
      at. */
  function Packets(data: seq<byte>, size: nat): (packets: seq<seq<byte>>)
    requires size >= 2
    ensures forall p :: 0 <= p < |packets| ==> 2 <= |packets[p]| <= size
  {
    if |data| <= 1 then [] else [FirstPacket(data, size)] + Packets(data[|FirstPacket(data, size)|..], size)
  }

  lemma {:induction false} OneReportEach(data: seq<byte>, size: nat, before: Option<byte>)
    requires size >= 2
    ensures |Reports(data, size, before)| == |Packets(data, size)|
  {
    hide Bad, FirstPacket;
    FirstIsLong(data, size);
    if |data| > 1 {
      var packet := FirstPacket(data, size);
      OneReportEach(data[|packet|..], size, if Bad(packet, before) then None else Some(packet[1]));
    }
  }

  /** A packet is reported exactly if a byte other than the key is wrong, or if the packet
      before it was good and its key is neither 0 nor the next one. */
  lemma {:induction false} ReportedExactly(data: seq<byte>, size: nat, before: Option<byte>, p: nat)
    requires size >= 2 && p < |Packets(data, size)|
    ensures var reports, packets := Reports(data, size, before), Packets(data, size);
      && |reports| == |packets|
      && (reports[p] <==> Bad(packets[p],
            if p == 0 then before else if reports[p - 1] then None else Some(packets[p - 1][1])))
    decreases p
  {
    hide Bad, FirstPacket;
    FirstIsLong(data, size);
    OneReportEach(data, size, before);
    if p > 0 {
      var packet := FirstPacket(data, size);
      ReportedExactly(data[|packet|..], size, if Bad(packet, before) then None else Some(packet[1]), p - 1);
    }
  }

  lemma FirstIsLong(data: seq<byte>, size: nat)
    ensures size >= 2 && |data| > 1 ==> 2 <= |FirstPacket(data, size)| <= |data|
  {}

  lemma {:induction false} StreamFromFront(n: nat, count: nat, size: nat)
    requires count > 0
    ensures Stream(n, count, size) == StreamPacket(n, size) + Stream(n + 1, count - 1, size)
  {
    if count == 1 {
      assert Stream(n, 0, size) == [];
    } else {
      StreamFromFront(n, count - 1, size);
    }
  }

  /** The key before packet n + count, given the one before packet n. */
  function LastKey(n: nat, count: nat, before: Option<byte>): Option<byte>
  {
    if count == 0 then before else Some(Key(n + count - 1))
  }

  lemma FirstReport(packet: seq<byte>, rest: seq<byte>, size: nat, before: Option<byte>)
    requires |packet| == size >= 2
    ensures var bad := Bad(packet, before);
      Reports(packet + rest, size, before) == [bad] + Reports(rest, size, if bad then None else Some(packet[1]))
  {
    hide Bad;
    assert FirstPacket(packet + rest, size) == packet;
    assert (packet + rest)[size..] == rest;
  }

  /** What a packet of the stream is reported for. */
  lemma StreamPacketReport(n: nat, size: nat, before: Option<byte>)
    requires size >= 2
    ensures Bad(StreamPacket(n, size), before) <==> before.Some? && Key(n) != 0 && Key(n) != NextKey(before.value)
    ensures StreamPacket(n, size)[1] == Key(n)
  {
    hide Pattern, Key, NextKey;
  }

  /** No packet of the stream is reported, wherever it begins and whatever follows. */
  lemma {:induction false} StreamPasses(n: nat, count: nat, size: nat, rest: seq<byte>, before: Option<byte>)
    requires size >= 2
    requires before.Some? ==> Key(n) == 0 || Key(n) == NextKey(before.value)
    ensures Reports(Stream(n, count, size) + rest, size, before)
         == seq(count, _ => false) + Reports(rest, size, LastKey(n, count, before))
    decreases count
  {
    hide Pattern, StreamPacket, Key, NextKey, Bad, Reports;
    if count == 0 {
      assert Stream(n, 0, size) + rest == rest;
    } else {
      var packet, more := StreamPacket(n, size), Stream(n + 1, count - 1, size);
      StreamFromFront(n, count, size);
      assert Stream(n, count, size) + rest == packet + (more + rest);
      FirstReport(packet, more + rest, size, before);
      StreamPacketReport(n, size, before);
      KeysCount(n);
      StreamPasses(n + 1, count - 1, size, rest, Some(Key(n)));
      assert seq(count, _ => false) == [false] + seq(count - 1, _ => false);
    }
  }

  /** Any piece of the stream passes if it begins at a packet boundary, even when its last
      packet is cut short. */
  lemma PiecePasses(n: nat, count: nat, size: nat, t: nat)
    requires size >= 2 && t <= size
    ensures true !in Reports(Stream(n, count, size) + StreamPacket(n + count, size)[..t], size, None)
  {
    hide Pattern, StreamPacket, Key, NextKey, Bad, Reports;
    var rest := StreamPacket(n + count, size)[..t];
    StreamPasses(n, count, size, rest, None);
    if count > 0 { KeysCount(n + count - 1); }
    ShortPacket(n + count, size, t, LastKey(n, count, None));
  }

  lemma ShortPacket(n: nat, size: nat, t: nat, before: Option<byte>)
    requires size >= 2 && t <= size && (before.Some? ==> Key(n) == NextKey(before.value))
    ensures true !in Reports(StreamPacket(n, size)[..t], size, before)
  {
    hide Pattern, Key, NextKey;
    var rest := StreamPacket(n, size)[..t];
    if t > 1 {
      assert FirstPacket(rest, size) == rest;
      assert rest[t..] == [];
    }
  }

  // ---- Lost packets ----

  /** A key that does not give a gap in front of it away. */
  predicate Escapes(key: byte, expected: byte)
  {
    key == 0 || key == expected
  }

  /** Lost packets are reported, in the first packet behind the gap, exactly if there is a
      packet on either side of it in the data and the key behind it is neither 0 nor, by
      wrap-around, the expected one. */
  lemma LossIsReported(n: nat, count: nat, m: nat, more: nat, size: nat)
    requires size >= 2
    ensures var reports := Reports(Stream(n, count, size) + Stream(m, more, size), size, None);
      && (true in reports <==> count > 0 && more > 0 && !Escapes(m % 256, (n + count) % 256))
      && (true in reports ==> |reports| > count && reports[count])
  {
    hide Pattern, StreamPacket, Key, NextKey, Bad, Reports;
    var rest, last := Stream(m, more, size), LastKey(n, count, None);
    StreamPasses(n, count, size, rest, None);
    if more == 0 {
      NoReport(rest, size, last);
    } else {
      if count > 0 { KeysCount(n + count - 1); }
      KeysAre(n + count);
      KeysAre(m);
      StreamFromFront(m, more, size);
      FirstReport(StreamPacket(m, size), Stream(m + 1, more - 1, size), size, last);
      StreamPacketReport(m, size, last);
      EscapesAltogether(m, more, size, last);
    }
  }

  lemma KeysAre(n: nat)
    ensures Key(n) == n % 256
  {}

  /** If the first packet passes, so do all. */
  lemma EscapesAltogether(m: nat, more: nat, size: nat, last: Option<byte>)
    requires size >= 2
    ensures (last.Some? ==> Key(m) == 0 || Key(m) == NextKey(last.value)) ==>
      true !in Reports(Stream(m, more, size), size, last)
  {
    hide Pattern, StreamPacket, Key, NextKey, Bad;
    if last.Some? ==> Key(m) == 0 || Key(m) == NextKey(last.value) {
      StreamPasses(m, more, size, [], last);
      assert Stream(m, more, size) + [] == Stream(m, more, size);
    }
  }

  // ---- Transfers ----

  /** What VerifyData reports of a run of transfers: each is checked by a call of its own, which
      knows nothing of the one before. */
  function TransferReports(data: seq<byte>, size: nat, transfer: nat): (reports: seq<bool>)
    requires size >= 2 && transfer > 0
  {
    if data == [] then [] else
      Reports(FirstPacket(data, transfer), size, None) +
      TransferReports(data[|FirstPacket(data, transfer)|..], size, transfer)
  }

  /** The calls of VerifyData in TransferThreadProc, one for each transfer. */
  method VerifyTransfers(verifyBuffer: array<byte>, data: seq<byte>, transfer: nat) returns (reports: seq<bool>)
    requires verifyBuffer.Length >= 2 && IsPattern(verifyBuffer[..]) && transfer > 0
    modifies verifyBuffer
    ensures reports == TransferReports(data, verifyBuffer.Length, transfer)
  {
    hide Reports, IsPattern;
    reports := [];
    var at := 0;
    assert data[0..] == data;
    while at < |data|
      invariant at <= |data| && IsPattern(verifyBuffer[..])
      invariant reports + TransferReports(data[at..], verifyBuffer.Length, transfer)
             == TransferReports(data, verifyBuffer.Length, transfer)
    {
      var chunk := FirstPacket(data[at..], transfer);
      var more := VerifyData(verifyBuffer, chunk);
      assert data[at..][|chunk|..] == data[at + |chunk|..];
      reports := reports + more;
      at := at + |chunk|;
    }
  }

  /** The stream can be cut at any packet. */
  lemma {:induction false} StreamSplit(n: nat, a: nat, b: nat, size: nat)
    ensures Stream(n, a + b, size) == Stream(n, a, size) + Stream(n + a, b, size)
  {
    hide StreamPacket;
    if b > 0 { StreamSplit(n, a, b - 1, size); }
  }

  /** The first transfer of a run, and the others. */
  lemma OneTransfer(first: seq<byte>, rest: seq<byte>, size: nat, transfer: nat)
    requires size >= 2 && |first| == transfer > 0
    ensures TransferReports(first + rest, size, transfer) ==
      Reports(first, size, None) + TransferReports(rest, size, transfer)
  {
    hide Reports;
    assert FirstPacket(first + rest, transfer) == first;
    assert (first + rest)[transfer..] == rest;
  }

  lemma LastTransfer(data: seq<byte>, size: nat, transfer: nat)
    requires size >= 2 && |data| <= transfer && transfer > 0
    ensures TransferReports(data, size, transfer) == if data == [] then [] else Reports(data, size, None)
  {
    hide Reports;
    assert FirstPacket(data, transfer) == data;
    assert data[|data|..] == [];
  }

  /** `per` packets of `size` bytes fill a transfer exactly: the benchmark refuses a buffer size
      that is no multiple of the packet size. */
  lemma TransferLength(n: nat, count: nat, per: nat, size: nat)
    ensures |Stream(n, count, size)| == count * size
    ensures count == per ==> |Stream(n, count, size)| == per * size
    ensures count <= per ==> |Stream(n, count, size)| <= per * size
  {
    StreamLength(n, count, size);
    if count < per { Fits(count, per, size); }
  }

  /** A stream without a gap passes in transfers of any number of packets. */
  lemma {:induction false} TransfersPass(n: nat, count: nat, size: nat, per: nat)
    requires size >= 2 && per > 0 && per * size > 0
    ensures true !in TransferReports(Stream(n, count, size), size, per * size)
    decreases count
  {
    hide Stream, Reports, TransferReports;
    if count <= per {
      TransferLength(n, count, per, size);
      LastTransfer(Stream(n, count, size), size, per * size);
      EscapesAltogether(n, count, size, None);
    } else {
      StreamSplit(n, per, count - per, size);
      TransferLength(n, per, per, size);
      OneTransfer(Stream(n, per, size), Stream(n + per, count - per, size), size, per * size);
      EscapesAltogether(n, per, size, None);
      TransfersPass(n + per, count - per, size, per);
    }
  }

  /** The exact condition for a whole run: lost packets are reported if and only if the gap is
      inside a transfer, with a packet behind it, and the key behind it does not happen to be 0
      or the expected one. */
  lemma {:induction false} LossInTransfers(n: nat, count: nat, m: nat, more: nat, size: nat, per: nat)
    requires size >= 2 && per > 0 && per * size > 0
    ensures true in TransferReports(Stream(n, count, size) + Stream(m, more, size), size, per * size)
       <==> count % per != 0 && more > 0 && !Escapes(m % 256, (n + count) % 256)
    decreases count
  {
    hide Stream, Reports, TransferReports, Escapes;
    var data := Stream(n, count, size) + Stream(m, more, size);
    if count >= per {
      StreamSplit(n, per, count - per, size);
      TransferLength(n, per, per, size);
      var rest := Stream(n + per, count - per, size) + Stream(m, more, size);
      assert data == Stream(n, per, size) + rest;
      OneTransfer(Stream(n, per, size), rest, size, per * size);
      EscapesAltogether(n, per, size, None);
      LossInTransfers(n + per, count - per, m, more, size, per);
      Earlier(count, per);
    } else if count + more <= per {
      SmallRemainder(count, per);
      TransferLength(n, count, per, size);
      TransferLength(m, more, per, size);
      TransferLength(n, count + more, per, size);
      Both(count, more, size);
      LastTransfer(data, size, per * size);
      LossIsReported(n, count, m, more, size);
      NoReport([], size, None);
    } else {
      SmallRemainder(count, per);
      var k := per - count;
      StreamSplit(m, k, more - k, size);
      TransferLength(n, count, per, size);
      TransferLength(m, k, per, size);
      Both(count, k, size);
      var first, rest := Stream(n, count, size) + Stream(m, k, size), Stream(m + k, more - k, size);
      assert data == first + rest;
      OneTransfer(first, rest, size, per * size);
      LossIsReported(n, count, m, k, size);
      TransfersPass(m + k, more - k, size, per);
    }
  }

  lemma Both(a: nat, b: nat, size: nat)
    ensures a * size + b * size == (a + b) * size
  {}

  lemma Earlier(a: nat, per: nat)
    requires 0 < per <= a
    ensures a % per == (a - per) % per
  {
    Quotient(a, (a - per) / per + 1, (a - per) % per, per);
  }

  // ---- The loop test ----

  /** What Fill leaves in the buffer, looked at from any packet boundary to any byte. */
  lemma SliceOfStream(count: nat, size: nat, a: nat, b: nat, t: nat)
    requires size > 0 && a + b <= count && t <= size && (t > 0 ==> a + b < count)
    ensures a * size <= (a + b) * size + t <= |Stream(0, count, size)|
    ensures Stream(0, count, size)[a * size..(a + b) * size + t] == Stream(a, b, size) + StreamPacket(a + b, size)[..t]
  {
    hide Stream, StreamPacket;
    var c := count - a - b;
    StreamSplit(0, a, b + c, size);
    StreamSplit(a, b, c, size);
    StreamLength(0, count, size);
    StreamLength(0, a, size);
    StreamLength(a, b, size);
    Both(a, b, size);
    var tail := Stream(a + b, c, size);
    if c > 0 {
      StreamFromFront(a + b, c, size);
      Fits(a + b, count, size);
    }
    var whole := Stream(0, a, size) + (Stream(a, b, size) + tail);
    assert whole[a * size..(a + b) * size + t] == (Stream(a, b, size) + tail)[..b * size + t];
  }

  lemma SliceOfPrefix(s: seq<byte>, end: nat, from: nat, to: nat)
    requires from <= to <= end <= |s|
    ensures s[..end][from..to] == s[from..to]
  {}

  /** The writing side fills its buffers, the reading side checks what comes back, beginning at
      any packet and ending anywhere: nothing is reported. */
  method LoopTest(buffer: array<byte>, wMaxPacketSize: nat, a: nat, b: nat, t: nat) returns (reports: seq<bool>)
    requires wMaxPacketSize >= 2 && t <= wMaxPacketSize
    requires var count := buffer.Length / wMaxPacketSize; a + b <= count && (t > 0 ==> a + b < count)
    modifies buffer
    ensures true !in reports
  {
    hide Reports, StreamPacket, Stream;
    Fill(buffer, wMaxPacketSize);
    ghost var count := buffer.Length / wMaxPacketSize;
    SliceOfStream(count, wMaxPacketSize, a, b, t);
    StreamLength(0, count, wMaxPacketSize);
    var from, to := a * wMaxPacketSize, (a + b) * wMaxPacketSize + t;
    SliceOfPrefix(buffer[..], count * wMaxPacketSize, from, to);
    var verifyBuffer := CreateVerifyBuffer(wMaxPacketSize);
    reports := VerifyData(verifyBuffer, buffer[from..to]);
    PiecePasses(a, b, wMaxPacketSize, t);
  }
}
