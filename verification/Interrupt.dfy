/** The interrupt as a function: what a packet does to the variables it shares with the main
    loop, and what an observer writes down (asmcommon.inc). */
module Interrupt {
  import opened Bits
  import opened BusTraffic
  import opened ControlTransfer
  import opened Endpoint

  // handshakes, as values of usbTxLen and as answers
  const TX_NAK := 0x5a
  const TX_ACK := 0xd2

  /** All handshake tokens have bit 4 set; lengths 4 to 12 do not. */
  predicate IsHandshake(txLen: nat) { txLen / 16 % 2 == 1 }

  /** The variables that the interrupt changes. */
  datatype Shared = Shared(rx: seq<bv8>, offset: nat, rxLen: nat, rxToken: bv8, token: bv8, txLen: nat, address: bv8)
  {
    predicate Valid()
    {
      |rx| == 22 && (offset == 0 || offset == 11) && (IsHandshake(txLen) || 4 <= txLen <= 12)
    }

    /** A DATA packet is ready, and nothing waits to be processed. */
    predicate Ready() { rxLen == 0 && !IsHandshake(txLen) }
  }

  /** What it reads besides: usbNewDeviceAddr and usbTxBuf. */
  datatype Outgoing = Outgoing(newAddress: bv8, tx: seq<bv8>)

  /** The receiver has written over the buffer, at most eleven bytes. */
  function Overwritten(rx: seq<bv8>, at: nat, packet: seq<bv8>): (after: seq<bv8>)
    requires at + 11 <= |rx|
    ensures |after| == |rx|
  {
    var n := if |packet| > 11 then 11 else |packet|;
    rx[..at] + packet[..n] + rx[at + n..]
  }

  /** The token is for this device: a packet of one byte is taken with what lies behind it in the
      buffer. */
  predicate ForUs(s: Shared, packet: seq<bv8>)
    requires s.Valid()
  {
    Lsl(Overwritten(s.rx, s.offset, packet)[s.offset + 1]) == s.address
  }

  predicate Accepting(s: Shared, packet: seq<bv8>)
  {
    CarriesData(packet) && s.token != 0 && s.rxLen == 0
  }

  predicate Asking(s: Shared, packet: seq<bv8>)
    requires s.Valid()
  {
    1 <= |packet| <= 11 && !IsData(packet) && packet[0] == IN && ForUs(s, packet)
  }

  /** The token in force behind a packet. */
  function TokenAfter(s: Shared, packet: seq<bv8>): bv8
    requires s.Valid()
  {
    if packet == [] then s.token
    else if |packet| > 11 then 0
    else if IsData(packet) || Asking(s, packet) then s.token
    else if ForUs(s, packet) && (packet[0] == SETUP || packet[0] == OUT) then packet[0]
    else 0
  }

  function After(s: Shared, out: Outgoing, packet: seq<bv8>): (t: Shared)
    requires s.Valid() && |out.tx| == 11
    ensures t.Valid()
  {
    var t := s.(rx := Overwritten(s.rx, s.offset, packet), token := TokenAfter(s, packet));
    if Accepting(s, packet) then t.(rxLen := |packet|, rxToken := s.token, offset := 11 - s.offset)
    else if Asking(s, packet) && s.Ready() then t.(txLen := TX_NAK, address := out.newAddress << 1)
    else t
  }

  /** At most one event for a packet. */
  function Noted(s: Shared, out: Outgoing, packet: seq<bv8>): seq<Event>
    requires s.Valid() && |out.tx| == 11
  {
    if Accepting(s, packet) then [Accepted(s.token, Payload(packet))]
    else if Asking(s, packet) && s.Ready() then [Sent(out.tx[..s.txLen - 1])]
    else []
  }

  datatype Response = Silence | Handshake(pid: nat) | Data(packet: seq<bv8>)

  /** What the device answers. */
  function Answer(s: Shared, out: Outgoing, packet: seq<bv8>): Response
    requires s.Valid() && |out.tx| == 11 && 1 <= |packet| <= 11
  {
    if IsData(packet) then
      if s.token == 0 then Silence else Handshake(if s.rxLen > 0 then TX_NAK else TX_ACK)
    else if Asking(s, packet) then
      if s.rxLen > 0 then Handshake(TX_NAK)
      else if IsHandshake(s.txLen) then Handshake(s.txLen)
      else Data(out.tx[..s.txLen - 1])
    else Silence
  }

  // ---- The branches of the interrupt ----

  /** handleData, with cnt bytes in the buffer. */
  function DataStep(s: Shared, cnt: nat): Shared
  {
    if s.token != 0 && s.rxLen == 0 && cnt >= 4
    then s.(rxLen := cnt, rxToken := s.token, offset := if s.offset <= 11 then 11 - s.offset else 0)
    else s
  }

  function DataNoted(s: Shared, cnt: nat): seq<Event>
    requires s.Valid() && cnt <= 11
  {
    if s.token != 0 && s.rxLen == 0 && cnt >= 4
    then [Accepted(s.token, s.rx[s.offset + 1..s.offset + 1 + cnt - 3])]
    else []
  }

  function DataAnswer(s: Shared): Response
  {
    if s.token == 0 then Silence else Handshake(if s.rxLen > 0 then TX_NAK else TX_ACK)
  }

  /** The other branch, with token and address byte. */
  function TokenStep(s: Shared, out: Outgoing, token: bv8, x2: bv8): Shared
  {
    if x2 != s.address then s.(token := 0)
    else if token == IN then (if s.Ready() then s.(txLen := TX_NAK, address := out.newAddress << 1) else s)
    else s.(token := if token == SETUP || token == OUT then token else 0)
  }

  function TokenNoted(s: Shared, out: Outgoing, token: bv8, x2: bv8): seq<Event>
    requires s.Valid() && |out.tx| == 11
  {
    if x2 == s.address && token == IN && s.Ready() then [Sent(out.tx[..s.txLen - 1])] else []
  }

  function TokenAnswer(s: Shared, out: Outgoing, token: bv8, x2: bv8): Response
    requires s.Valid() && |out.tx| == 11
  {
    if x2 != s.address || token != IN then Silence
    else if s.rxLen > 0 then Handshake(TX_NAK)
    else if IsHandshake(s.txLen) then Handshake(s.txLen)
    else Data(out.tx[..s.txLen - 1])
  }

  /** handleIn: the three ways out. */
  lemma OfIn(s: Shared, out: Outgoing)
    requires s.Valid() && |out.tx| == 11
    ensures s.Ready() ==>
      && TokenStep(s, out, IN, s.address) == s.(txLen := TX_NAK, address := out.newAddress << 1)
      && TokenNoted(s, out, IN, s.address) == [Sent(out.tx[..s.txLen - 1])]
      && TokenAnswer(s, out, IN, s.address) == Data(out.tx[..s.txLen - 1])
    ensures !s.Ready() ==>
      && TokenStep(s, out, IN, s.address) == s && TokenNoted(s, out, IN, s.address) == []
      && TokenAnswer(s, out, IN, s.address) == Handshake(if s.rxLen > 0 then TX_NAK else s.txLen)
  {
    hide IsHandshake;
  }

  function Stored(s: Shared, packet: seq<bv8>): (t: Shared)
    requires s.Valid()
    ensures t.Valid() && t == s.(rx := t.rx)
  {
    s.(rx := Overwritten(s.rx, s.offset, packet))
  }

  lemma OfData(s: Shared, out: Outgoing, packet: seq<bv8>)
    requires s.Valid() && |out.tx| == 11 && 1 <= |packet| <= 11 && IsData(packet)
    ensures var t := Stored(s, packet);
      && t.rx[s.offset] == packet[0]
      && After(s, out, packet) == DataStep(t, |packet|) && Noted(s, out, packet) == DataNoted(t, |packet|)
      && Answer(s, out, packet) == DataAnswer(t)
  {
    hide IsHandshake;
    if |packet| >= 3 { PayloadIs(s, packet); }
  }

  lemma PayloadIs(s: Shared, packet: seq<bv8>)
    requires s.Valid() && 3 <= |packet| <= 11
    ensures Stored(s, packet).rx[s.offset + 1..s.offset + 1 + |packet| - 3] == Payload(packet)
  {}

  lemma OfToken(s: Shared, out: Outgoing, packet: seq<bv8>)
    requires s.Valid() && |out.tx| == 11 && 1 <= |packet| <= 11 && !IsData(packet)
    ensures var t := Stored(s, packet);
      var x2 := Lsl(t.rx[s.offset + 1]);
      && t.rx[s.offset] == packet[0] && (|packet| >= 2 ==> t.rx[s.offset + 1] == packet[1])
      && After(s, out, packet) == TokenStep(t, out, packet[0], x2)
      && Noted(s, out, packet) == TokenNoted(t, out, packet[0], x2)
      && Answer(s, out, packet) == TokenAnswer(t, out, packet[0], x2)
  {
    hide IsHandshake;
    if |packet| >= 2 { SecondByte(s, packet); }
  }

  /** What this means, case by case. */
  lemma InWords(s: Shared, out: Outgoing, packet: seq<bv8>)
    requires s.Valid() && |out.tx| == 11 && 1 <= |packet| <= 11
    ensures var t, noted, answer := After(s, out, packet), Noted(s, out, packet), Answer(s, out, packet);
      && (IsData(packet) ==>
            && t.token == s.token
            && answer == (if s.token == 0 then Silence else Handshake(if s.rxLen > 0 then TX_NAK else TX_ACK))
            && noted ==
                 if s.token != 0 && s.rxLen == 0 && |packet| >= 4 then [Accepted(s.token, Payload(packet))] else [])
      && (!IsData(packet) ==> noted == if answer.Data? then [Sent(answer.packet)] else [])
      && (t.token == SETUP ==> SetupAfter(s.token == SETUP, packet))
      && (!IsData(packet) && packet[0] != IN ==> answer == Silence)
      && (!IsData(packet) && packet[0] !in {IN, SETUP, OUT} ==> t.token == 0)
      && (!IsData(packet) && |packet| >= 2 && packet[0] != IN ==>
            t.token ==
              if Lsl(packet[1]) == s.address && (packet[0] == SETUP || packet[0] == OUT) then packet[0] else 0)
      && (|packet| >= 2 && packet[0] == IN ==>
            && answer == (
                 if Lsl(packet[1]) != s.address then Silence
                 else if s.rxLen > 0 then Handshake(TX_NAK)
                 else if IsHandshake(s.txLen) then Handshake(s.txLen)
                 else Data(out.tx[..s.txLen - 1]))
            && (answer.Data? ==> t.txLen == TX_NAK))
  {
    hide Overwritten, Payload, IsHandshake;
    if |packet| >= 2 { SecondByte(s, packet); }
  }

  lemma OfTooMuch(s: Shared, out: Outgoing, packet: seq<bv8>)
    requires s.Valid() && |out.tx| == 11 && |packet| > 11
    ensures After(s, out, packet) == Stored(s, packet[..11]).(token := 0)
    ensures Noted(s, out, packet) == []
  {}

  lemma OfNothing(s: Shared, out: Outgoing)
    requires s.Valid() && |out.tx| == 11
    ensures After(s, out, []) == s && Noted(s, out, []) == []
  {
    assert Overwritten(s.rx, s.offset, []) == s.rx;
  }

  // ---- Many packets ----

  function AfterAll(s: Shared, out: Outgoing, packets: seq<seq<bv8>>): (t: Shared)
    requires s.Valid() && |out.tx| == 11
    ensures t.Valid()
  {
    if packets == [] then s
    else After(AfterAll(s, out, packets[..|packets| - 1]), out, packets[|packets| - 1])
  }

  function NotedAll(s: Shared, out: Outgoing, packets: seq<seq<bv8>>): seq<Event>
    requires s.Valid() && |out.tx| == 11
  {
    if packets == [] then []
    else NotedAll(s, out, packets[..|packets| - 1]) +
         Noted(AfterAll(s, out, packets[..|packets| - 1]), out, packets[|packets| - 1])
  }

  lemma OneMoreHeard(s: Shared, out: Outgoing, packets: seq<seq<bv8>>, i: nat)
    requires s.Valid() && |out.tx| == 11 && i < |packets|
    ensures AfterAll(s, out, packets[..i + 1]) == After(AfterAll(s, out, packets[..i]), out, packets[i])
    ensures NotedAll(s, out, packets[..i + 1]) ==
      NotedAll(s, out, packets[..i]) + Noted(AfterAll(s, out, packets[..i]), out, packets[i])
  {
    assert packets[..i + 1][..i] == packets[..i];
  }

  /** State and history behind some packets. */
  predicate Heard(s: Shared, out: Outgoing, packets: seq<seq<bv8>>, before: seq<Event>, now: Shared, log: seq<Event>)
    requires s.Valid() && |out.tx| == 11
  {
    now == AfterAll(s, out, packets) && log == before + NotedAll(s, out, packets)
  }

  lemma HeardMore(s: Shared, out: Outgoing, packets: seq<seq<bv8>>, i: nat, before: seq<Event>, now: Shared,
                  log: seq<Event>)
    requires s.Valid() && |out.tx| == 11 && i < |packets| && Heard(s, out, packets[..i], before, now, log)
    ensures now.Valid() &&
      Heard(s, out, packets[..i + 1], before, After(now, out, packets[i]), log + Noted(now, out, packets[i]))
  {
    hide After, Noted;
    OneMoreHeard(s, out, packets, i);
  }

  lemma HeardNone(s: Shared, out: Outgoing, packets: seq<seq<bv8>>, log: seq<Event>)
    requires s.Valid() && |out.tx| == 11
    ensures Heard(s, out, packets[..0], log, s, log)
  {
    assert packets[..0] == [];
  }

  lemma HeardAll(s: Shared, out: Outgoing, packets: seq<seq<bv8>>, before: seq<Event>, now: Shared, log: seq<Event>)
    requires s.Valid() && |out.tx| == 11 && Heard(s, out, packets[..|packets|], before, now, log)
    ensures now == AfterAll(s, out, packets) && log == before + NotedAll(s, out, packets)
  {
    assert packets[..|packets|] == packets;
  }

  lemma {:induction false} HeardInParts(s: Shared, out: Outgoing, a: seq<seq<bv8>>, b: seq<seq<bv8>>)
    requires s.Valid() && |out.tx| == 11
    ensures AfterAll(s, out, a + b) == AfterAll(AfterAll(s, out, a), out, b)
    ensures NotedAll(s, out, a + b) == NotedAll(s, out, a) + NotedAll(AfterAll(s, out, a), out, b)
  {
    hide After, Noted;
    if b == [] {
      assert a + b == a;
    } else {
      HeardInParts(s, out, a, b[..|b| - 1]);
      assert (a + b)[..|a + b| - 1] == a + b[..|b| - 1];
    }
  }

  /** What comes first is noted first. */
  lemma FirstHeard(s: Shared, out: Outgoing, packets: seq<seq<bv8>>)
    requires s.Valid() && |out.tx| == 11 && packets != []
    ensures NotedAll(s, out, packets) ==
      Noted(s, out, packets[0]) + NotedAll(After(s, out, packets[0]), out, packets[1..])
  {
    hide After, Noted;
    assert packets == [packets[0]] + packets[1..];
    HeardInParts(s, out, [packets[0]], packets[1..]);
    HeardAlone(s, out, packets[0]);
  }

  lemma HeardAlone(s: Shared, out: Outgoing, packet: seq<bv8>)
    requires s.Valid() && |out.tx| == 11
    ensures AfterAll(s, out, [packet]) == After(s, out, packet) && NotedAll(s, out, [packet]) == Noted(s, out, packet)
  {
    hide After, Noted;
    assert [packet][..0] == [];
  }

  // ---- What must happen ----

  /** A token for this device, whole. */
  predicate TokenFor(s: Shared, token: bv8, packet: seq<bv8>)
  {
    2 <= |packet| <= 11 && packet[0] == token && Lsl(packet[1]) == s.address
  }

  /** IN gets what is ready, once: the next one is in vain until something is ready again, and
      the new address counts from here on. */
  lemma ReadyIsSent(s: Shared, out: Outgoing, packet: seq<bv8>)
    requires s.Valid() && |out.tx| == 11 && TokenFor(s, IN, packet) && s.Ready()
    ensures Noted(s, out, packet) == [Sent(out.tx[..s.txLen - 1])]
    ensures Answer(s, out, packet) == Data(out.tx[..s.txLen - 1])
    ensures var t := After(s, out, packet);
      t.txLen == TX_NAK && !t.Ready() && t.address == out.newAddress << 1 && t.token == s.token && t.rxLen == 0
  {
    hide Overwritten, IsHandshake;
    SecondByte(s, packet);
  }

  lemma SecondByte(s: Shared, packet: seq<bv8>)
    requires s.Valid() && 2 <= |packet| <= 11
    ensures Overwritten(s.rx, s.offset, packet)[s.offset + 1] == packet[1]
  {}

  /** A SETUP or OUT transaction into a free buffer is accepted, whatever was before. */
  lemma TransactionIsAccepted(s: Shared, out: Outgoing, token: bv8, first: seq<bv8>, data: seq<bv8>)
    requires s.Valid() && |out.tx| == 11 && s.rxLen == 0
    requires (token == SETUP || token == OUT) && TokenFor(s, token, first) && CarriesData(data)
    ensures NotedAll(s, out, [first, data]) == [Accepted(token, Payload(data))]
    ensures Answer(s, out, first) == Silence && Answer(After(s, out, first), out, data) == Handshake(TX_ACK)
    ensures var t := AfterAll(s, out, [first, data]);
      && t.rxLen == |data| && t.rxToken == token && t.offset == 11 - s.offset
      && t.rx[s.offset..s.offset + |data|] == data && t.txLen == s.txLen && t.address == s.address
  {
    hide After, Noted, Answer, Payload, IsHandshake;
    TokenIsTaken(s, out, token, first);
    var t := After(s, out, first);
    DataIsTaken(t, out, data);
    assert [first, data] == [first] + [data];
    HeardInParts(s, out, [first], [data]);
    HeardAlone(s, out, first);
    HeardAlone(t, out, data);
  }

  lemma TokenIsTaken(s: Shared, out: Outgoing, token: bv8, first: seq<bv8>)
    requires s.Valid() && |out.tx| == 11 && (token == SETUP || token == OUT) && TokenFor(s, token, first)
    ensures var t := After(s, out, first); t == s.(rx := t.rx, token := token)
    ensures Noted(s, out, first) == [] && Answer(s, out, first) == Silence
  {
    hide Overwritten, Payload, IsHandshake;
    SecondByte(s, first);
  }

  lemma DataIsTaken(s: Shared, out: Outgoing, data: seq<bv8>)
    requires s.Valid() && |out.tx| == 11 && s.rxLen == 0 && s.token != 0 && CarriesData(data)
    ensures Noted(s, out, data) == [Accepted(s.token, Payload(data))] && Answer(s, out, data) == Handshake(TX_ACK)
    ensures var t := After(s, out, data);
      && t == s.(rx := t.rx, rxLen := |data|, rxToken := s.token, offset := 11 - s.offset)
      && t.rx[s.offset..s.offset + |data|] == data
  {
    hide Payload, IsHandshake;
  }

  /** Until the buffer is released, nothing is sent or accepted, and the half that holds the
      waiting packet is not written. */
  lemma {:induction false} WaitingIsKept(s: Shared, out: Outgoing, packets: seq<seq<bv8>>)
    requires s.Valid() && |out.tx| == 11 && s.rxLen > 0
    ensures NotedAll(s, out, packets) == []
    ensures var t := AfterAll(s, out, packets);
      && t == s.(rx := t.rx, token := t.token)
      && t.rx[11 - s.offset..22 - s.offset] == s.rx[11 - s.offset..22 - s.offset]
  {
    if packets != [] {
      WaitingIsKept(s, out, packets[..|packets| - 1]);
    }
  }

  /** Meanwhile the host is put off: its data packet is not taken, and there is none for it. */
  lemma WaitingIsRefused(s: Shared, out: Outgoing, token: bv8, first: seq<bv8>, data: seq<bv8>)
    requires s.Valid() && |out.tx| == 11 && s.rxLen > 0 && TokenFor(s, token, first)
    ensures token == IN ==> Answer(s, out, first) == Handshake(TX_NAK)
    ensures (token == SETUP || token == OUT) && CarriesData(data) ==>
      Answer(s, out, first) == Silence && Answer(After(s, out, first), out, data) == Handshake(TX_NAK)
  {
    hide Overwritten, IsHandshake;
    SecondByte(s, first);
  }

  /** A token for another device, and what follows it up to the next token, does nothing. */
  lemma ForeignIsIgnored(s: Shared, out: Outgoing, first: seq<bv8>, data: seq<bv8>)
    requires s.Valid() && |out.tx| == 11 && 2 <= |first| <= 11 && !IsData(first) && Lsl(first[1]) != s.address
    requires CarriesData(data)
    ensures NotedAll(s, out, [first, data]) == []
    ensures Answer(s, out, first) == Silence && Answer(After(s, out, first), out, data) == Silence
    ensures var t := AfterAll(s, out, [first, data]); t == s.(rx := t.rx, token := 0)
  {
    hide Overwritten, Payload, IsHandshake;
    SecondByte(s, first);
    var t := After(s, out, first);
    assert [first, data] == [first] + [data];
    HeardInParts(s, out, [first], [data]);
    HeardAlone(s, out, first);
    HeardAlone(t, out, data);
  }
}
