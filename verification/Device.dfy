/** The driver: the interrupt side (asmcommon.inc) and the main loop side (usbdrv.c) sharing
    their variables without a lock. */
module Device {
  import opened Arithmetic
  import opened Bits
  import opened BusTraffic
  import opened Crc16
  import opened ControlTransfer
  import opened Endpoint
  import opened Interrupt

  /** usbMsgPtr: program memory, the two spare bytes of the transmit buffer, or
      usbConfiguration. */
  datatype MsgPtr = Flash(data: seq<bv8>, at: nat) | TxBuf(index: nat) | Configuration(offset: nat)

  const NO_MSG := 255

  function Advance(r: MsgPtr, n: nat): MsgPtr
  {
    match r
    case Flash(data, at) => Flash(data, at + n)
    case TxBuf(index) => TxBuf(index + n)
    case Configuration(offset) => Configuration(offset + n)
  }

  /** Where a pointer points: a piece of memory, and a place in it. */
  function Memory(r: MsgPtr, spare: seq<bv8>, configuration: bv8): (memory: seq<bv8>)
    requires |spare| == 2
    ensures |memory| == Size(r)
  {
    match r
    case Flash(data, at) => data
    case TxBuf(index) => spare
    case Configuration(offset) => [configuration]
  }

  function Size(r: MsgPtr): nat
  {
    match r
    case Flash(data, at) => |data|
    case TxBuf(index) => 2
    case Configuration(offset) => 1
  }

  function Place(r: MsgPtr): int
  {
    match r
    case Flash(data, at) => at
    case TxBuf(index) => index - 9
    case Configuration(offset) => offset
  }

  /** n bytes can be read through a pointer. */
  predicate Behind(r: MsgPtr, n: nat)
  {
    n == 0 || 0 <= Place(r) <= Place(r) + n <= Size(r)
  }

  /** The n bytes behind a pointer, given the two spare bytes of usbTxBuf and
      usbConfiguration. */
  function Bytes(r: MsgPtr, spare: seq<bv8>, configuration: bv8, n: nat): (bytes: seq<bv8>)
    requires |spare| == 2 && Behind(r, n)
    ensures |bytes| == n
  {
    if n == 0 then [] else Memory(r, spare, configuration)[Place(r)..Place(r) + n]
  }

  function Deref(r: MsgPtr, spare: seq<bv8>, configuration: bv8): bv8
    requires |spare| == 2 && Behind(r, 1)
  {
    Memory(r, spare, configuration)[Place(r)]
  }

  lemma AdvanceMoves(r: MsgPtr, spare: seq<bv8>, configuration: bv8, j: nat)
    requires |spare| == 2
    ensures Memory(Advance(r, j), spare, configuration) == Memory(r, spare, configuration)
    ensures Size(Advance(r, j)) == Size(r) && Place(Advance(r, j)) == Place(r) + j
    ensures Advance(Advance(r, j), 1) == Advance(r, j + 1)
  {}

  lemma BytesAt(r: MsgPtr, spare: seq<bv8>, configuration: bv8, n: nat, j: nat)
    requires |spare| == 2 && Behind(r, n) && j < n
    ensures Behind(Advance(r, j), 1)
    ensures Bytes(r, spare, configuration, n)[j] == Deref(Advance(r, j), spare, configuration)
    ensures Advance(Advance(r, j), 1) == Advance(r, j + 1)
  {
    hide Memory, Size, Place, Advance;
    AdvanceMoves(r, spare, configuration, j);
  }

  lemma SliceSplit(s: seq<bv8>, at: nat, n: nat, w: nat)
    requires at + n <= |s| && w <= n
    ensures s[at..at + n][..w] == s[at..at + w]
    ensures s[at..at + n][w..] == s[at + w..at + w + (n - w)]
  {}

  lemma BytesSplit(r: MsgPtr, spare: seq<bv8>, configuration: bv8, n: nat, w: nat)
    requires |spare| == 2 && Behind(r, n) && w <= n
    ensures Behind(r, w) && Bytes(r, spare, configuration, w) == Bytes(r, spare, configuration, n)[..w]
    ensures Behind(Advance(r, w), n - w)
    ensures Bytes(Advance(r, w), spare, configuration, n - w) == Bytes(r, spare, configuration, n)[w..]
  {
    hide Memory, Size, Place, Advance;
    AdvanceMoves(r, spare, configuration, w);
    if 0 < w < n {
      hide Bytes;
      BytesPrefix(r, spare, configuration, n, w);
      BytesSuffix(r, spare, configuration, n, w);
    }
  }

  lemma BytesAre(r: MsgPtr, spare: seq<bv8>, configuration: bv8, n: nat)
    requires |spare| == 2 && Behind(r, n) && n > 0
    ensures 0 <= Place(r) && Place(r) + n <= |Memory(r, spare, configuration)|
    ensures Bytes(r, spare, configuration, n) == Memory(r, spare, configuration)[Place(r)..Place(r) + n]
  {
    hide Memory, Size, Place;
  }

  lemma BytesPrefix(r: MsgPtr, spare: seq<bv8>, configuration: bv8, n: nat, w: nat)
    requires |spare| == 2 && Behind(r, n) && 0 < w < n
    ensures Behind(r, w) && Bytes(r, spare, configuration, w) == Bytes(r, spare, configuration, n)[..w]
  {
    hide Memory, Size, Place, Bytes;
    BytesAre(r, spare, configuration, n);
    BytesAre(r, spare, configuration, w);
    SliceSplit(Memory(r, spare, configuration), Place(r), n, w);
  }

  lemma BytesSuffix(r: MsgPtr, spare: seq<bv8>, configuration: bv8, n: nat, w: nat)
    requires |spare| == 2 && Behind(r, n) && 0 < w < n
    ensures Behind(Advance(r, w), n - w)
    ensures Bytes(Advance(r, w), spare, configuration, n - w) == Bytes(r, spare, configuration, n)[w..]
  {
    hide Memory, Size, Place, Advance, Bytes;
    AdvanceMoves(r, spare, configuration, w);
    BytesAre(r, spare, configuration, n);
    BytesAre(Advance(r, w), spare, configuration, n - w);
    SliceSplit(Memory(r, spare, configuration), Place(r), n, w);
  }

  /** What remains after a first packet of eight bytes is in program memory. */
  lemma SpareIrrelevant(r: MsgPtr, spare: seq<bv8>, spare': seq<bv8>, configuration: bv8, n: nat, w: nat)
    requires |spare| == 2 && |spare'| == 2 && Behind(r, n) && w == if n > 8 then 8 else n
    ensures Behind(Advance(r, w), n - w) && Behind(Advance(r, w), 0)
    ensures Bytes(Advance(r, w), spare', configuration, n - w) == Bytes(Advance(r, w), spare, configuration, n - w)
  {}

  lemma FirstPacket(reply: seq<bv8>, pid: bv8)
    ensures ControlTransfer.Packets(reply, pid) ==
      if |reply| < 8 then [DataPacket(pid, reply)]
      else [DataPacket(pid, reply[..8])] + ControlTransfer.Packets(reply[8..], Toggle(pid))
  {}

  lemma ToggleIs(pid: bv8)
    ensures pid ^ DATA0 ^ DATA1 == Toggle(pid)
  {}

  lemma PacketIs(packet: seq<bv8>, pid: bv8, payload: seq<bv8>)
    requires |packet| == |payload| + 3 && packet[0] == pid && packet[1..1 + |payload|] == payload
    requires packet[1 + |payload|..] == Appended(payload)
    ensures packet == DataPacket(pid, payload)
  {
    assert packet == [packet[0]] + packet[1..1 + |payload|] + packet[1 + |payload|..];
  }

  /** Payload and CRC in the transmit buffer. */
  lemma PartsOf(buffer: seq<bv8>, len: nat)
    requires len + 3 <= |buffer|
    ensures buffer[..len + 3][1..1 + len] == buffer[1..1 + len]
    ensures buffer[..len + 3][1 + len..] == buffer[1 + len..1 + len + 2]
  {}

  /** The next packet owed goes out. */
  lemma NextIsSent(rom: Descriptors, log: seq<Event>, packet: seq<bv8>)
    requires Legal(rom, POWER_UP, log)
    requires var s := Run(rom, POWER_UP, log); !s.waiting && s.toSend != [] && s.toSend[0] == packet
    ensures Legal(rom, POWER_UP, log + [Sent(packet)]) && SentSince(log, log + [Sent(packet)])
    ensures var s := Run(rom, POWER_UP, log);
      Run(rom, POWER_UP, log + [Sent(packet)]) == s.(toSend := s.toSend[1..], address := s.newAddress << 1)
  {
    hide Run, Legal;
    OneMore(rom, POWER_UP, log, Sent(packet));
    assert (log + [Sent(packet)])[|log|].Sent?;
  }

  /** The payload of cnt bytes in the half of the receive buffer that is not being filled. */
  function Slot(buffer: array<bv8>, offset: nat, cnt: nat): seq<bv8>
    requires buffer.Length == 22 && offset <= 11 && 3 <= cnt <= 11 && 12 - offset + cnt - 3 <= 22
    reads buffer
  {
    buffer[12 - offset..12 - offset + cnt - 3]
  }

  /** The variables of the interrupt, as far as the main loop depends on them. */
  datatype Seen = Seen(log: seq<Event>, rxLen: nat, rxToken: bv8, offset: nat, txLen: nat, address: bv8,
                       received: seq<bv8>, half: seq<bv8>)

  /** One after another, behind `from` and not behind `to`. */
  predicate Rising(from: nat, looks: seq<nat>, to: nat)
  {
    forall i :: 0 <= i < |looks| ==> (if i == 0 then from else looks[i - 1]) < looks[i] <= to
  }

  lemma RisingMore(from: nat, looks: seq<nat>, to: nat, look: nat, end: nat)
    requires Rising(from, looks, to) && from <= to < look <= end
    ensures Rising(from, looks + [look], end)
  {}

  class Driver {
    const rom: Descriptors
    const usbRxBuf: array<bv8>
    const usbTxBuf: array<bv8>

    // shared with the interrupt
    var usbInputBufOffset: nat
    var usbRxLen: nat
    var usbRxToken: bv8
    var usbCurrentTok: bv8
    var usbTxLen: nat
    var usbDeviceAddr: bv8
    var usbNewDeviceAddr: bv8

    // main loop only
    var usbConfiguration: bv8
    var usbMsgPtr: MsgPtr
    var usbMsgLen: nat
    var usbMsgRom: bool     // USB_FLG_MSGPTR_IS_ROM

    /** The packets that arrive at each point where the main loop can be interrupted. */
    const bus: nat -> seq<seq<bv8>>
    var point: nat

    /** Whether usbPoll samples SE0 twenty times in a row, by the point at which it looks. */
    const lineIsSe0: nat -> bool

    /** What an observer of bus and main loop would have written down. */
    var log: seq<Event>

    ghost function E(): State
      reads `log
    {
      Run(rom, POWER_UP, log)
    }

    ghost predicate Buffers()
    {
      usbRxBuf.Length == 22 && usbTxBuf.Length == 11 && usbRxBuf != usbTxBuf
    }

    ghost predicate Shape()
      reads `usbInputBufOffset, `usbRxLen, `usbTxLen
    {
      && rom.Valid() && Buffers()
      && (usbInputBufOffset == 0 || usbInputBufOffset == 11)
      && (usbRxLen == 0 || 4 <= usbRxLen <= 11)
      && (usbTxLen == TX_NAK || 4 <= usbTxLen <= 12)
    }

    /** The half of usbRxBuf that the main loop reads. */
    function Received(): seq<bv8>
      requires Shape() && usbRxLen > 0
      reads `usbInputBufOffset, `usbRxLen, `usbTxLen, usbRxBuf
    {
      Slot(usbRxBuf, usbInputBufOffset, usbRxLen)
    }

    /** All of this half. */
    function OtherHalf(): seq<bv8>
      requires Shape()
      reads `usbInputBufOffset, `usbRxLen, `usbTxLen, usbRxBuf
    {
      usbRxBuf[11 - usbInputBufOffset..22 - usbInputBufOffset]
    }

    /** What holds of the receive side at any time. */
    ghost predicate RxOk()
      requires Shape()
      reads `usbInputBufOffset, `usbRxLen, `usbTxLen, `usbRxToken, `usbDeviceAddr
      reads `log, usbRxBuf
    {
      && Legal(rom, POWER_UP, log)
      && usbDeviceAddr == E().address
      && E().waiting == (usbRxLen > 0)
      && (usbRxLen > 0 ==> E().token == usbRxToken && E().request == Received())
    }

    /** What holds of the transmit side unless a received packet is being processed. */
    ghost predicate TxOk()
      requires Shape()
      reads `usbInputBufOffset, `usbRxLen, `usbTxLen, `usbNewDeviceAddr, `log, usbTxBuf
    {
      && usbNewDeviceAddr == E().newAddress
      && (!IsHandshake(usbTxLen) ==> E().toSend != [] && E().toSend[0] == usbTxBuf[..usbTxLen - 1])
    }

    /** The variables that the interrupt changes, and what it reads besides. */
    ghost function Now(): Shared
      reads `usbInputBufOffset, `usbRxLen, `usbRxToken, `usbCurrentTok, `usbTxLen, `usbDeviceAddr, usbRxBuf
    {
      Shared(usbRxBuf[..], usbInputBufOffset, usbRxLen, usbRxToken, usbCurrentTok, usbTxLen, usbDeviceAddr)
    }

    ghost function Out(): Outgoing
      reads `usbNewDeviceAddr, usbTxBuf
    {
      Outgoing(usbNewDeviceAddr, usbTxBuf[..])
    }

    lemma NowValid()
      requires Shape()
      ensures Now().Valid() && |Out().tx| == 11
    {}

    /** One packet has been dealt with. */
    twostate predicate Dealt(packet: seq<bv8>)
      requires old(Shape())
      reads `usbInputBufOffset, `usbRxLen, `usbRxToken, `usbCurrentTok, `usbTxLen, `usbDeviceAddr
      reads `log, usbRxBuf
    {
      && Now() == After(old(Now()), old(Out()), packet)
      && log == old(log) + Noted(old(Now()), old(Out()), packet)
    }

    /** All packets of a point have been dealt with, one after another. */
    twostate predicate Delivered()
      requires old(Shape())
      reads `usbInputBufOffset, `usbRxLen, `usbRxToken, `usbCurrentTok, `usbTxLen, `usbDeviceAddr
      reads `log, usbRxBuf, `point
    {
      && point == old(point) + 1
      && Now() == AfterAll(old(Now()), old(Out()), bus(old(point)))
      && log == old(log) + NotedAll(old(Now()), old(Out()), bus(old(point)))
    }

    /** What the bus may bring from here on. */
    ghost function Expected(): (t: Traffic)
      reads `point, `usbCurrentTok
      ensures !t.reset
    {
      Traffic(!Unasked(bus, point, usbCurrentTok == SETUP), false)
    }

    /** How many more data packets have been accepted than the bus has brought. */
    ghost function Surplus(): int
      reads `point, `log
    {
      AcceptedCount(log) - DataPackets(bus, 0, point)
    }

    /** Time goes on, no more is to be expected than before, and no more data packets have been
        accepted than there were. */
    twostate predicate Later()
      reads `point, `usbCurrentTok, `log
    {
      old(point) <= point && Expected().Within(old(Expected())) && Surplus() <= old(Surplus())
    }

    /** The history is continued by what was to be expected. */
    twostate predicate Onward()
      reads `point, `usbCurrentTok, `log
    {
      Later() && Follows(old(log), log, old(Expected()))
    }

    /** The same, but with a bus reset if there was one. */
    twostate predicate OnwardOrReset(reset: bool)
      reads `point, `usbCurrentTok, `log
    {
      Later() && Follows(old(log), log, old(Expected()).(reset := reset))
    }

    /** A long SE0 has been seen. */
    ghost predicate ResetIn(from: nat, to: nat)
    {
      exists p :: from <= p < to && lineIsSe0(p)
    }

    // ---- The interrupt ----

    /** What the main loop can see of the interrupt's variables. */
    ghost function Visible(): (s: Seen)
      requires Shape()
      ensures s.log == log && s.rxLen == usbRxLen && s.txLen == usbTxLen && s.address == usbDeviceAddr
      reads `usbInputBufOffset, `usbRxLen, `usbRxToken, `usbTxLen, `usbDeviceAddr, `log, usbRxBuf
    {
      Seen(log, usbRxLen, usbRxToken, usbInputBufOffset, usbTxLen, usbDeviceAddr,
           if usbRxLen > 0 then Received() else [], OtherHalf())
    }

    /** All that the main loop can notice of an interrupt: a free receive buffer may be
        filled, a pending transmission may go out; a full receive buffer stays as it is, and
        then nothing is sent. */
    ghost predicate UndisturbedSince(s: Seen)
      reads `usbInputBufOffset, `usbRxLen, `usbRxToken, `usbTxLen, `usbDeviceAddr, `usbNewDeviceAddr
      reads `log, usbRxBuf, usbTxBuf
    {
      var was := Run(rom, POWER_UP, s.log);
      && Shape() && RxOk() && (usbRxLen == 0 ==> TxOk())
      && s.log <= log
      && E().configuration == was.configuration && E().newAddress == was.newAddress
      && (s.rxLen > 0 ==> Visible() == s)
      && (usbTxLen == s.txLen ==> E().toSend == was.toSend)
      && (usbTxLen != s.txLen ==>
          && !IsHandshake(s.txLen) && usbTxLen == TX_NAK
          && was.toSend != [] && E().toSend == was.toSend[1..] && SentSince(s.log, log))
      && (usbDeviceAddr != s.address ==> usbTxLen != s.txLen && usbDeviceAddr == usbNewDeviceAddr << 1)
    }

    twostate predicate Undisturbed()
      reads `usbInputBufOffset, `usbRxLen, `usbRxToken, `usbTxLen, `usbDeviceAddr, `usbNewDeviceAddr
      reads `log, usbRxBuf, usbTxBuf
      requires old(Shape())
    {
      UndisturbedSince(old(Visible()))
    }

    method StoreBytes(packet: seq<bv8>)
      requires Buffers() && usbInputBufOffset <= 11 && |packet| <= 11
      modifies usbRxBuf
      ensures forall i :: 0 <= i < |packet| ==> usbRxBuf[usbInputBufOffset + i] == packet[i]
      ensures forall i :: 0 <= i < 22 && !(usbInputBufOffset <= i < usbInputBufOffset + |packet|) ==>
        usbRxBuf[i] == old(usbRxBuf[i])
    {
      for i := 0 to |packet|
        invariant forall j :: 0 <= j < i ==> usbRxBuf[usbInputBufOffset + j] == packet[j]
        invariant forall j :: 0 <= j < 22 && !(usbInputBufOffset <= j < usbInputBufOffset + i) ==>
          usbRxBuf[j] == old(usbRxBuf[j])
      {
        usbRxBuf[usbInputBufOffset + i] := packet[i];
      }
    }

    twostate lemma Spared()
      requires Shape() && usbRxLen == old(usbRxLen) && usbInputBufOffset == old(usbInputBufOffset)
      requires usbTxLen == old(usbTxLen)
      requires forall i :: 0 <= i < 22 && !(usbInputBufOffset <= i < usbInputBufOffset + 11) ==>
        usbRxBuf[i] == old(usbRxBuf[i])
      ensures OtherHalf() == old(OtherHalf()) && (usbRxLen > 0 ==> Received() == old(Received()))
    {}

    /** The receiver has stored the packet while it arrived. */
    method Store(packet: seq<bv8>)
      requires Shape() && RxOk() && |packet| <= 11
      modifies usbRxBuf
      ensures RxOk() && Visible() == old(Visible())
      ensures forall i :: 0 <= i < |packet| ==> usbRxBuf[usbInputBufOffset + i] == packet[i]
      ensures forall i :: 0 <= i < 22 && !(usbInputBufOffset <= i < usbInputBufOffset + |packet|) ==>
        usbRxBuf[i] == old(usbRxBuf[i])
      ensures Now() == Stored(old(Now()), packet)
    {
      hide Run, Legal, Received, OtherHalf;
      StoreBytes(packet);
      Spared();
    }

    /** handleData */
    method HandleData(cnt: nat) returns (response: Response)
      requires Shape() && RxOk() && 1 <= cnt <= 11 && (usbRxLen == 0 ==> TxOk())
      modifies `usbRxLen, `usbRxToken, `usbInputBufOffset, `log
      ensures Undisturbed()
      ensures response == if usbCurrentTok == 0 then Silence
        else Handshake(if old(usbRxLen) > 0 then TX_NAK else TX_ACK)
      ensures if usbCurrentTok != 0 && old(usbRxLen) == 0 && cnt >= 4
        then
          && usbRxLen == cnt && usbRxToken == usbCurrentTok && usbInputBufOffset == 11 - old(usbInputBufOffset)
          && log == old(log) + [Accepted(usbCurrentTok, Slot(usbRxBuf, 11 - old(usbInputBufOffset), cnt))]
        else
          && usbRxLen == old(usbRxLen) && usbRxToken == old(usbRxToken)
          && usbInputBufOffset == old(usbInputBufOffset) && log == old(log)
      ensures Now() == DataStep(old(Now()), cnt) && log == old(log) + DataNoted(old(Now()), cnt)
      ensures response == DataAnswer(old(Now()))
    {
      hide Run, Legal, Packets, Reply, AfterRequest, TxOk;
      if usbCurrentTok == 0 { return Silence; }
      if usbRxLen != 0 { return Handshake(TX_NAK); }
      if cnt < 4 { return Handshake(TX_ACK); }
      usbRxLen := cnt;
      usbRxToken := usbCurrentTok;
      usbInputBufOffset := 11 - usbInputBufOffset;
      OneMore(rom, POWER_UP, log, Accepted(usbRxToken, Received()));
      log := log + [Accepted(usbRxToken, Received())];
      response := Handshake(TX_ACK);
    }

    /** handleIn, and the address assignment behind a DATA packet. */
    method HandleIn() returns (response: Response)
      requires Shape() && RxOk() && (usbRxLen == 0 ==> TxOk())
      modifies `usbTxLen, `usbDeviceAddr, `log
      ensures Undisturbed()
      ensures response ==
        if usbRxLen > 0 then Handshake(TX_NAK)
        else if IsHandshake(old(usbTxLen)) then Handshake(old(usbTxLen))
        else Data(usbTxBuf[..old(usbTxLen) - 1])
      ensures if response.Data?
        then
          && log == old(log) + [Sent(response.packet)]
          && usbTxLen == TX_NAK && usbDeviceAddr == usbNewDeviceAddr << 1
        else log == old(log) && usbTxLen == old(usbTxLen) && usbDeviceAddr == old(usbDeviceAddr)
      ensures var s, x2 := old(Now()), old(usbDeviceAddr);
        && Now() == TokenStep(s, Out(), IN, x2) && log == old(log) + TokenNoted(s, Out(), IN, x2)
        && response == TokenAnswer(s, Out(), IN, x2)
    {
      hide Run, Legal, RxOk, UndisturbedSince, Visible, TokenStep, TokenNoted, TokenAnswer;
      SeesItself();
      OfIn(Now(), Out());
      if usbRxLen >= 1 { return Handshake(TX_NAK); }
      var cnt := usbTxLen;
      if IsHandshake(cnt) { return Handshake(cnt); }
      response := SendReady(cnt);
    }

    lemma SeesItself()
      requires Shape() && RxOk() && (usbRxLen == 0 ==> TxOk())
      ensures UndisturbedSince(Visible())
    {
      hide Run, Legal;
    }

    /** The packet goes out, with nothing ready behind it, and the address is assigned. */
    method SendReady(cnt: nat) returns (response: Response)
      requires Shape() && RxOk() && TxOk() && usbRxLen == 0 && cnt == usbTxLen && !IsHandshake(cnt)
      modifies `usbTxLen, `usbDeviceAddr, `log
      ensures Undisturbed()
      ensures response == Data(usbTxBuf[..cnt - 1]) && log == old(log) + [Sent(response.packet)]
      ensures usbTxLen == TX_NAK && usbDeviceAddr == usbNewDeviceAddr << 1
    {
      hide Run, Legal, Next, Allowed, SentSince, Received, OtherHalf, Packets, Reply;
      usbTxLen := TX_NAK;
      response := Data(usbTxBuf[..cnt - 1]);
      usbDeviceAddr := usbNewDeviceAddr << 1;
      NextIsSent(rom, log, response.packet);
      log := log + [Sent(response.packet)];
    }

    /** Everything but DATA0 and DATA1 is a token, or else ignored. */
    method HandleToken(token: bv8, x2: bv8) returns (response: Response)
      requires Shape() && RxOk() && (usbRxLen == 0 ==> TxOk())
      modifies `usbCurrentTok, `usbTxLen, `usbDeviceAddr, `log
      ensures Undisturbed()
      ensures if x2 == old(usbDeviceAddr) && token == IN
        then
          && response == (
            if old(usbRxLen) > 0 then Handshake(TX_NAK)
            else if IsHandshake(old(usbTxLen)) then Handshake(old(usbTxLen))
            else Data(usbTxBuf[..old(usbTxLen) - 1]))
          && log == (if response.Data? then old(log) + [Sent(response.packet)] else old(log))
          && (if response.Data? then usbTxLen == TX_NAK && usbDeviceAddr == usbNewDeviceAddr << 1
              else usbTxLen == old(usbTxLen) && usbDeviceAddr == old(usbDeviceAddr))
          && usbCurrentTok == old(usbCurrentTok)
        else
          && response == Silence && log == old(log)
          && usbTxLen == old(usbTxLen) && usbDeviceAddr == old(usbDeviceAddr)
          && usbCurrentTok == if x2 == old(usbDeviceAddr) && (token == SETUP || token == OUT) then token else 0
      ensures var s := old(Now());
        && Now() == TokenStep(s, Out(), token, x2) && log == old(log) + TokenNoted(s, Out(), token, x2)
        && response == TokenAnswer(s, Out(), token, x2)
    {
      hide Run, Legal, Packets, Reply, AfterRequest, RxOk, TxOk;
      var shift := usbDeviceAddr;
      response := Silence;
      if x2 != shift {
        usbCurrentTok := 0;
      } else if token == IN {
        response := HandleIn();
      } else if token == SETUP || token == OUT {
        usbCurrentTok := token;
      } else {
        usbCurrentTok := 0;
      }
    }

    /** From se0 on, with a packet of 1 to 11 bytes.  One of one byte is compared with whatever
        follows it in the buffer; a handshake is ignored all the same. */
    method Dispatch(packet: seq<bv8>) returns (response: Response)
      requires Shape() && RxOk() && (usbRxLen == 0 ==> TxOk())
      requires 1 <= |packet| <= 11
      modifies `usbInputBufOffset, `usbRxLen, `usbRxToken, `usbCurrentTok, `usbTxLen, `usbDeviceAddr
      modifies `log, usbRxBuf
      ensures Undisturbed() && Dealt(packet) && response == Answer(old(Now()), Out(), packet)
    {
      hide Run, Legal, RxOk, TxOk, UndisturbedSince, Visible, Stored, After, Noted, Answer;
      hide DataStep, DataNoted, DataAnswer, TokenStep, TokenNoted, TokenAnswer;
      NowValid();
      if IsData(packet) { OfData(Now(), Out(), packet); } else { OfToken(Now(), Out(), packet); }
      Store(packet);
      var token := usbRxBuf[usbInputBufOffset];
      assert token == usbRxBuf[..][usbInputBufOffset];
      if token == DATA0 || token == DATA1 {
        response := HandleData(|packet|);
      } else {
        assert usbRxBuf[usbInputBufOffset + 1] == usbRxBuf[..][usbInputBufOffset + 1];
        response := HandleToken(token, Lsl(usbRxBuf[usbInputBufOffset + 1]));
      }
    }

    /** A packet of 1 to 11 bytes has arrived. */
    method OnPacket(packet: seq<bv8>) returns (response: Response)
      requires Shape() && RxOk() && (usbRxLen == 0 ==> TxOk())
      requires 1 <= |packet| <= 11
      modifies `usbInputBufOffset, `usbRxLen, `usbRxToken, `usbCurrentTok, `usbTxLen, `usbDeviceAddr
      modifies `log, usbRxBuf
      ensures Undisturbed() && Dealt(packet)
      ensures IsData(packet) ==>
        && usbCurrentTok == old(usbCurrentTok)
        && response == (if usbCurrentTok == 0 then Silence else Handshake(if old(usbRxLen) > 0 then TX_NAK else TX_ACK))
        && log == if usbCurrentTok != 0 && old(usbRxLen) == 0 && |packet| >= 4
                  then old(log) + [Accepted(usbCurrentTok, Payload(packet))] else old(log)
      ensures !IsData(packet) ==> log == if response.Data? then old(log) + [Sent(response.packet)] else old(log)
      ensures usbCurrentTok == SETUP ==> SetupAfter(old(usbCurrentTok) == SETUP, packet)
      ensures !IsData(packet) && packet[0] != IN ==> response == Silence && log == old(log)
      ensures !IsData(packet) && packet[0] !in {IN, SETUP, OUT} ==> usbCurrentTok == 0
      ensures !IsData(packet) && |packet| >= 2 && packet[0] != IN ==>
        usbCurrentTok ==
        if Lsl(packet[1]) == old(usbDeviceAddr) && (packet[0] == SETUP || packet[0] == OUT) then packet[0] else 0
      ensures |packet| >= 2 && packet[0] == IN ==>
        && response == (
          if Lsl(packet[1]) != old(usbDeviceAddr) then Silence
          else if old(usbRxLen) > 0 then Handshake(TX_NAK)
          else if IsHandshake(old(usbTxLen)) then Handshake(old(usbTxLen))
          else Data(usbTxBuf[..old(usbTxLen) - 1]))
        && log == (if response.Data? then old(log) + [Sent(response.packet)] else old(log))
        && (response.Data? ==> usbTxLen == TX_NAK)
    {
      hide Run, Legal, RxOk, TxOk, Shape, SetupAfter, After, Noted, Answer, Undisturbed;
      NowValid();
      InWords(Now(), Out(), packet);
      response := Dispatch(packet);
    }

    /** overflow: a packet that does not fit fills its half of the buffer and is ignored. */
    method OnOverflow(packet: seq<bv8>)
      requires Shape() && RxOk() && (usbRxLen == 0 ==> TxOk())
      requires |packet| > 11
      modifies `usbCurrentTok, usbRxBuf
      ensures Undisturbed() && Dealt(packet) && log == old(log) && usbCurrentTok == 0
      ensures usbRxBuf[usbInputBufOffset..usbInputBufOffset + 11] == packet[..11]
      ensures forall i :: 0 <= i < 22 && !(usbInputBufOffset <= i < usbInputBufOffset + 11) ==>
        usbRxBuf[i] == old(usbRxBuf[i])
    {
      hide Run, Legal, RxOk, TxOk, UndisturbedSince, Visible, After, Noted, Stored;
      OfTooMuch(Now(), Out(), packet);
      Store(packet[..11]);
      SeesItself();
      usbCurrentTok := 0;
    }

    /** After i packets of this point: the token as SetupBehind has it, and a history of what
        was to be expected. */
    ghost predicate Traced(i: nat, setup: bool, before: seq<Event>)
      requires i <= |bus(point)|
      reads `point, `usbCurrentTok, `log
    {
      && (usbCurrentTok == SETUP ==> SetupBehind(setup, bus(point)[..i]))
      && Follows(before, log, Traffic(!Unasked(bus, point, setup), false))
      && AcceptedCount(log) <= AcceptedCount(before) + DataIn(bus(point)[..i])
    }

    /** A point at which the main loop can be interrupted, by any number of packets. */
    method Bus()
      requires Shape() && RxOk() && (usbRxLen == 0 ==> TxOk())
      modifies `usbInputBufOffset, `usbRxLen, `usbRxToken, `usbCurrentTok, `usbTxLen, `usbDeviceAddr
      modifies `log, usbRxBuf, `point
      ensures Undisturbed() && Onward() && Delivered() && point == old(point) + 1
    {
      hide Run, Legal, Traced, Onward, RxOk, TxOk, UndisturbedSince, Visible, AfterAll, NotedAll;
      ghost var setup := usbCurrentTok == SETUP;
      Burst(setup);
      Traces(setup, old(log));
      point := point + 1;
      OnePoint(setup);
    }

    method Burst(ghost setup: bool)
      requires Shape() && RxOk() && (usbRxLen == 0 ==> TxOk()) && setup == (usbCurrentTok == SETUP)
      modifies `usbInputBufOffset, `usbRxLen, `usbRxToken, `usbCurrentTok, `usbTxLen, `usbDeviceAddr
      modifies `log, usbRxBuf
      ensures Undisturbed() && Traced(|bus(point)|, setup, old(log))
      ensures Now() == AfterAll(old(Now()), old(Out()), bus(point))
      ensures log == old(log) + NotedAll(old(Now()), old(Out()), bus(point))
    {
      hide Run, Legal, Next, Traced, RxOk, TxOk, SentSince, Visible, Shape, After, Noted, Heard, AfterAll, NotedAll;
      var packets := bus(point);
      ghost var start, out := Now(), Out();
      NotYet();
      NowValid();
      SeesItself();
      HeardNone(start, out, packets, log);
      for i := 0 to |packets|
        invariant Undisturbed()
        invariant Traced(i, setup, old(log)) && Heard(start, out, packets[..i], old(log), Now(), log)
      {
        ghost var here, s := log, Now();
        OnePacket(packets[i], i, setup, old(log));
        SentStays(old(log), here, log);
        HeardMore(start, out, packets, i, old(log), s, here);
      }
      HeardAll(start, out, packets, old(log), Now(), log);
    }

    lemma NotYet()
      ensures Traced(0, usbCurrentTok == SETUP, log)
    {
      assert bus(point)[..0] == [];
    }

    lemma Traces(setup: bool, before: seq<Event>)
      requires Traced(|bus(point)|, setup, before)
      ensures usbCurrentTok == SETUP ==> SetupBehind(setup, bus(point))
      ensures Follows(before, log, Traffic(!Unasked(bus, point, setup), false))
      ensures AcceptedCount(log) <= AcceptedCount(before) + DataIn(bus(point))
    {
      assert bus(point)[..|bus(point)|] == bus(point);
    }

    /** All packets of a point have been traced. */
    twostate lemma OnePoint(setup: bool)
      requires setup == old(usbCurrentTok == SETUP) && point == old(point) + 1
      requires usbCurrentTok == SETUP ==> SetupBehind(setup, bus(old(point)))
      requires Follows(old(log), log, old(Expected()))
      requires AcceptedCount(log) <= AcceptedCount(old(log)) + DataIn(bus(old(point)))
      ensures Onward()
    {
      hide Unasked, Follows, AcceptedCount;
      NextPoint(bus, old(point), setup, usbCurrentTok == SETUP);
    }

    method OnePacket(packet: seq<bv8>, ghost i: nat, ghost setup: bool, ghost before: seq<Event>)
      requires Shape() && RxOk() && (usbRxLen == 0 ==> TxOk())
      requires i < |bus(point)| && packet == bus(point)[i] && Traced(i, setup, before)
      modifies `usbInputBufOffset, `usbRxLen, `usbRxToken, `usbCurrentTok, `usbTxLen, `usbDeviceAddr
      modifies `log, usbRxBuf
      ensures Undisturbed() && Dealt(packet) && Traced(i + 1, setup, before)
    {
      hide Run, Legal, Unasked, SetupBehind, Follows, RxOk, TxOk, UndisturbedSince, Visible, AcceptedCount;
      hide After, Noted;
      SeesItself();
      OfNothing(Now(), Out());
      ghost var here := log;
      OneMorePacket(setup, bus(point), i);
      RequestIsExpected(bus, point, setup, i);
      if 1 <= |packet| <= 11 {
        var response := OnPacket(packet);
        if log != here {
          CountOne(here, log[|here|]);
          FollowsOne(before, here, log[|here|], Traffic(!Unasked(bus, point, setup), false));
        }
      } else if |packet| > 11 {
        OnOverflow(packet);
      }
    }

    // ---- The main loop: sending ----

    /** n more bytes can be read through usbMsgPtr. */
    ghost predicate SrcOk(n: nat)
      reads `usbMsgPtr, `usbMsgRom
    {
      Behind(usbMsgPtr, n) && (n > 0 ==> usbMsgRom == usbMsgPtr.Flash?)
    }

    ghost function Src(n: nat): (src: seq<bv8>)
      requires usbTxBuf.Length == 11 && SrcOk(n)
      reads `usbMsgPtr, `usbMsgRom, `usbConfiguration, usbTxBuf
    {
      Bytes(usbMsgPtr, usbTxBuf[9..], usbConfiguration, n)
    }

    ghost predicate MsgOk()
      reads `usbMsgLen, `usbMsgPtr, `usbMsgRom
    {
      Behind(usbMsgPtr, 0) && (usbMsgLen == NO_MSG || (usbMsgLen <= 254 && SrcOk(usbMsgLen)))
    }

    /** The packets that are still to be built. */
    ghost function Rest(): seq<seq<bv8>>
      requires usbTxBuf.Length == 11 && MsgOk()
      reads `usbMsgLen, `usbMsgPtr, `usbMsgRom, `usbConfiguration, usbTxBuf
    {
      if usbMsgLen == NO_MSG then [] else ControlTransfer.Packets(Src(usbMsgLen), Toggle(usbTxBuf[0]))
    }

    /** The packet that is ready in usbTxBuf, if there is one. */
    ghost function Ready(): seq<seq<bv8>>
      requires Shape()
      reads `usbInputBufOffset, `usbRxLen, `usbTxLen, usbTxBuf
    {
      if IsHandshake(usbTxLen) then [] else [usbTxBuf[..usbTxLen - 1]]
    }

    /** What holds between two statements of usbPoll unless a request is being processed:
        everything the endpoint owes the host is either ready or still to be built. */
    ghost predicate MainOk()
      requires Shape()
      reads `usbInputBufOffset, `usbRxLen, `usbTxLen, `usbNewDeviceAddr, `log, usbTxBuf
      reads `usbMsgLen, `usbMsgPtr, `usbMsgRom, `usbConfiguration
    {
      && MsgOk()
      && E().toSend == Ready() + Rest()
      && usbNewDeviceAddr == E().newAddress && usbConfiguration == E().configuration
    }

    /** While a packet is being built the endpoint owes `owed`, and nothing can be sent. */
    ghost predicate Building(owed: seq<seq<bv8>>)
      reads `usbInputBufOffset, `usbRxLen, `usbTxLen, `usbRxToken, `usbDeviceAddr, `usbNewDeviceAddr
      reads `usbConfiguration, `log, usbRxBuf
    {
      && Shape() && RxOk() && usbTxLen == TX_NAK
      && E().toSend == owed
      && usbNewDeviceAddr == E().newAddress && usbConfiguration == E().configuration
    }

    method BusWhileBuilding(ghost owed: seq<seq<bv8>>)
      requires Building(owed)
      modifies `usbInputBufOffset, `usbRxLen, `usbRxToken, `usbCurrentTok, `usbTxLen, `usbDeviceAddr
      modifies `log, usbRxBuf, `point
      ensures Building(owed) && Onward()
      ensures Delivered() && point == old(point) + 1
    {
      hide Delivered, Expected, Surplus, Run, Legal, Next;
      Bus();
    }

    /** One `*data++ = *r++`, from program memory or from RAM. */
    method CopyByte(ghost owed: seq<seq<bv8>>, to: nat, r: MsgPtr) returns (next: MsgPtr)
      requires Building(owed) && 1 <= to <= 8 && usbTxBuf.Length == 11 && Behind(r, 1)
      requires usbMsgRom == r.Flash?
      modifies `usbInputBufOffset, `usbRxLen, `usbRxToken, `usbCurrentTok, `usbTxLen, `usbDeviceAddr
      modifies `log, usbRxBuf, `point, usbTxBuf
      ensures Building(owed) && Onward()
      ensures usbTxBuf[..] == old(usbTxBuf[..])[to := Deref(r, old(usbTxBuf[9..]), usbConfiguration)]
      ensures next == Advance(r, 1)
      ensures point == old(point) + 2
    {
      hide Delivered, Expected, Surplus, Run, Legal;
      var c;
      if usbMsgRom {
        c := r.data[r.at];
      } else {
        c := if r.TxBuf? then usbTxBuf[r.index] else usbConfiguration;
      }
      BusWhileBuilding(owed);
      usbTxBuf[to] := c;
      BusWhileBuilding(owed);
      next := Advance(r, 1);
    }

    /** usbDeviceRead, into usbTxBuf + 1. */
    method UsbDeviceRead(ghost owed: seq<seq<bv8>>, len: nat) returns (read: nat)
      requires Building(owed) && usbTxBuf.Length == 11 && len <= 8 && SrcOk(len)
      modifies `usbInputBufOffset, `usbRxLen, `usbRxToken, `usbCurrentTok, `usbTxLen, `usbDeviceAddr
      modifies `log, usbRxBuf, `point, usbTxBuf, `usbMsgPtr
      ensures Building(owed) && read == len && Onward()
      ensures usbTxBuf[1..1 + len] == old(Src(len)) && usbTxBuf[0] == old(usbTxBuf[0])
      ensures usbMsgPtr == Advance(old(usbMsgPtr), len)
      ensures point == old(point) + 2 * len
    {
      hide Delivered, Expected, Surplus, Building, Bytes, Deref, Behind;
      read := len;
      ghost var src := Src(len);
      if len > 0 {
        var i, data, r := len, 1, usbMsgPtr;
        while i > 0
          invariant 0 <= i <= len && data == 1 + len - i
          invariant Building(owed) && Onward() && point == old(point) + 2 * (len - i)
          invariant r == Advance(usbMsgPtr, len - i) && usbMsgPtr == old(usbMsgPtr)
          invariant usbTxBuf[1..data] == src[..len - i]
          invariant usbTxBuf[0] == old(usbTxBuf[0]) && usbTxBuf[9..] == old(usbTxBuf[9..])
        {
          BytesAt(usbMsgPtr, usbTxBuf[9..], usbConfiguration, len, len - i);
          r := CopyByte(owed, data, r);
          data := data + 1;
          i := i - 1;
        }
        usbMsgPtr := r;
      }
    }

    /** The middle of usbBuildTxBlock: data toggling, payload and CRC. */
    method FillTxBuf(ghost owed: seq<seq<bv8>>, wantLen: nat) returns (len: nat)
      requires Buffers() && Building(owed) && wantLen <= 8 && SrcOk(wantLen)
      modifies `usbInputBufOffset, `usbRxLen, `usbRxToken, `usbCurrentTok, `usbTxLen, `usbDeviceAddr
      modifies `log, usbRxBuf, `point
      modifies usbTxBuf, `usbMsgPtr
      ensures Building(owed) && len == wantLen && Onward()
      ensures usbTxBuf[..wantLen + 3] == DataPacket(Toggle(old(usbTxBuf[0])), old(Src(wantLen)))
      ensures usbTxBuf[0] == Toggle(old(usbTxBuf[0]))
      ensures usbMsgPtr == Advance(old(usbMsgPtr), wantLen)
      ensures point == old(point) + 3 + 2 * wantLen
    {
      hide Delivered, Expected, Surplus, Building, Toggle, DataPacket, Bytes, Behind, Follows;
      ToggleIs(usbTxBuf[0]);
      usbTxBuf[0] := usbTxBuf[0] ^ DATA0 ^ DATA1;
      BusWhileBuilding(owed);
      ghost var here, t := log, Expected();
      len := UsbDeviceRead(owed, wantLen);
      FollowsOn(old(log), here, log, old(Expected()), t);
      here, t := log, Expected();
      AppendCheck(owed, len);
      FollowsOn(old(log), here, log, old(Expected()), t);
    }

    /** usbCrc16Append, behind PID and payload. */
    method AppendCheck(ghost owed: seq<seq<bv8>>, len: nat)
      requires Buffers() && Building(owed) && len <= 8
      modifies `usbInputBufOffset, `usbRxLen, `usbRxToken, `usbCurrentTok, `usbTxLen, `usbDeviceAddr
      modifies `log, usbRxBuf, `point
      modifies usbTxBuf
      ensures Building(owed) && Onward()
      ensures usbTxBuf[..len + 3] == DataPacket(old(usbTxBuf[0]), old(usbTxBuf[1..1 + len]))
      ensures usbTxBuf[0] == old(usbTxBuf[0])
      ensures point == old(point) + 2
    {
      hide Delivered, Expected, Surplus, Building, DataPacket, Follows;
      ghost var pid, payload := usbTxBuf[0], usbTxBuf[1..1 + len];
      BusWhileBuilding(owed);
      UsbCrc16Append(usbTxBuf, 1, len);
      ghost var here, t := log, Expected();
      BusWhileBuilding(owed);
      FollowsOn(old(log), here, log, old(Expected()), t);
      assert usbTxBuf[1..1 + len] == payload;
      PartsOf(usbTxBuf[..], len);
      PacketIs(usbTxBuf[..len + 3], pid, payload);
    }

    /** Payload, length and what remains of the message. */
    method NextBlock(ghost owed: seq<seq<bv8>>) returns (len: nat)
      requires Building(owed) && Buffers() && MsgOk() && owed == Rest() && usbMsgLen != NO_MSG
      modifies `usbInputBufOffset, `usbRxLen, `usbRxToken, `usbCurrentTok, `usbTxLen, `usbDeviceAddr
      modifies `log, usbRxBuf, `point
      modifies usbTxBuf, `usbMsgPtr, `usbMsgLen
      ensures Building(owed) && MsgOk() && Onward() && 4 <= len <= 12
      ensures owed == [usbTxBuf[..len - 1]] + Rest()
      ensures point == old(point) + 4 + 2 * Min(old(usbMsgLen), 8)
    {
      hide Delivered, Expected, Surplus, Run, Legal, Next, Building, ControlTransfer.Packets, Toggle, DataPacket;
      hide Bytes, Behind, Follows;
      ghost var pid, src, n := usbTxBuf[0], Src(usbMsgLen), usbMsgLen;
      var wantLen := usbMsgLen;
      if wantLen > 8 { wantLen := 8; }
      BytesSplit(usbMsgPtr, usbTxBuf[9..], usbConfiguration, usbMsgLen, wantLen);
      FirstPacket(src, Toggle(pid));
      usbMsgLen := usbMsgLen - wantLen;
      BusWhileBuilding(owed);
      ghost var from, spare, here, t := usbMsgPtr, usbTxBuf[9..], log, Expected();
      len := FillTxBuf(owed, wantLen);
      FollowsOn(old(log), here, log, old(Expected()), t);
      SpareIrrelevant(from, spare, usbTxBuf[9..], usbConfiguration, n, wantLen);
      len := len + 4;
      if len < 12 { usbMsgLen := NO_MSG; }
    }

    /** usbBuildTxBlock: the next packet of the answer, whole, and only then usbTxLen.  Every
        read of at most eight bytes delivers what was asked for, so the STALL branch behind
        `len <= 8` is not reached. */
    method UsbBuildTxBlock()
      requires Shape() && RxOk() && MainOk() && usbTxLen == TX_NAK && usbMsgLen != NO_MSG
      modifies `usbInputBufOffset, `usbRxLen, `usbRxToken, `usbCurrentTok, `usbTxLen, `usbDeviceAddr
      modifies `log, usbRxBuf, `point
      modifies usbTxBuf, `usbMsgPtr, `usbMsgLen
      ensures Shape() && RxOk() && MainOk() && usbTxLen != TX_NAK && Onward()
      ensures point == old(point) + 5 + 2 * Min(old(usbMsgLen), 8)
    {
      hide Delivered, Expected, Surplus, Run, Legal, Next, Building, RxOk, MainOk, ControlTransfer.Packets, Toggle;
      hide Bytes, Behind, Follows;
      ghost var owed := E().toSend;
      StartBuilding(owed);
      var len := NextBlock(owed);
      ghost var here, t := log, Expected();
      BusWhileBuilding(owed);
      FollowsOn(old(log), here, log, old(Expected()), t);
      Publish(owed, len);
    }

    lemma StartBuilding(owed: seq<seq<bv8>>)
      requires Shape() && RxOk() && MainOk() && usbTxLen == TX_NAK && owed == E().toSend
      ensures Building(owed) && MsgOk() && owed == Rest()
    {}

    /** Setting usbTxLen hands the buffer over to the interrupt. */
    method Publish(ghost owed: seq<seq<bv8>>, len: nat)
      requires Building(owed) && 4 <= len <= 12 && usbTxBuf.Length == 11 && MsgOk()
      requires owed == [usbTxBuf[..len - 1]] + Rest()
      modifies `usbTxLen
      ensures Shape() && RxOk() && MainOk() && usbTxLen == len
    {
      hide Delivered, Expected, Surplus, Run, Legal, ControlTransfer.Packets, Toggle, Bytes, Behind;
      usbTxLen := len;
    }

    // ---- The main loop: receiving ----

    /** An accepted packet waits in usbRxBuf; the endpoint is silent until it is released. */
    ghost predicate Processing(request: seq<bv8>)
      reads `usbInputBufOffset, `usbRxLen, `usbTxLen, `usbRxToken, `usbDeviceAddr
      reads `log, usbRxBuf
    {
      Shape() && RxOk() && usbRxLen > 0 && Received() == request
    }

    method BusWhileProcessing(ghost request: seq<bv8>)
      requires Processing(request)
      modifies `usbInputBufOffset, `usbRxLen, `usbRxToken, `usbCurrentTok, `usbTxLen, `usbDeviceAddr
      modifies `log, usbRxBuf, `point
      ensures Processing(request) && log == old(log) && Later() && usbTxLen == old(usbTxLen)
      ensures usbRxLen == old(usbRxLen) && usbRxToken == old(usbRxToken) && usbInputBufOffset == old(usbInputBufOffset)
      ensures Delivered() && point == old(point) + 1
    {
      hide Delivered, Expected, Surplus, Run, Legal, Next, TxOk;
      Bus();
    }

    /** Byte i of the request, at index rq of usbRxBuf. */
    method Rq(ghost request: seq<bv8>, rq: nat, i: nat) returns (b: bv8)
      requires Processing(request) && |request| == 8 && i < 8 && rq == 12 - usbInputBufOffset
      modifies `usbInputBufOffset, `usbRxLen, `usbRxToken, `usbCurrentTok, `usbTxLen, `usbDeviceAddr
      modifies `log, usbRxBuf, `point
      ensures Processing(request) && log == old(log) && Later() && usbTxLen == old(usbTxLen) && b == request[i]
      ensures usbRxLen == old(usbRxLen) && usbRxToken == old(usbRxToken) && usbInputBufOffset == old(usbInputBufOffset)
      ensures point == old(point) + 1
    {
      hide Delivered, Expected, Surplus, RxOk;
      b := usbRxBuf[rq + i];
      BusWhileProcessing(request);
    }

    /** usbDriverDescriptor */
    method UsbDriverDescriptor(ghost request: seq<bv8>, rq: nat) returns (len: nat)
      requires Processing(request) && |request| == 8 && rq == 12 - usbInputBufOffset && Behind(usbMsgPtr, 0)
      modifies `usbInputBufOffset, `usbRxLen, `usbRxToken, `usbCurrentTok, `usbTxLen, `usbDeviceAddr
      modifies `log, usbRxBuf, `point
      modifies `usbMsgPtr, `usbMsgRom
      ensures Processing(request) && log == old(log) && Later() && usbTxLen == old(usbTxLen)
      ensures usbRxLen == old(usbRxLen) && usbRxToken == old(usbRxToken) && usbInputBufOffset == old(usbInputBufOffset)
      ensures len <= 254 && SrcOk(len) && usbTxBuf.Length == 11
      ensures Src(len) == DescriptorOf(rom, request)
      ensures point == old(point) + 3
    {
      hide Delivered, Expected, Surplus, Processing;
      RomSizes(request);
      len := 0;
      var kind := Rq(request, rq, 3);
      var index := Rq(request, rq, 2);
      if kind == 1 {
        len := |rom.device|;
        usbMsgPtr := Flash(rom.device, 0);
      } else if kind == 2 {
        len := |rom.configuration|;
        usbMsgPtr := Flash(rom.configuration, 0);
      } else if kind == 3 {
        if index == 0 {
          len := |rom.language|;
          usbMsgPtr := Flash(rom.language, 0);
        } else if index == 1 {
          len := |rom.vendor|;
          usbMsgPtr := Flash(rom.vendor, 0);
        } else if index == 2 {
          len := |rom.product|;
          usbMsgPtr := Flash(rom.product, 0);
        }
      }
      BusWhileProcessing(request);
      usbMsgRom := true;
    }

    lemma RomSizes(request: seq<bv8>)
      requires Processing(request)
      ensures rom.Valid() && Buffers()
    {}

    /** The requests whose answer, if any, is in RAM. */
    method ReplyFromRam(ghost request: seq<bv8>, bRequest: bv8, value: bv8) returns (dataPtr: MsgPtr, len: nat)
      requires Processing(request) && |request| == 8 && IsStandard(request)
      requires bRequest == request[1] && value == request[2] && bRequest != 6
      requires usbTxBuf.Length == 11 && usbTxBuf != usbRxBuf && usbTxBuf[9] == 0
      modifies `usbInputBufOffset, `usbRxLen, `usbRxToken, `usbCurrentTok, `usbTxLen, `usbDeviceAddr
      modifies `log, usbRxBuf, `point
      modifies `usbNewDeviceAddr, `usbConfiguration, usbTxBuf
      ensures Processing(request) && log == old(log) && Later() && usbTxLen == old(usbTxLen)
      ensures usbRxLen == old(usbRxLen) && usbRxToken == old(usbRxToken) && usbInputBufOffset == old(usbInputBufOffset)
      ensures len <= 2 && Behind(dataPtr, len) && !dataPtr.Flash? && usbTxBuf[0] == old(usbTxBuf[0])
      ensures Bytes(dataPtr, usbTxBuf[9..], usbConfiguration, len) == FullReply(rom, old(usbConfiguration), request)
      ensures usbNewDeviceAddr == if request[1] == 5 then value else old(usbNewDeviceAddr)
      ensures usbConfiguration == if request[1] == 9 then value else old(usbConfiguration)
      ensures point == old(point) + if bRequest == 0 then 2 else 1
    {
      hide Delivered, Expected, Surplus, Processing, IsStandard;
      dataPtr, len := TxBuf(9), 0;
      if bRequest == 0 {
        usbTxBuf[10] := 0;
        BusWhileProcessing(request);
        len := 2;
      } else if bRequest == 5 {
        usbNewDeviceAddr := value;
      } else if bRequest == 8 {
        dataPtr := Configuration(0);
        len := 1;
      } else if bRequest == 9 {
        usbConfiguration := value;
      } else if bRequest == 10 {
        len := 1;
      }
      BusWhileProcessing(request);
    }

    /** usbDriverSetup: the answer to a standard request, as a pointer and a length. */
    method UsbDriverSetup(ghost request: seq<bv8>, rq: nat) returns (len: nat)
      requires Processing(request) && |request| == 8 && rq == 12 - usbInputBufOffset
      requires Behind(usbMsgPtr, 0) && !usbMsgRom && IsStandard(request)
      modifies `usbInputBufOffset, `usbRxLen, `usbRxToken, `usbCurrentTok, `usbTxLen, `usbDeviceAddr
      modifies `log, usbRxBuf, `point
      modifies `usbMsgPtr, `usbMsgRom, `usbNewDeviceAddr, `usbConfiguration, usbTxBuf
      ensures Processing(request) && log == old(log) && Later() && usbTxLen == old(usbTxLen)
      ensures usbRxLen == old(usbRxLen) && usbRxToken == old(usbRxToken) && usbInputBufOffset == old(usbInputBufOffset)
      ensures len <= 254 && SrcOk(len) && usbTxBuf.Length == 11 && usbTxBuf[0] == old(usbTxBuf[0])
      ensures Src(len) == FullReply(rom, old(usbConfiguration), request)
      ensures usbNewDeviceAddr == if request[1] == 5 then request[2] else old(usbNewDeviceAddr)
      ensures usbConfiguration == if request[1] == 9 then request[2] else old(usbConfiguration)
      ensures point >= old(point) + 3
    {
      hide Delivered, Expected, Surplus, Processing, IsStandard, Bytes;
      RomSizes(request);
      var value := Rq(request, rq, 2);
      usbTxBuf[9] := 0;
      var bRequest := Rq(request, rq, 1);
      if bRequest == 6 {
        len := UsbDriverDescriptor(request, rq);
      } else {
        hide Delivered, Expected, Surplus, FullReply;
        var dataPtr;
        dataPtr, len := ReplyFromRam(request, bRequest, value);
        usbMsgPtr := dataPtr;
      }
    }

    /** The state in which the waiting SETUP may be released: what the endpoint will owe then
        is ready to be built. */
    ghost predicate Answered(request: seq<bv8>)
      reads `usbTxLen, `usbMsgLen, `usbMsgPtr, `usbMsgRom, `usbConfiguration, `usbNewDeviceAddr, `log, usbTxBuf
    {
      && E().IsSetup() && E().request == request && Buffers() && MsgOk() && usbTxLen == TX_NAK
      && Rest() == AfterRequest(rom, E()).toSend
      && usbNewDeviceAddr == AfterRequest(rom, E()).newAddress
      && usbConfiguration == AfterRequest(rom, E()).configuration
    }

    /** usbProcessRx */
    method UsbProcessRx(ghost request: seq<bv8>, data: nat, len: nat)
      requires Processing(request) && MainOk() && len == |request| && data == 12 - usbInputBufOffset
      modifies `usbInputBufOffset, `usbRxLen, `usbRxToken, `usbCurrentTok, `usbTxLen, `usbDeviceAddr
      modifies `log, usbRxBuf, `point
      modifies usbTxBuf, `usbMsgPtr, `usbMsgRom, `usbMsgLen, `usbNewDeviceAddr, `usbConfiguration
      ensures Processing(request) && log == old(log) && Later()
      ensures if E().IsSetup() then Answered(request) else MainOk()
    {
      hide Delivered, Expected, Surplus, Processing, MainOk, Run, ControlTransfer.Packets, Toggle, Answered, Src, Rest;
      BeforeRequest(request);
      if usbRxToken != SETUP { return; }
      if len != 8 { return; }
      AnswerSetup(request, data);
    }

    /** Standard requests are the driver's, the others go to usbFunctionSetup, which switches a
        pin and returns 0. */
    method ReplyTo(ghost request: seq<bv8>, data: nat) returns (replyLen: nat)
      requires Processing(request) && |request| == 8 && data == 12 - usbInputBufOffset
      requires Behind(usbMsgPtr, 0) && !usbMsgRom
      modifies `usbInputBufOffset, `usbRxLen, `usbRxToken, `usbCurrentTok, `usbTxLen, `usbDeviceAddr
      modifies `log, usbRxBuf, `point
      modifies `usbMsgPtr, `usbMsgRom, `usbNewDeviceAddr, `usbConfiguration, usbTxBuf
      ensures Processing(request) && log == old(log) && Later() && usbTxLen == old(usbTxLen)
      ensures usbInputBufOffset == old(usbInputBufOffset)
      ensures replyLen <= 254 && SrcOk(replyLen) && usbTxBuf.Length == 11 && usbTxBuf[0] == old(usbTxBuf[0])
      ensures Src(replyLen) == FullReply(rom, old(usbConfiguration), request)
      ensures usbNewDeviceAddr == if IsStandard(request) && request[1] == 5 then request[2] else old(usbNewDeviceAddr)
      ensures usbConfiguration == if IsStandard(request) && request[1] == 9 then request[2] else old(usbConfiguration)
      ensures point >= old(point) + 2
    {
      hide Delivered, Expected, Surplus, Processing, IsStandard, FullReply;
      RomSizes(request);
      var requestType := Rq(request, data, 0);
      StandardIs(request);
      FullReplyOther(request);
      if requestType & 0x60 != 0 {
        replyLen := 0;
        BusWhileProcessing(request);
      } else {
        replyLen := UsbDriverSetup(request, data);
      }
    }

    /** The next data packet is DATA1, and what was ready is not sent any more. */
    method Abort(ghost request: seq<bv8>)
      requires Processing(request) && usbTxBuf.Length == 11 && usbTxBuf != usbRxBuf
      modifies `usbInputBufOffset, `usbRxLen, `usbRxToken, `usbCurrentTok, `usbTxLen, `usbDeviceAddr
      modifies `log, usbRxBuf, `point, usbTxBuf
      ensures Processing(request) && log == old(log) && Later() && usbTxLen == TX_NAK && usbTxBuf[0] == DATA0
      ensures usbInputBufOffset == old(usbInputBufOffset)
      ensures point == old(point) + 2
    {
      hide Delivered, Expected, Surplus, Processing;
      usbTxBuf[0] := DATA0;
      BusWhileProcessing(request);
      SetTxLenNak(request);
      BusWhileProcessing(request);
    }

    /** The SETUP branch of usbProcessRx. */
    method AnswerSetup(ghost request: seq<bv8>, data: nat)
      requires Processing(request) && |request| == 8 && data == 12 - usbInputBufOffset
      requires E().IsSetup() && E().request == request && Behind(usbMsgPtr, 0)
      requires usbConfiguration == E().configuration && usbNewDeviceAddr == E().newAddress
      modifies `usbInputBufOffset, `usbRxLen, `usbRxToken, `usbCurrentTok, `usbTxLen, `usbDeviceAddr
      modifies `log, usbRxBuf, `point
      modifies usbTxBuf, `usbMsgPtr, `usbMsgRom, `usbMsgLen, `usbNewDeviceAddr, `usbConfiguration
      ensures Processing(request) && log == old(log) && Later() && Answered(request)
    {
      hide Delivered, Expected, Surplus, Processing, Run, ControlTransfer.Packets, Toggle, IsStandard, FullReply, Bytes;
      RomSizes(request);
      Abort(request);
      usbMsgRom := false;
      var replyLen := ReplyTo(request, data);
      LimitReply(request, data, replyLen);
      StartsWithData1();
    }

    lemma StandardIs(request: seq<bv8>)
      requires |request| == 8
      ensures IsStandard(request) <==> request[0] & 0x60 == 0
    {}

    lemma FullReplyOther(request: seq<bv8>)
      requires |request| == 8
      ensures !IsStandard(request) ==> FullReply(rom, usbConfiguration, request) == []
    {}

    /** The last lines of the SETUP branch: no more than wLength bytes. */
    method LimitReply(ghost request: seq<bv8>, data: nat, n: nat)
      requires Processing(request) && |request| == 8 && data == 12 - usbInputBufOffset
      requires n <= 254 && usbTxBuf.Length == 11 && SrcOk(n)
      modifies `usbInputBufOffset, `usbRxLen, `usbRxToken, `usbCurrentTok, `usbTxLen, `usbDeviceAddr
      modifies `log, usbRxBuf, `point
      modifies `usbMsgLen
      ensures Processing(request) && log == old(log) && Later() && usbTxLen == old(usbTxLen)
      ensures MsgOk() && usbMsgLen != NO_MSG
      ensures Src(usbMsgLen) == var full := Src(n);
        if Requested(request) < |full| then full[..Requested(request)] else full
      ensures point == old(point) + 3
    {
      hide Delivered, Expected, Surplus, Processing, Bytes, Requested;
      RomSizes(request);
      var replyLen := n;
      var high := Rq(request, data, 7);
      var low := Rq(request, data, 6);
      Limit(Src(n), request);
      if high == 0 && replyLen > low as nat {
        replyLen := low as nat;
      }
      BytesSplit(usbMsgPtr, usbTxBuf[9..], usbConfiguration, n, replyLen);
      BytesSplit(usbMsgPtr, usbTxBuf[9..], usbConfiguration, n, 0);
      ghost var full := Src(n);
      assert full[..n] == full;
      usbMsgLen := replyLen;
      BusWhileProcessing(request);
    }

    method SetTxLenNak(ghost request: seq<bv8>)
      requires Processing(request)
      modifies `usbTxLen
      ensures Processing(request) && usbTxLen == TX_NAK
    {
      hide Delivered, Expected, Surplus, Run, Legal;
      usbTxLen := TX_NAK;
    }

    lemma BeforeRequest(request: seq<bv8>)
      requires Processing(request) && MainOk()
      ensures E().token == usbRxToken && E().request == request && Behind(usbMsgPtr, 0)
      ensures usbConfiguration == E().configuration && usbNewDeviceAddr == E().newAddress
    {}

    // ---- usbPoll ----

    /** Power-up state of the C variables. */
    constructor (rom: Descriptors, bus: nat -> seq<seq<bv8>>, lineIsSe0: nat -> bool)
      requires rom.Valid()
      ensures Shape() && RxOk() && MainOk() && log == []
      ensures this.rom == rom && this.bus == bus
      ensures fresh(usbRxBuf) && fresh(usbTxBuf)
    {
      this.rom, this.bus, this.lineIsSe0 := rom, bus, lineIsSe0;
      usbRxBuf := new bv8[22];
      usbTxBuf := new bv8[11];
      usbInputBufOffset, usbRxLen, usbRxToken, usbCurrentTok := 0, 0, 0, 0;
      usbTxLen, usbDeviceAddr, usbNewDeviceAddr := TX_NAK, 0, 0;
      usbConfiguration, usbMsgPtr, usbMsgLen, usbMsgRom := 0, TxBuf(0), NO_MSG, false;
      point := 0;
      log := [];
    }

    method Release(ghost request: seq<bv8>)
      requires Processing(request) && (if E().IsSetup() then Answered(request) else MainOk())
      modifies `usbRxLen, `log
      ensures Shape() && RxOk() && MainOk() && usbRxLen == 0
      ensures log == old(log) + [Processed] && Surplus() == old(Surplus())
    {
      hide AcceptedCount, Expected, Run, Legal, ControlTransfer.Packets, Bytes, Received, IsStandard, Reply;
      usbRxLen := 0;
      OneMore(rom, POWER_UP, log, Processed);
      CountOne(log, Processed);
      log := log + [Processed];
    }

    /** Either nothing has been taken out of the transmit buffer, or a packet has been sent. */
    ghost predicate Progress(before: seq<Event>, txLen: nat, owed: seq<seq<bv8>>)
      reads `usbTxLen, `log
    {
      if usbTxLen == txLen then E().toSend == owed else SentSince(before, log)
    }

    method BusWhileIdle()
      requires Shape() && RxOk() && MainOk()
      modifies `usbInputBufOffset, `usbRxLen, `usbRxToken, `usbCurrentTok, `usbTxLen, `usbDeviceAddr
      modifies `log, usbRxBuf, `point
      ensures Shape() && RxOk() && MainOk()
      ensures old(usbRxLen) > 0 ==>
        && usbRxLen == old(usbRxLen) && usbInputBufOffset == old(usbInputBufOffset)
        && log == old(log) && Received() == old(Received())
      ensures old(usbTxLen) == TX_NAK ==> usbTxLen == TX_NAK
      ensures Onward() && point == old(point) + 1 && Progress(old(log), old(usbTxLen), old(E().toSend))
      ensures Delivered()
    {
      hide Delivered, Expected, Surplus, Run, Legal, Next, RxOk, TxOk, MainOk, SentSince, Onward, OtherHalf, Received;
      Interruptible();
      Bus();
      StaysOk();
    }

    lemma Interruptible()
      requires Shape() && MainOk()
      ensures TxOk() && (usbTxLen != TX_NAK ==> !IsHandshake(usbTxLen))
    {
      hide Run, ControlTransfer.Packets, Bytes;
    }

    /** An interrupt keeps what holds between the statements of usbPoll. */
    twostate lemma StaysOk()
      requires old(Shape() && MainOk()) && Undisturbed()
      requires usbMsgLen == old(usbMsgLen) && usbMsgPtr == old(usbMsgPtr) && usbMsgRom == old(usbMsgRom)
      requires usbConfiguration == old(usbConfiguration) && usbNewDeviceAddr == old(usbNewDeviceAddr)
      requires unchanged(usbTxBuf)
      ensures Shape() && RxOk() && MainOk() && Progress(old(log), old(usbTxLen), old(E().toSend))
      ensures old(usbTxLen) == TX_NAK ==> usbTxLen == TX_NAK
    {
      hide Run, Legal, Next, ControlTransfer.Packets, Bytes, RxOk, TxOk, SentSince, OtherHalf, Received;
      assert usbTxBuf[..] == old(usbTxBuf[..]);
      assert usbTxBuf[9..] == usbTxBuf[..][9..] && old(usbTxBuf[9..]) == old(usbTxBuf[..][9..]);
      assert Rest() == old(Rest());
    }

    /** The first part of usbPoll: process a received packet and make the buffer available. */
    method TakePacket()
      requires Shape() && RxOk() && MainOk()
      modifies `usbInputBufOffset, `usbRxLen, `usbRxToken, `usbCurrentTok, `usbTxLen, `usbDeviceAddr
      modifies `log, usbRxBuf, `point
      modifies usbTxBuf, `usbMsgPtr, `usbMsgRom, `usbMsgLen, `usbNewDeviceAddr, `usbConfiguration
      ensures Shape() && RxOk() && MainOk()
      ensures old(usbRxLen) > 0 ==> log == old(log) + [Processed]
      ensures Onward()
      ensures point > old(point)
    {
      hide Delivered, Expected, Surplus, MainOk, RxOk, Answered;
      var len: int := usbRxLen - 3;
      BusWhileIdle();
      if len >= 0 {
        ghost var request := Received();
        UsbProcessRx(request, 12 - usbInputBufOffset, len);
        Release(request);
      }
    }

    method ClearNewAddress()
      requires Shape() && RxOk() && MainOk()
      modifies `usbNewDeviceAddr, `log
      ensures E().toSend == old(E().toSend)
      ensures Shape() && RxOk() && MainOk() && log == old(log) + [AddressCleared]
      ensures usbNewDeviceAddr == 0 && Surplus() == old(Surplus())
    {
      hide AcceptedCount, Expected, Run, Legal, ControlTransfer.Packets, Bytes;
      OneMore(rom, POWER_UP, log, AddressCleared);
      CountOne(log, AddressCleared);
      usbNewDeviceAddr := 0;
      log := log + [AddressCleared];
    }

    method ResetAddress()
      requires Shape() && RxOk() && MainOk()
      modifies `usbDeviceAddr, `log
      ensures E().toSend == old(E().toSend)
      ensures Shape() && RxOk() && MainOk() && log == old(log) + [AddressReset]
      ensures usbDeviceAddr == 0 && Surplus() == old(Surplus())
    {
      hide AcceptedCount, Expected, Run, Legal, ControlTransfer.Packets, Bytes;
      OneMore(rom, POWER_UP, log, AddressReset);
      CountOne(log, AddressReset);
      usbDeviceAddr := 0;
      log := log + [AddressReset];
    }

    /** The last part of usbPoll: a long SE0 is a bus reset. */
    method CheckReset()
      requires Shape() && RxOk() && MainOk()
      modifies `usbInputBufOffset, `usbRxLen, `usbRxToken, `usbCurrentTok, `usbTxLen, `usbDeviceAddr
      modifies `log, usbRxBuf, `point
      modifies `usbNewDeviceAddr
      ensures Shape() && RxOk() && MainOk()
      ensures if lineIsSe0(old(point))
        then
          && usbNewDeviceAddr == 0 && usbDeviceAddr == 0 && old(log) + [AddressCleared] <= log
          && point == old(point) + 1 && ResetCount(log) == ResetCount(old(log)) + 1
        else
          && log == old(log) && usbTxLen == old(usbTxLen) && usbNewDeviceAddr == old(usbNewDeviceAddr)
          && point == old(point) && usbDeviceAddr == old(usbDeviceAddr)
      ensures OnwardOrReset(ResetIn(old(point), point)) && Progress(old(log), old(usbTxLen), old(E().toSend))
    {
      hide Delivered, Expected, Surplus, RxOk, MainOk, Run, Follows, SentSince, ResetCount;
      ghost var start, t := log, Expected().(reset := lineIsSe0(point));
      FollowsItself(start, t);
      if lineIsSe0(point) {
        ClearNewAddress();
        ResetOne(start, AddressCleared);
        FollowsOne(start, start, AddressCleared, t);
        ghost var cleared, rest := log, Expected();
        BusWhileIdle();
        NoReset(cleared, log, rest);
        FollowsOn(start, cleared, log, t, rest);
        SentStays(start, cleared, log);
        ghost var idle := log;
        ResetAddress();
        ResetOne(idle, AddressReset);
        FollowsOne(start, idle, AddressReset, t);
        SentStays(start, idle, log);
      }
    }

    lemma NothingLeft()
      requires Shape() && MainOk() && usbTxLen == TX_NAK && usbMsgLen == NO_MSG
      ensures E().toSend == []
    {}

    /** The middle of usbPoll: if the transmit buffer is free, the next packet owed. */
    method BuildIfFree()
      requires Shape() && RxOk() && MainOk()
      modifies `usbInputBufOffset, `usbRxLen, `usbRxToken, `usbCurrentTok, `usbTxLen, `usbDeviceAddr
      modifies `log, usbRxBuf, `point
      modifies usbTxBuf, `usbMsgPtr, `usbMsgLen
      ensures Shape() && RxOk() && MainOk() && Onward()
      ensures usbTxLen == TX_NAK ==> E().toSend == []
      ensures point == old(point) + 1 || point == old(point) + 2 || point >= old(point) + 7
    {
      hide Delivered, Expected, Surplus, RxOk, MainOk, Run, Progress, Follows;
      BusWhileIdle();
      if IsHandshake(usbTxLen) {
        ghost var here, t := log, Expected();
        BusWhileIdle();
        FollowsOn(old(log), here, log, old(Expected()), t);
        if usbMsgLen != NO_MSG {
          here, t := log, Expected();
          UsbBuildTxBlock();
          FollowsOn(old(log), here, log, old(Expected()), t);
        } else {
          NothingLeft();
        }
      }
    }

    /** usbPoll up to here. */
    method TakeAndBuild()
      requires Shape() && RxOk() && MainOk()
      modifies `usbInputBufOffset, `usbRxLen, `usbRxToken, `usbCurrentTok, `usbTxLen, `usbDeviceAddr
      modifies `log, usbRxBuf, `point
      modifies usbTxBuf, `usbMsgPtr, `usbMsgRom, `usbMsgLen, `usbNewDeviceAddr, `usbConfiguration
      ensures Shape() && RxOk() && MainOk() && Onward()
      ensures if old(usbRxLen) > 0 then old(log) + [Processed] <= log else old(log) <= log
      ensures usbTxLen == TX_NAK ==> E().toSend == []
    {
      hide Delivered, Expected, Surplus, RxOk, MainOk, Run, Follows;
      TakePacket();
      ghost var taken, t := log, Expected();
      BuildIfFree();
      FollowsOn(old(log), taken, log, old(Expected()), t);
    }

    /** usbPoll.  `looked` is the point at which it looks for a long SE0. */
    method UsbPoll() returns (ghost looked: nat)
      requires Shape() && RxOk() && MainOk()
      modifies `usbInputBufOffset, `usbRxLen, `usbRxToken, `usbCurrentTok, `usbTxLen, `usbDeviceAddr
      modifies `log, usbRxBuf, `point
      modifies usbTxBuf, `usbMsgPtr, `usbMsgRom, `usbMsgLen, `usbNewDeviceAddr, `usbConfiguration
      ensures Shape() && RxOk() && MainOk()
      ensures if old(usbRxLen) > 0 then old(log) + [Processed] <= log else old(log) <= log
      ensures OnwardOrReset(ResetIn(old(point), point))
      ensures usbTxLen == TX_NAK && E().toSend != [] ==> SentSince(old(log), log)
      ensures old(point) < looked
      ensures if lineIsSe0(looked)
        then usbDeviceAddr == 0 && usbNewDeviceAddr == 0 && point == looked + 1
        else point == looked
      ensures ResetCount(log) == ResetCount(old(log)) + if lineIsSe0(looked) then 1 else 0
    {
      hide Delivered, Expected, Surplus, RxOk, MainOk, Run, SentSince, Follows, ResetCount;
      TakeAndBuild();
      ghost var ready, t1 := log, Expected();
      BusWhileIdle();
      FollowsOn(old(log), ready, log, old(Expected()), t1);
      NoReset(old(log), log, old(Expected()));
      looked := point;
      ghost var polled, t2 := log, Expected();
      CheckReset();
      ghost var reset := ResetIn(old(point), point);
      FollowsWithin(old(log), polled, old(Expected()), old(Expected()).(reset := reset));
      FollowsOn(old(log), polled, log, old(Expected()).(reset := reset), t2.(reset := ResetIn(looked, point)));
      SentStays(ready, polled, log);
      SentStays(old(log), ready, log);
    }

    /** At how many of these points the line is SE0. */
    ghost function Se0Count(looks: seq<nat>): nat
    {
      if looks == [] then 0
      else Se0Count(looks[..|looks| - 1]) + (if lineIsSe0(looks[|looks| - 1]) then 1 else 0)
    }

    lemma NoLook()
      ensures Se0Count([]) == 0 && Rising(point, [], point)
    {}

    lemma CountLook(looks: seq<nat>, p: nat)
      ensures Se0Count(looks + [p]) == Se0Count(looks) + if lineIsSe0(p) then 1 else 0
    {
      assert (looks + [p])[..|looks|] == looks;
    }

    /** The main loop, with any packets at any point: the history stays legal and the shared
        variables keep their ranges.  In each round it looks once for a long SE0, and each one
        seen is one reset. */
    method MainLoop(rounds: nat) returns (ghost looks: seq<nat>)
      requires Shape() && RxOk() && MainOk()
      modifies `usbInputBufOffset, `usbRxLen, `usbRxToken, `usbCurrentTok, `usbTxLen, `usbDeviceAddr
      modifies `log, usbRxBuf, `point
      modifies usbTxBuf, `usbMsgPtr, `usbMsgRom, `usbMsgLen, `usbNewDeviceAddr, `usbConfiguration
      ensures Shape() && RxOk() && MainOk() && OnwardOrReset(ResetIn(old(point), point))
      ensures !ResetIn(old(point), point) && !SentSince(old(log), log) ==> usbDeviceAddr == old(usbDeviceAddr)
      ensures |looks| == rounds && Rising(old(point), looks, point)
      ensures ResetCount(log) == ResetCount(old(log)) + Se0Count(looks)
      ensures rounds > 0 && lineIsSe0(looks[rounds - 1]) ==> usbDeviceAddr == 0 && usbNewDeviceAddr == 0
      ensures rounds > 0 && old(usbRxLen) > 0 ==> old(log) + [Processed] <= log
    {
      hide RxOk, MainOk, Expected, Surplus, ResetCount, Se0Count, Follows, Rising;
      looks := [];
      NoLook();
      FollowsItself(log, Expected().(reset := ResetIn(point, point)));
      for i := 0 to rounds
        invariant Shape() && RxOk() && MainOk() && OnwardOrReset(ResetIn(old(point), point))
        invariant |looks| == i && Rising(old(point), looks, point)
        invariant ResetCount(log) == ResetCount(old(log)) + Se0Count(looks)
        invariant i > 0 && lineIsSe0(looks[i - 1]) ==> usbDeviceAddr == 0 && usbNewDeviceAddr == 0
        invariant i > 0 && old(usbRxLen) > 0 ==> old(log) + [Processed] <= log
        invariant i == 0 ==> log == old(log) && usbRxLen == old(usbRxLen)
      {
        ghost var here, p, t := log, point, Expected();
        ghost var before := old(Expected()).(reset := ResetIn(old(point), p));
        ghost var looked := UsbPoll();
        ghost var now := old(Expected()).(reset := ResetIn(old(point), point));
        FollowsWithin(old(log), here, before, now);
        FollowsOn(old(log), here, log, now, t.(reset := ResetIn(p, point)));
        CountLook(looks, looked);
        RisingMore(old(point), looks, p, looked, point);
        looks := looks + [looked];
      }
      SameAddress();
    }

    twostate lemma SameAddress()
      requires old(Shape() && RxOk()) && Shape() && RxOk() && OnwardOrReset(ResetIn(old(point), point))
      ensures !ResetIn(old(point), point) && !SentSince(old(log), log) ==> usbDeviceAddr == old(usbDeviceAddr)
    {
      hide Delivered, Expected, Run, Legal, SentSince, Follows;
      var t := old(Expected()).(reset := ResetIn(old(point), point));
      if !t.reset && !SentSince(old(log), log) { AddressStays(rom, old(log), log, t); }
    }
  }

  /** `!wLength.bytes[1] && replyLen > wLength.bytes[0]` on one byte lengths is the same as
      comparing with the whole of wLength. */
  lemma Limit(full: seq<bv8>, request: seq<bv8>)
    requires |full| <= 254 && |request| == 8
    ensures Requested(request) < |full| <==> request[7] == 0 && |full| > request[6] as nat
    ensures Requested(request) < |full| ==> Requested(request) == request[6] as nat
  {}

  lemma StartsWithData1()
    ensures Toggle(DATA0) == DATA1
  {}
}
