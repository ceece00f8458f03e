/** A host doing control transfers with the driver, while anything else may happen on the bus
    as well. */
module Host {
  import opened Arithmetic
  import opened Bits
  import opened BusTraffic
  import opened Crc16
  import opened ControlTransfer
  import opened Endpoint
  import opened Device
  import opened Interrupt

  /** Between two calls of usbPoll. */
  ghost predicate Sound(d: Driver)
    reads d, d.usbRxBuf, d.usbTxBuf
  {
    d.Shape() && d.RxOk() && d.MainOk()
  }

  /** A SETUP token. */
  method SendSetup(d: Driver, address: bv8)
    requires Sound(d) && Lsl(address) == d.usbDeviceAddr
    modifies d, d.usbRxBuf
    ensures Sound(d) && d.log == old(d.log) && d.usbCurrentTok == SETUP && d.point == old(d.point)
  {
    hide Run, Legal, d.MainOk, d.TxOk, d.Undisturbed, d.Dealt, IsHandshake;
    d.Interruptible();
    var response := d.OnPacket([SETUP, address, 0]);
    d.StaysOk();
  }

  method SendData(d: Driver, request: seq<bv8>)
    requires Sound(d) && |request| == 8 && d.usbCurrentTok == SETUP && !d.E().waiting
    modifies d, d.usbRxBuf
    ensures Sound(d) && d.log == old(d.log) + [Accepted(SETUP, request)]
    ensures d.usbCurrentTok == SETUP && d.point == old(d.point)
  {
    hide Run, Legal, d.MainOk, d.TxOk, d.Undisturbed, d.Dealt, IsHandshake, DataPacket, Payload;
    Framed(DATA0, request);
    d.Interruptible();
    var response := d.OnPacket(DataPacket(DATA0, request));
    d.StaysOk();
  }

  lemma Framed(pid: bv8, payload: seq<bv8>)
    ensures |DataPacket(pid, payload)| == |payload| + 3 && DataPacket(pid, payload)[0] == pid
    ensures Payload(DataPacket(pid, payload)) == payload
  {
    hide Appended;
  }

  /** The handshake of the host: one byte, and the device has nothing to say to it. */
  method Acknowledge(d: Driver)
    requires Sound(d)
    modifies d, d.usbRxBuf
    ensures Sound(d) && d.log == old(d.log) && d.Later() && d.usbCurrentTok == 0
  {
    hide Run, Legal, d.MainOk, d.TxOk, d.Undisturbed, d.Dealt, IsHandshake, d.Later, AcceptedCount;
    d.Interruptible();
    var response := d.OnPacket([ACK]);
    d.StaysOk();
    SameTokenOrLess(d);
  }

  /** A packet from the host itself that is no SETUP. */
  twostate lemma SameTokenOrLess(d: Driver)
    requires d.point == old(d.point) && (d.usbCurrentTok == SETUP ==> old(d.usbCurrentTok) == SETUP)
    requires AcceptedCount(d.log) == AcceptedCount(old(d.log))
    ensures d.Later()
  {
    hide Unasked, AcceptedCount;
    UnaskedWithout(d.bus, d.point);
  }

  method InToken(d: Driver, address: bv8) returns (response: Response)
    requires Sound(d)
    modifies d, d.usbRxBuf
    ensures Sound(d) && d.log == if response.Data? then old(d.log) + [Sent(response.packet)] else old(d.log)
    ensures Lsl(address) == old(d.E().address) && !old(d.E().waiting) && old(d.usbTxLen) != TX_NAK ==> response.Data?
    ensures d.Later()
  {
    hide Run, Legal, d.MainOk, d.TxOk, d.Undisturbed, d.Dealt, IsHandshake, d.Later, AcceptedCount;
    d.Interruptible();
    response := d.OnPacket([IN, address, 0]);
    d.StaysOk();
    if response.Data? { CountOne(old(d.log), Sent(response.packet)); }
    SameTokenOrLess(d);
  }

  /** An IN token, and the host's handshake if it got data. */
  method AskIn(d: Driver, address: bv8)
    requires Sound(d)
    modifies d, d.usbRxBuf
    ensures Sound(d) && old(d.log) <= d.log
    ensures Lsl(address) == old(d.E().address) && !old(d.E().waiting) && old(d.usbTxLen) != TX_NAK ==>
      SentSince(old(d.log), d.log)
    ensures SentSince(old(d.log), d.log) ==> d.usbCurrentTok == 0
    ensures d.Onward()
  {
    hide Sound, Run, d.Expected, d.Surplus;
    var response := InToken(d, address);
    if response.Data? {
      Acknowledge(d);
      assert d.log[|old(d.log)|].Sent?;
    }
  }

  /** usbPoll, with anything on the bus meanwhile. */
  method Poll(d: Driver)
    requires Sound(d)
    modifies d, d.usbRxBuf, d.usbTxBuf
    ensures Sound(d)
    ensures if old(d.E().waiting) then old(d.log) + [Processed] <= d.log else old(d.log) <= d.log
    ensures d.usbTxLen == TX_NAK && d.E().toSend != [] ==> SentSince(old(d.log), d.log)
    ensures d.OnwardOrReset(d.ResetIn(old(d.point), d.point))
  {
    hide Run, Legal, Next, ControlTransfer.Packets, Bytes, d.MainOk, SentSince, d.OnwardOrReset;
    ghost var looked := d.UsbPoll();
  }

  lemma IsLegal(d: Driver)
    requires Sound(d)
    ensures Legal(d.rom, POWER_UP, d.log)
    ensures d.usbDeviceAddr == d.E().address && d.usbNewDeviceAddr == d.E().newAddress
    ensures d.usbConfiguration == d.E().configuration && (d.usbRxLen > 0 <==> d.E().waiting)
  {}

  lemma NothingOwed(d: Driver)
    requires Sound(d) && d.E().toSend == []
    ensures d.usbTxLen == TX_NAK && d.usbMsgLen == NO_MSG
  {}

  // ---- What a round achieves ----

  /** A host that uses this address reaches the device until it has everything. */
  predicate Reaches(s: State, address: bv8)
  {
    s.toSend == [] || (Lsl(address) == s.address && (|s.toSend| > 1 ==> s.newAddress << 1 == s.address))
  }

  /** As long as no other request takes effect, the host still reaches the device. */
  lemma StillReaches(rom: Descriptors, s: State, address: bv8, log: seq<Event>)
    requires Legal(rom, s, log) && OneTransfer(rom, s, log) && Reaches(s, address)
    ensures Reaches(Run(rom, s, log), address)
    ensures SentPackets(log) + Run(rom, s, log).toSend == s.toSend
  {
    Conservation(rom, s, log);
    AddressAfterData(rom, s, log);
  }

  /** One poll, then one IN token.  Unless a data packet was waiting to be processed when the
      token came, a packet has been sent, if there was one to send. */
  method Round(d: Driver, address: bv8) returns (busy: bool)
    requires Sound(d)
    modifies d, d.usbRxBuf, d.usbTxBuf
    ensures Sound(d) && old(d.log) <= d.log
    ensures Reaches(old(d.E()), address) && OneTransfer(d.rom, old(d.E()), d.log[|old(d.log)|..]) && !busy ==>
      SentSince(old(d.log), d.log) || d.E().toSend == []
    ensures busy ==> Accepts(d.log[|old(d.log)|..])
    ensures d.OnwardOrReset(d.ResetIn(old(d.point), d.point))
  {
    hide Sound, Run, Legal, SentSince, Reaches, OneTransfer, Accepts, Follows, d.Expected, d.Surplus;
    Poll(d);
    IsLegal(d);
    busy := d.usbRxLen > 0;
    ghost var polled, t, reset := d.log, d.Expected(), d.ResetIn(old(d.point), d.point);
    AskIn(d, address);
    IsLegal(d);
    ghost var now := old(d.Expected()).(reset := d.ResetIn(old(d.point), d.point));
    FollowsWithin(old(d.log), polled, old(d.Expected()).(reset := reset), now);
    FollowsOn(old(d.log), polled, d.log, now, t);
    RoundSends(d.rom, old(d.log), polled, d.log, address);
    BusyMeans(d.rom, old(d.log), polled, d.log);
  }

  /** Between poll and token the host still reaches the device, and what is all sent stays so. */
  lemma BetweenTheTwo(rom: Descriptors, s: State, r: seq<Event>, q: seq<Event>, address: bv8)
    requires Legal(rom, s, r + q) && OneTransfer(rom, s, r + q) && Reaches(s, address)
    ensures var t := Run(rom, s, r);
      if t.toSend == [] then Run(rom, t, q).toSend == [] else t.address == Lsl(address)
  {
    hide OneTransfer, SentPackets, Run, Legal;
    Cut(rom, s, r, q);
    CutTransfer(rom, s, r, q);
    StillReaches(rom, s, address, r);
    StillReaches(rom, Run(rom, s, r), address, q);
  }

  lemma RoundSends(rom: Descriptors, a: seq<Event>, b: seq<Event>, c: seq<Event>, address: bv8)
    requires a <= b <= c && Legal(rom, POWER_UP, c)
    ensures SentSince(a, b) || SentSince(b, c) ==> SentSince(a, c)
    ensures Reaches(Run(rom, POWER_UP, a), address) && OneTransfer(rom, Run(rom, POWER_UP, a), c[|a|..]) ==>
      var t := Run(rom, POWER_UP, b);
      if t.toSend == [] then Run(rom, POWER_UP, c).toSend == [] else t.address == Lsl(address)
  {
    hide OneTransfer, SentSince, Run, Legal, Reaches;
    SentStays(a, b, c);
    var s, r, q := Run(rom, POWER_UP, a), b[|a|..], c[|b|..];
    assert b == a + r && c == b + q && c == a + (r + q) && c[|a|..] == r + q;
    Cut(rom, POWER_UP, b, q);
    Cut(rom, POWER_UP, a, r);
    Cut(rom, POWER_UP, a, r + q);
    if Reaches(s, address) && OneTransfer(rom, s, r + q) { BetweenTheTwo(rom, s, r, q, address); }
  }

  /** What waits behind a poll was accepted during that poll: what waited before has been
      processed. */
  lemma BusyMeans(rom: Descriptors, a: seq<Event>, b: seq<Event>, c: seq<Event>)
    requires b <= c
    requires if Run(rom, POWER_UP, a).waiting then a + [Processed] <= b else a <= b
    ensures Run(rom, POWER_UP, b).waiting ==> Accepts(c[|a|..])
  {
    hide Run, Accepts, Next;
    if Run(rom, POWER_UP, a).waiting {
      OneMore(rom, POWER_UP, a, Processed);
      ProcessedWaitsNoMore(rom, Run(rom, POWER_UP, a));
      BusySince(rom, a + [Processed], b, c, |a|);
    } else {
      BusySince(rom, a, b, c, |a|);
    }
  }

  lemma BusySince(rom: Descriptors, a: seq<Event>, b: seq<Event>, c: seq<Event>, since: nat)
    requires a <= b <= c && since <= |a| && !Run(rom, POWER_UP, a).waiting
    ensures Run(rom, POWER_UP, b).waiting ==> Accepts(c[since..])
  {
    hide Run, Accepts;
    var r := b[|a|..];
    assert b == a + r && r <= c[|a|..];
    Cut(rom, POWER_UP, a, r);
    if Run(rom, POWER_UP, b).waiting {
      WaitsForAccepted(rom, Run(rom, POWER_UP, a), r);
      AcceptsInside(r, c, |a|, since);
    }
  }

  lemma AcceptsInside(r: seq<Event>, log: seq<Event>, from: nat, since: nat)
    requires since <= from <= |log| && r <= log[from..] && Accepts(r)
    ensures Accepts(log[since..])
  {
    var i :| 0 <= i < |r| && r[i].Accepted?;
    assert log[since..][from - since + i] == r[i];
  }

  lemma ProcessedWaitsNoMore(rom: Descriptors, s: State)
    ensures !Next(rom, s, Processed).waiting
  {
    hide ControlTransfer.Packets, Reply, IsStandard;
  }

  // ---- Control transfers ----

  /** The history behind `from` belongs to one transfer, and at least n of its packets have
      been sent, or all of them. */
  ghost predicate Served(rom: Descriptors, log: seq<Event>, from: nat, n: nat)
    requires from <= |log|
  {
    var s := Run(rom, POWER_UP, log[..from]);
    OneTransfer(rom, s, log[from..]) ==> |SentPackets(log[from..])| >= Min(n, |s.toSend|)
  }

  /** A round more. */
  lemma OneMoreRound(rom: Descriptors, s: State, since: seq<Event>, more: seq<Event>, address: bv8, n: nat, sends: bool)
    requires Legal(rom, s, since + more) && OneTransfer(rom, s, since + more) && Reaches(s, address)
    requires |SentPackets(since)| >= Min(n, |s.toSend|)
    requires var t := Run(rom, s, since);
      sends && Reaches(t, address) && OneTransfer(rom, t, more) ==>
        SentPackets(more) != [] || Run(rom, t, more).toSend == []
    ensures |SentPackets(since + more)| >= Min(if sends then n + 1 else n, |s.toSend|)
  {
    hide Reaches, OneTransfer, SentPackets, Legal, Run;
    Cut(rom, s, since, more);
    CutTransfer(rom, s, since, more);
    SentConcat(since, more);
    StillReaches(rom, s, address, since);
    StillReaches(rom, Run(rom, s, since), address, more);
  }

  lemma ServedMore(rom: Descriptors, from: nat, log: seq<Event>, log': seq<Event>, n: nat, address: bv8, sends: bool)
    requires from <= |log| && log <= log' && Legal(rom, POWER_UP, log')
    requires Reaches(Run(rom, POWER_UP, log[..from]), address) && Served(rom, log, from, n)
    requires var t, more := Run(rom, POWER_UP, log), log'[|log|..];
      sends && Reaches(t, address) && OneTransfer(rom, t, more) ==>
        SentPackets(more) != [] || Run(rom, POWER_UP, log').toSend == []
    ensures Served(rom, log', from, if sends then n + 1 else n)
  {
    hide Reaches, OneTransfer, SentPackets, Legal, Run;
    var start, since, more := log[..from], log[from..], log'[|log|..];
    var s := Run(rom, POWER_UP, start);
    assert log == start + since && log' == log + more && log'[from..] == since + more && log'[..from] == start;
    assert log' == start + (since + more);
    Cut(rom, POWER_UP, log, more);
    Cut(rom, POWER_UP, start, since);
    Cut(rom, POWER_UP, start, since + more);
    if OneTransfer(rom, s, since + more) {
      CutTransfer(rom, s, since, more);
      OneMoreRound(rom, s, since, more, address, n, sends);
    }
  }

  lemma SentInSuffix(a: seq<Event>, b: seq<Event>)
    requires a <= b
    ensures SentSince(a, b) ==> SentPackets(b[|a|..]) != []
  {
    SentSinceCounts(b[|a|..]);
    if SentSince(a, b) {
      var i :| |a| <= i < |b| && b[i].Sent?;
      assert b[|a|..][i - |a|].Sent?;
    }
  }

  /** Polls and IN tokens in turn.  Each round sends a packet until all are sent, except for
      the rounds in which a data packet was waiting to be processed. */
  method Serve(d: Driver, address: bv8, rounds: nat, ghost from: nat) returns (busy: nat)
    requires Sound(d) && from <= |d.log|
    requires Reaches(Run(d.rom, POWER_UP, d.log[..from]), address)
    modifies d, d.usbRxBuf, d.usbTxBuf
    ensures Sound(d) && old(d.log) <= d.log && busy <= rounds
    ensures Served(d.rom, d.log, from, rounds - busy)
    ensures busy <= AcceptedCount(d.log) - AcceptedCount(old(d.log)) <= DataPackets(d.bus, old(d.point), d.point)
    ensures d.OnwardOrReset(d.ResetIn(old(d.point), d.point))
  {
    hide Sound, Run, Legal, Reaches, OneTransfer, Accepts, SentPackets, Served, Follows, AcceptedCount;
    hide d.Expected, d.Surplus;
    busy := 0;
    NoneServed(d.rom, d.log, from);
    FollowsItself(d.log, d.Expected().(reset := d.ResetIn(d.point, d.point)));
    for i := 0 to rounds
      invariant Sound(d) && old(d.log) <= d.log && busy <= i
      invariant Served(d.rom, d.log, from, i - busy)
      invariant busy <= AcceptedCount(d.log) - AcceptedCount(old(d.log))
      invariant d.OnwardOrReset(d.ResetIn(old(d.point), d.point))
    {
      ghost var log, p, t := d.log, d.point, d.Expected();
      ghost var before := old(d.Expected()).(reset := d.ResetIn(old(d.point), p));
      var waiting := Round(d, address);
      IsLegal(d);
      ghost var now := old(d.Expected()).(reset := d.ResetIn(old(d.point), d.point));
      FollowsWithin(old(d.log), log, before, now);
      FollowsOn(old(d.log), log, d.log, now, t.(reset := d.ResetIn(p, d.point)));
      assert d.log[..from] == log[..from] == old(d.log)[..from];
      SentInSuffix(log, d.log);
      ServedMore(d.rom, from, log, d.log, i - busy, address, !waiting);
      CountSince(log, d.log);
      if waiting { busy := busy + 1; }
    }
    NoMoreThanOnBus(d);
  }

  twostate lemma NoMoreThanOnBus(d: Driver)
    requires d.Later()
    ensures AcceptedCount(d.log) - AcceptedCount(old(d.log)) <= DataPackets(d.bus, old(d.point), d.point)
  {
    hide AcceptedCount, Unasked;
    DataBetween(d.bus, 0, old(d.point), d.point);
  }

  lemma NoneServed(rom: Descriptors, log: seq<Event>, from: nat)
    requires from <= |log|
    ensures Served(rom, log, from, 0)
  {}

  lemma CountSince(log: seq<Event>, log': seq<Event>)
    requires log <= log'
    ensures AcceptedCount(log') == AcceptedCount(log) + AcceptedCount(log'[|log|..])
    ensures Accepts(log'[|log|..]) <==> AcceptedCount(log') > AcceptedCount(log)
  {
    assert log' == log + log'[|log|..];
    CountConcat(log, log'[|log|..]);
    AcceptsCounts(log'[|log|..]);
  }

  /** The request is on record, and once it is processed its answer is due. */
  lemma Requests(rom: Descriptors, log: seq<Event>, request: seq<bv8>, address: bv8)
    requires |request| == 8
    requires var s := Run(rom, POWER_UP, log); Lsl(address) == s.address && s.address == s.newAddress << 1
    ensures Run(rom, POWER_UP, log + [Accepted(SETUP, request)]).waiting
    ensures var s := Run(rom, POWER_UP, log);
      var u := Run(rom, POWER_UP, log + [Accepted(SETUP, request)] + [Processed]);
      && !u.waiting && Reaches(u, address)
      && u.toSend == ControlTransfer.Packets(Reply(rom, s.configuration, request), DATA1)
  {
    hide ControlTransfer.Packets, Reply;
    var s := Run(rom, POWER_UP, log);
    OneMore(rom, POWER_UP, log, Accepted(SETUP, request));
    OneMore(rom, POWER_UP, log + [Accepted(SETUP, request)], Processed);
    PacketsAt(Reply(rom, s.configuration, request), DATA1);
    NoReply(rom, s.configuration, request);
  }

  lemma NoReply(rom: Descriptors, configuration: bv8, request: seq<bv8>)
    requires |request| == 8
    ensures request[1] == 5 ==> Reply(rom, configuration, request) == []
  {}

  /** No other request takes effect behind `from`, and the bus is not reset. */
  ghost predicate Alone(d: Driver, from: nat)
    requires from <= |d.log|
    reads d`log
  {
    OneTransfer(d.rom, Run(d.rom, POWER_UP, d.log[..from]), d.log[from..])
  }

  /** No bus reset and no SETUP transaction of anyone else since a point, the token in force
      having been SETUP. */
  ghost predicate Calm(d: Driver, from: nat)
    reads d`point
  {
    !d.ResetIn(from, d.point) && Unasked(d.bus, from, true)
  }

  /** With no data packets at all the run is calm, and no round is busy. */
  lemma QuietIsCalm(d: Driver, from: nat)
    requires Quiet(d.bus, from) && !d.ResetIn(from, d.point)
    ensures Calm(d, from) && DataPackets(d.bus, from, d.point) == 0
  {
    QuietIsUnasked(d.bus, from, true);
    QuietCounts(d.bus, from, d.point);
  }

  /** What has happened since a SETUP was accepted at a point, and may happen from now on. */
  ghost predicate Since(d: Driver, asked: seq<Event>, from: nat, log: seq<Event>, point: nat, t: Traffic)
  {
    && from <= point && Follows(asked, log, Traffic(!Unasked(d.bus, from, true), d.ResetIn(from, point)))
    && t.Within(Traffic(!Unasked(d.bus, from, true), false))
    && AcceptedCount(log) <= AcceptedCount(asked) + DataPackets(d.bus, from, point)
  }

  ghost predicate SinceSetup(d: Driver, asked: seq<Event>, from: nat)
    reads d`point, d`log, d`usbCurrentTok
  {
    Since(d, asked, from, d.log, d.point, d.Expected())
  }

  /** The SETUP transaction, and the poll in which it is processed. */
  method Request(d: Driver, address: bv8, request: seq<bv8>)
    requires Sound(d) && !d.E().waiting && |request| == 8 && Lsl(address) == d.usbDeviceAddr
    modifies d, d.usbRxBuf, d.usbTxBuf
    ensures Sound(d) && old(d.log) + [Accepted(SETUP, request)] + [Processed] <= d.log
    ensures SinceSetup(d, old(d.log) + [Accepted(SETUP, request)], old(d.point))
  {
    hide Sound, Run, SinceSetup, d.OnwardOrReset;
    SendSetup(d, address);
    SendData(d, request);
    ghost var asked := d.log;
    OneMoreWaits(d.rom, old(d.log), request);
    PollAfterSetup(d, asked);
  }

  method PollAfterSetup(d: Driver, ghost asked: seq<Event>)
    requires Sound(d) && asked == d.log && d.usbCurrentTok == SETUP && d.E().waiting
    modifies d, d.usbRxBuf, d.usbTxBuf
    ensures Sound(d) && asked + [Processed] <= d.log
    ensures SinceSetup(d, asked, old(d.point))
  {
    hide Sound, Run, Unasked, Follows, AcceptedCount;
    Poll(d);
    DataBetween(d.bus, 0, old(d.point), d.point);
  }

  lemma OneMoreWaits(rom: Descriptors, log: seq<Event>, request: seq<bv8>)
    ensures Run(rom, POWER_UP, log + [Accepted(SETUP, request)]).waiting
  {
    OneMore(rom, POWER_UP, log, Accepted(SETUP, request));
  }

  /** More rounds. */
  lemma StillSince(d: Driver, asked: seq<Event>, from: nat, log: seq<Event>, p: nat, t: Traffic,
                   log': seq<Event>, p': nat, t': Traffic)
    requires Since(d, asked, from, log, p, t) && p <= p' && t'.Within(t) && !t.reset
    requires Follows(log, log', t.(reset := d.ResetIn(p, p')))
    requires AcceptedCount(log') - DataPackets(d.bus, 0, p') <= AcceptedCount(log) - DataPackets(d.bus, 0, p)
    ensures Since(d, asked, from, log', p', t')
  {
    hide Unasked, Follows, AcceptedCount, DataPackets;
    var all := Traffic(!Unasked(d.bus, from, true), d.ResetIn(from, p'));
    FollowsWithin(asked, log, Traffic(!Unasked(d.bus, from, true), d.ResetIn(from, p)), all);
    FollowsOn(asked, log, log', all, t.(reset := d.ResetIn(p, p')));
    DataBetween(d.bus, 0, p, p');
    DataBetween(d.bus, from, p, p');
  }

  method ServeSince(d: Driver, address: bv8, rounds: nat, ghost from: nat, ghost asked: seq<Event>, ghost p: nat)
    returns (busy: nat)
    requires Sound(d) && from <= |d.log| && SinceSetup(d, asked, p)
    requires Reaches(Run(d.rom, POWER_UP, d.log[..from]), address)
    modifies d, d.usbRxBuf, d.usbTxBuf
    ensures Sound(d) && old(d.log) <= d.log && busy <= rounds && SinceSetup(d, asked, p)
    ensures Served(d.rom, d.log, from, rounds - busy)
    ensures busy <= AcceptedCount(d.log) - AcceptedCount(old(d.log))
  {
    hide Sound, Run, Reaches, Served, AcceptedCount, Since, Follows, d.Expected, DataPackets;
    ghost var log, point, t := d.log, d.point, d.Expected();
    busy := Serve(d, address, rounds, from);
    StillSince(d, asked, p, log, point, t, d.log, d.point, d.Expected());
  }

  /** A whole control transfer towards the host: a SETUP, then polls and IN tokens in turn.
      Whatever else is on the bus during usbPoll, tokens of the same host included, as long as
      no other request takes effect the DATA packets on the bus are those of the answer, all
      of them after enough rounds.  No other request takes effect if there is no other SETUP
      transaction and no reset, and a round can be busy only for a data packet on the bus. */
  method ControlIn(d: Driver, address: bv8, request: seq<bv8>, rounds: nat)
    returns (packets: seq<seq<bv8>>, busy: nat)
    requires Sound(d) && !d.E().waiting && |request| == 8
    requires Lsl(address) == d.usbDeviceAddr && d.usbDeviceAddr == d.usbNewDeviceAddr << 1
    modifies d, d.usbRxBuf, d.usbTxBuf
    ensures Sound(d) && old(d.log) + [Accepted(SETUP, request)] + [Processed] <= d.log
    ensures packets == SentPackets(d.log[|old(d.log)| + 2..]) && busy <= rounds
    ensures busy > 0 ==> Accepts(d.log[|old(d.log)| + 2..])
    ensures forall p :: p in packets ==> |p| >= 3
    ensures var reply := Reply(d.rom, old(d.usbConfiguration), request);
      Alone(d, |old(d.log)| + 2) ==>
        && packets <= ControlTransfer.Packets(reply, DATA1)
        && (rounds - busy > |reply| / 8 ==>
            && packets == ControlTransfer.Packets(reply, DATA1) && Collect(packets) == reply
            && d.usbTxLen == TX_NAK && d.usbMsgLen == NO_MSG)
    ensures Calm(d, old(d.point)) ==> Alone(d, |old(d.log)| + 2)
    ensures busy <= DataPackets(d.bus, old(d.point), d.point)
  {
    hide Collect, Sound, Run, Legal, Reaches, OneTransfer, Accepts, SentPackets, Served, Reply, ControlTransfer.Packets;
    hide SinceSetup, Calm, Alone, d.OnwardOrReset, AcceptedCount;
    IsLegal(d);
    var from := |d.log| + 2;
    ghost var start, p := d.log + [Accepted(SETUP, request)], d.point;
    Requests(d.rom, d.log, request, address);
    Request(d, address, request);
    assert d.log[..from] == start + [Processed];
    ghost var log := d.log;
    busy := ServeSince(d, address, rounds, from, start, p);
    assert d.log[..from] == start + [Processed];
    packets := SentPackets(d.log[from..]);
    IsLegal(d);
    CanCollect(d, from);
    CollectPackets(Reply(d.rom, old(d.usbConfiguration), request), DATA1);
    AllServed(d, from, address, Reply(d.rom, old(d.usbConfiguration), request), rounds - busy);
    CalmIsAlone(d, start, p);
    BusyCount(d, start, log, p, busy);
  }

  lemma CalmIsAlone(d: Driver, asked: seq<Event>, p: nat)
    requires Sound(d) && asked + [Processed] <= d.log && SinceSetup(d, asked, p)
    requires !Run(d.rom, POWER_UP, asked + [Processed]).waiting
    ensures Calm(d, p) ==> Alone(d, |asked| + 1)
  {
    hide Sound, Run, Legal, OneTransfer, Unasked, AcceptedCount, DataPackets, Follows, Harmless;
    IsLegal(d);
    var start, since := asked + [Processed], d.log[|asked| + 1..];
    assert d.log == start + since && d.log[..|asked| + 1] == start;
    Cut(d.rom, POWER_UP, start, since);
    if Calm(d, p) {
      FollowsLater(asked, start, d.log, Traffic(false, false));
      HarmlessSince(start, d.log);
      HarmlessIsOneTransfer(d.rom, Run(d.rom, POWER_UP, start), since);
    }
  }

  lemma BusyCount(d: Driver, asked: seq<Event>, polled: seq<Event>, p: nat, busy: nat)
    requires asked + [Processed] <= polled <= d.log && SinceSetup(d, asked, p)
    requires busy <= AcceptedCount(d.log) - AcceptedCount(polled)
    ensures busy <= DataPackets(d.bus, p, d.point)
    ensures busy > 0 ==> Accepts(d.log[|asked| + 1..])
  {
    hide AcceptedCount, Accepts, Unasked, Follows;
    CountOne(asked, Processed);
    CountSince(asked + [Processed], polled);
    CountSince(asked + [Processed], d.log);
  }

  /** Packets can be taken apart whatever else was going on. */
  lemma CanCollect(d: Driver, from: nat)
    requires Sound(d) && from <= |d.log|
    ensures forall p :: p in SentPackets(d.log[from..]) ==> |p| >= 3
  {
    hide SentPackets, Sound, Legal;
    IsLegal(d);
    assert d.log == d.log[..from] + d.log[from..];
    SizedPart(d.rom, d.log[..from], d.log[from..]);
  }

  lemma AllServed(d: Driver, from: nat, address: bv8, reply: seq<bv8>, n: nat)
    requires Sound(d) && from <= |d.log| && Served(d.rom, d.log, from, n)
    requires var s := Run(d.rom, POWER_UP, d.log[..from]);
      Reaches(s, address) && s.toSend == ControlTransfer.Packets(reply, DATA1)
    ensures var packets := SentPackets(d.log[from..]);
      Alone(d, from) ==>
        && packets <= ControlTransfer.Packets(reply, DATA1)
        && (n > |reply| / 8 ==>
            packets == ControlTransfer.Packets(reply, DATA1) && d.usbTxLen == TX_NAK && d.usbMsgLen == NO_MSG)
  {
    hide Sound, Run, Legal, Reaches, OneTransfer, SentPackets, ControlTransfer.Packets;
    IsLegal(d);
    var start, since := d.log[..from], d.log[from..];
    assert d.log == start + since;
    Cut(d.rom, POWER_UP, start, since);
    PacketsAt(reply, DATA1);
    if Alone(d, from) {
      StillReaches(d.rom, Run(d.rom, POWER_UP, start), address, since);
      if n > |reply| / 8 { NothingOwed(d); }
    }
  }
}
