/** The control endpoint as an abstract machine: which events may happen, in which order.  The
    driver is proved to produce only such histories; here is what they guarantee. */
module Endpoint {
  import opened Crc16
  import opened ControlTransfer

  datatype Event =
    | Accepted(token: bv8, data: seq<bv8>)  // a data packet was stored and acknowledged
    | Processed                             // the main loop has dealt with it
    | Sent(packet: seq<bv8>)                // a DATA packet went out in answer to IN
    | AddressCleared                        // the two assignments at a bus reset
    | AddressReset

  datatype State = State(waiting: bool, token: bv8, request: seq<bv8>, toSend: seq<seq<bv8>>,
                         newAddress: bv8, address: bv8, configuration: bv8)
  {
    /** A SETUP of any other length is acknowledged and ignored. */
    predicate IsSetup() { token == SETUP && |request| == 8 }
  }

  const POWER_UP := State(false, 0, [], [], 0, 0, 0)

  function AfterRequest(rom: Descriptors, s: State): State
    requires s.IsSetup()
  {
    var standard := IsStandard(s.request);
    s.(waiting := false,
       toSend := Packets(Reply(rom, s.configuration, s.request), DATA1),
       newAddress := if standard && s.request[1] == 5 then s.request[2] else s.newAddress,
       configuration := if standard && s.request[1] == 9 then s.request[2] else s.configuration)
  }

  function Next(rom: Descriptors, s: State, e: Event): State
  {
    match e
    case Accepted(token, data) => s.(waiting := true, token := token, request := data)
    case Processed => if s.IsSetup() then AfterRequest(rom, s) else s.(waiting := false)
    case Sent(packet) => s.(toSend := if s.toSend == [] then [] else s.toSend[1..], address := s.newAddress << 1)
    case AddressCleared => s.(newAddress := 0)
    case AddressReset => s.(address := 0)
  }

  /** One packet at a time is accepted; nothing is sent while one waits to be processed, and
      otherwise only the next packet of the current answer. */
  predicate Allowed(s: State, e: Event)
  {
    match e
    case Accepted(_, _) => !s.waiting
    case Processed => s.waiting
    case Sent(packet) => !s.waiting && s.toSend != [] && packet == s.toSend[0]
    case AddressCleared => true
    case AddressReset => true
  }

  function Run(rom: Descriptors, s: State, log: seq<Event>): State
  {
    if log == [] then s else Next(rom, Run(rom, s, log[..|log| - 1]), log[|log| - 1])
  }

  predicate Legal(rom: Descriptors, s: State, log: seq<Event>)
  {
    log == [] ||
    (Legal(rom, s, log[..|log| - 1]) && Allowed(Run(rom, s, log[..|log| - 1]), log[|log| - 1]))
  }

  lemma OneMore(rom: Descriptors, s: State, log: seq<Event>, e: Event)
    ensures Run(rom, s, log + [e]) == Next(rom, Run(rom, s, log), e)
    ensures Legal(rom, s, log) && Allowed(Run(rom, s, log), e) ==> Legal(rom, s, log + [e])
  {
    assert (log + [e])[..|log|] == log;
  }

  /** A run can be cut anywhere. */
  lemma {:induction false} Cut(rom: Descriptors, s: State, a: seq<Event>, b: seq<Event>)
    ensures Run(rom, s, a + b) == Run(rom, Run(rom, s, a), b)
    ensures Legal(rom, s, a + b) <==> Legal(rom, s, a) && Legal(rom, Run(rom, s, a), b)
  {
    if b == [] {
      assert a + b == a;
    } else {
      var front := b[..|b| - 1];
      Cut(rom, s, a, front);
      assert (a + b)[..|a + b| - 1] == a + front;
    }
  }

  // ---- What a legal history guarantees ----

  /** The DATA packets of a history. */
  function SentPackets(log: seq<Event>): seq<seq<bv8>>
  {
    if log == [] then [] else
      SentPackets(log[..|log| - 1]) + (if log[|log| - 1].Sent? then [log[|log| - 1].packet] else [])
  }

  /** A DATA packet has gone out since. */
  predicate SentSince(before: seq<Event>, log: seq<Event>)
  {
    exists i :: |before| <= i < |log| && log[i].Sent?
  }

  lemma SentStays(a: seq<Event>, b: seq<Event>, c: seq<Event>)
    requires a <= b <= c
    ensures SentSince(a, b) || SentSince(b, c) ==> SentSince(a, c)
  {}

  /** What may be on the bus: SETUP transactions, and resets. */
  datatype Traffic = Traffic(setup: bool, reset: bool)
  {
    predicate Within(t: Traffic)
    {
      (setup ==> t.setup) && (reset ==> t.reset)
    }
  }

  predicate Fits(e: Event, t: Traffic)
  {
    match e
    case Accepted(token, data) => token == SETUP && |data| == 8 ==> t.setup
    case Processed => true
    case Sent(packet) => true
    case AddressCleared => t.reset
    case AddressReset => t.reset
  }

  /** A history goes on, with such traffic. */
  predicate Follows(before: seq<Event>, log: seq<Event>, t: Traffic)
  {
    before <= log && forall i :: |before| <= i < |log| ==> Fits(log[i], t)
  }

  lemma FollowsItself(log: seq<Event>, t: Traffic)
    ensures Follows(log, log, t)
  {}

  lemma FollowsOne(before: seq<Event>, log: seq<Event>, e: Event, t: Traffic)
    requires Follows(before, log, t) && Fits(e, t)
    ensures Follows(before, log + [e], t)
  {}

  lemma FollowsOn(a: seq<Event>, b: seq<Event>, c: seq<Event>, t: Traffic, t': Traffic)
    requires Follows(a, b, t) && Follows(b, c, t') && t'.Within(t)
    ensures Follows(a, c, t) && a <= b <= c
  {}

  lemma FollowsLater(a: seq<Event>, b: seq<Event>, c: seq<Event>, t: Traffic)
    requires Follows(a, c, t) && a <= b <= c
    ensures Follows(b, c, t)
  {}

  lemma FollowsWithin(a: seq<Event>, b: seq<Event>, t: Traffic, t': Traffic)
    requires Follows(a, b, t) && t.Within(t')
    ensures Follows(a, b, t') && a <= b
  {}

  /** How many data packets have been accepted. */
  function AcceptedCount(log: seq<Event>): nat
  {
    if log == [] then 0
    else AcceptedCount(log[..|log| - 1]) + (if log[|log| - 1].Accepted? then 1 else 0)
  }

  lemma CountOne(log: seq<Event>, e: Event)
    ensures AcceptedCount(log + [e]) == AcceptedCount(log) + if e.Accepted? then 1 else 0
  {
    assert (log + [e])[..|log|] == log;
  }

  /** How often the address has been reset. */
  function ResetCount(log: seq<Event>): nat
  {
    if log == [] then 0
    else ResetCount(log[..|log| - 1]) + (if log[|log| - 1].AddressReset? then 1 else 0)
  }

  lemma ResetOne(log: seq<Event>, e: Event)
    ensures ResetCount(log + [e]) == ResetCount(log) + if e.AddressReset? then 1 else 0
  {
    assert (log + [e])[..|log|] == log;
  }

  /** Without a reset there is none. */
  lemma {:induction false} NoReset(before: seq<Event>, log: seq<Event>, t: Traffic)
    requires Follows(before, log, t) && !t.reset
    ensures ResetCount(log) == ResetCount(before)
    decreases |log|
  {
    if |before| < |log| {
      var m := |log| - 1;
      NoReset(before, log[..m], t);
      assert Fits(log[m], t);
    } else {
      assert log == before;
    }
  }

  /** No new request takes effect. */
  predicate NoNewRequest(rom: Descriptors, s: State, log: seq<Event>)
  {
    log == [] ||
    (NoNewRequest(rom, s, log[..|log| - 1]) &&
     (log[|log| - 1].Processed? ==> !Run(rom, s, log[..|log| - 1]).IsSetup()))
  }

  /** Nothing of an answer is lost, repeated or reordered: what was sent and what is still to
      be sent is the whole answer. */
  lemma {:induction false} Conservation(rom: Descriptors, s: State, log: seq<Event>)
    requires Legal(rom, s, log) && NoNewRequest(rom, s, log)
    ensures SentPackets(log) + Run(rom, s, log).toSend == s.toSend
  {
    if log != [] {
      var front := log[..|log| - 1];
      Conservation(rom, s, front);
      var before := Run(rom, s, front);
      if log[|log| - 1].Sent? {
        assert before.toSend == [before.toSend[0]] + before.toSend[1..];
      }
    }
  }

  /** Whatever happens until the next request takes effect, the packets sent are the first
      ones of the answer to this one, DATA1 first. */
  lemma OneAnswer(rom: Descriptors, s: State, log: seq<Event>)
    requires s.IsSetup()
    requires Legal(rom, AfterRequest(rom, s), log) && NoNewRequest(rom, AfterRequest(rom, s), log)
    ensures SentPackets(log) <= Packets(Reply(rom, s.configuration, s.request), DATA1)
  {
    Conservation(rom, AfterRequest(rom, s), log);
  }

  /** A host that has received a short packet has received the whole answer. */
  lemma WholeAnswer(rom: Descriptors, s: State, log: seq<Event>)
    requires s.IsSetup()
    requires Legal(rom, AfterRequest(rom, s), log) && NoNewRequest(rom, AfterRequest(rom, s), log)
    ensures var sent := SentPackets(log);
      sent != [] && |sent[|sent| - 1]| < 11 ==>
        && sent == Packets(Reply(rom, s.configuration, s.request), DATA1)
        && Run(rom, AfterRequest(rom, s), log).toSend == []
  {
    hide Packets, Reply;
    Conservation(rom, AfterRequest(rom, s), log);
    var sent := SentPackets(log);
    if sent != [] { ShortIsLast(Reply(rom, s.configuration, s.request), DATA1, |sent| - 1); }
  }

  /** The same for a whole history since power-up: every DATA packet ever sent is the next one
      of the answer to the SETUP that was processed last. */
  lemma EverySentPacket(rom: Descriptors, before: seq<Event>, since: seq<Event>, packet: seq<bv8>)
    requires Run(rom, POWER_UP, before).IsSetup()
    requires Legal(rom, POWER_UP, before + [Processed] + since + [Sent(packet)])
    requires NoNewRequest(rom, Run(rom, POWER_UP, before + [Processed]), since)
    ensures var s := Run(rom, POWER_UP, before);
      var answer, k := Packets(Reply(rom, s.configuration, s.request), DATA1), |SentPackets(since)|;
      k < |answer| && packet == answer[k]
  {
    hide Reply, Packets, IsStandard;
    var s := Run(rom, POWER_UP, before);
    OneMore(rom, POWER_UP, before, Processed);
    Cut(rom, POWER_UP, before + [Processed] + since, [Sent(packet)]);
    Cut(rom, POWER_UP, before + [Processed], since);
    Conservation(rom, AfterRequest(rom, s), since);
    var t := Run(rom, POWER_UP, before + [Processed] + since);
    assert Legal(rom, t, [Sent(packet)]) ==> Allowed(Run(rom, t, []), Sent(packet)) by {
      assert [Sent(packet)][..0] == [];
    }
  }

  /** And a SETUP has always been processed before. */
  lemma SentNeedsRequest(rom: Descriptors, log: seq<Event>, packet: seq<bv8>)
    requires Legal(rom, POWER_UP, log + [Sent(packet)])
    ensures !NoNewRequest(rom, POWER_UP, log)
  {
    OneMore(rom, POWER_UP, log, Sent(packet));
    assert (log + [Sent(packet)])[..|log|] == log;
    if NoNewRequest(rom, POWER_UP, log) { Conservation(rom, POWER_UP, log); }
  }

  /** From the moment a data packet is acknowledged until it is processed, nothing is sent,
      so nothing of the earlier transfer after the acknowledge of a SETUP. */
  lemma {:induction false} WaitingIsSilent(rom: Descriptors, s: State, log: seq<Event>)
    requires s.waiting && Legal(rom, s, log) && Processed !in log
    ensures SentPackets(log) == []
    ensures var t := Run(rom, s, log); t.waiting && t.token == s.token && t.request == s.request
    ensures Run(rom, s, log).address == if AddressReset in log then 0 else s.address
  {
    hide AfterRequest, Packets, Reply, IsStandard;
    if log != [] {
      var front, e := log[..|log| - 1], log[|log| - 1];
      Snoc(front, e, Processed);
      Snoc(front, e, AddressReset);
      assert log == front + [e];
      WaitingIsSilent(rom, s, front);
    }
  }

  lemma Snoc(front: seq<Event>, e: Event, f: Event)
    ensures f in front + [e] <==> f in front || f == e
  {}

  /** The device answers to its old address until a DATA packet has gone out. */
  lemma {:induction false} AddressAfterData(rom: Descriptors, s: State, log: seq<Event>)
    requires Legal(rom, s, log) && NoNewRequest(rom, s, log)
    requires AddressCleared !in log && AddressReset !in log
    ensures var t := Run(rom, s, log);
      && t.newAddress == s.newAddress
      && t.address == if SentPackets(log) == [] then s.address else s.newAddress << 1
  {
    hide AfterRequest, Packets, Reply, IsStandard;
    if log != [] {
      var front, e := log[..|log| - 1], log[|log| - 1];
      Snoc(front, e, AddressCleared);
      Snoc(front, e, AddressReset);
      assert log == front + [e];
      AddressAfterData(rom, s, front);
    }
  }

  /** SET_ADDRESS: the one packet sent in answer is the empty status packet, and the new
      address counts from then on and not before. */
  lemma AddressSwitch(rom: Descriptors, s: State, log: seq<Event>)
    requires s.IsSetup() && IsStandard(s.request) && s.request[1] == 5
    requires Legal(rom, AfterRequest(rom, s), log) && NoNewRequest(rom, AfterRequest(rom, s), log)
    requires AddressCleared !in log && AddressReset !in log
    ensures SentPackets(log) <= [DataPacket(DATA1, [])]
    ensures Run(rom, AfterRequest(rom, s), log).address
         == if SentPackets(log) == [] then s.address else s.request[2] << 1
  {
    OneAnswer(rom, s, log);
    AddressAfterData(rom, AfterRequest(rom, s), log);
  }

  /** Without a reset, whatever requests take effect, the address that counts changes only
      with a DATA packet. */
  lemma {:induction false} AddressNeedsData(rom: Descriptors, s: State, log: seq<Event>)
    requires AddressReset !in log && SentPackets(log) == []
    ensures Run(rom, s, log).address == s.address
  {
    hide Packets, Reply, IsStandard;
    if log != [] {
      var front, e := log[..|log| - 1], log[|log| - 1];
      Snoc(front, e, AddressReset);
      assert log == front + [e];
      AddressNeedsData(rom, s, front);
    }
  }

  lemma AddressStays(rom: Descriptors, before: seq<Event>, log: seq<Event>, t: Traffic)
    requires Follows(before, log, t) && !t.reset && !SentSince(before, log)
    ensures Run(rom, POWER_UP, log).address == Run(rom, POWER_UP, before).address
  {
    hide Run, Packets, Reply;
    var since := log[|before|..];
    assert log == before + since;
    Cut(rom, POWER_UP, before, since);
    SentSinceCounts(since);
    AddressNeedsData(rom, Run(rom, POWER_UP, before), since);
  }

  // ---- The configuration ----

  /** No SET_CONFIGURATION takes effect. */
  predicate NoSetConfiguration(rom: Descriptors, s: State, log: seq<Event>)
  {
    log == [] ||
    (var t := Run(rom, s, log[..|log| - 1]);
     NoSetConfiguration(rom, s, log[..|log| - 1]) &&
     (log[|log| - 1].Processed? && t.IsSetup() ==> !AsksFor(t.request, 9)))
  }

  lemma {:induction false} ConfigurationIsKept(rom: Descriptors, s: State, log: seq<Event>)
    requires NoSetConfiguration(rom, s, log)
    ensures Run(rom, s, log).configuration == s.configuration
  {
    hide Next, AsksFor;
    if log != [] {
      ConfigurationIsKept(rom, s, log[..|log| - 1]);
      SameConfiguration(rom, Run(rom, s, log[..|log| - 1]), log[|log| - 1]);
    }
  }

  lemma SameConfiguration(rom: Descriptors, s: State, e: Event)
    requires e.Processed? && s.IsSetup() ==> !AsksFor(s.request, 9)
    ensures Next(rom, s, e).configuration == s.configuration
  {
    hide Packets, Reply;
  }

  /** What SET_CONFIGURATION has set, GET_CONFIGURATION reports, whatever else was asked for in
      between. */
  lemma ConfigurationIsReported(rom: Descriptors, s: State, setting: seq<bv8>, since: seq<Event>, query: seq<bv8>)
    requires |setting| == 8 && AsksFor(setting, 9) && |query| == 8 && AsksFor(query, 8) && Requested(query) >= 1
    requires var t := Run(rom, s, [Accepted(SETUP, setting), Processed]); NoSetConfiguration(rom, t, since)
    ensures var log := [Accepted(SETUP, setting), Processed] + since + [Accepted(SETUP, query), Processed];
      Run(rom, s, log).toSend == Packets([setting[2]], DATA1)
  {
    hide Packets, Run, NoSetConfiguration, Requested;
    var first, last := [Accepted(SETUP, setting), Processed], [Accepted(SETUP, query), Processed];
    var t := Run(rom, s, first);
    TwoSteps(rom, s, SETUP, setting);
    Cut(rom, s, first, since);
    Cut(rom, s, first + since, last);
    ConfigurationIsKept(rom, t, since);
    TwoSteps(rom, Run(rom, t, since), SETUP, query);
    FixedAnswers(rom, setting[2], query);
  }

  lemma RunNothing(rom: Descriptors, s: State)
    ensures Run(rom, s, []) == s
  {}

  lemma TwoSteps(rom: Descriptors, s: State, token: bv8, data: seq<bv8>)
    ensures Run(rom, s, [Accepted(token, data), Processed]) == Next(rom, Next(rom, s, Accepted(token, data)), Processed)
  {
    hide Next, Run;
    var first := [Accepted(token, data)];
    assert first == [] + first && [Accepted(token, data), Processed] == first + [Processed];
    OneMore(rom, s, [], Accepted(token, data));
    OneMore(rom, s, first, Processed);
    RunNothing(rom, s);
  }

  // ---- Other traffic ----

  /** Neither a SETUP's data nor a reset. */
  predicate Harmless(log: seq<Event>)
  {
    forall i :: 0 <= i < |log| ==> Fits(log[i], Traffic(false, false))
  }

  lemma HarmlessSince(before: seq<Event>, log: seq<Event>)
    requires Follows(before, log, Traffic(false, false))
    ensures Harmless(log[|before|..])
  {
    hide Fits;
  }

  /** If no SETUP is accepted, and none waits, no request takes effect. */
  lemma {:induction false} HarmlessIsOneTransfer(rom: Descriptors, s: State, log: seq<Event>)
    requires Legal(rom, s, log) && Harmless(log) && !s.waiting
    ensures OneTransfer(rom, s, log)
    ensures Run(rom, s, log).waiting ==> !Run(rom, s, log).IsSetup()
  {
    hide AfterRequest, Packets, Reply, IsStandard;
    if log != [] {
      var front, e := log[..|log| - 1], log[|log| - 1];
      HarmlessIsOneTransfer(rom, s, front);
      assert log == front + [e];
      Snoc(front, e, AddressCleared);
      Snoc(front, e, AddressReset);
      assert Fits(e, Traffic(false, false));
    }
  }

  lemma {:induction false} CountConcat(a: seq<Event>, b: seq<Event>)
    ensures AcceptedCount(a + b) == AcceptedCount(a) + AcceptedCount(b)
  {
    if b == [] {
      assert a + b == a;
    } else {
      CountConcat(a, b[..|b| - 1]);
      assert (a + b)[..|a + b| - 1] == a + b[..|b| - 1];
    }
  }

  lemma {:induction false} AcceptsCounts(log: seq<Event>)
    ensures Accepts(log) <==> AcceptedCount(log) > 0
  {
    if log != [] {
      var front := log[..|log| - 1];
      AcceptsCounts(front);
      assert forall i :: 0 <= i < |front| ==> front[i] == log[i];
    }
  }

  // ---- Histories in parts ----

  lemma {:induction false} SentConcat(a: seq<Event>, b: seq<Event>)
    ensures SentPackets(a + b) == SentPackets(a) + SentPackets(b)
  {
    if b == [] {
      assert a + b == a;
    } else {
      SentConcat(a, b[..|b| - 1]);
      assert (a + b)[..|a + b| - 1] == a + b[..|b| - 1];
    }
  }

  lemma {:induction false} CutRequests(rom: Descriptors, s: State, a: seq<Event>, b: seq<Event>)
    ensures NoNewRequest(rom, s, a + b) <==> NoNewRequest(rom, s, a) && NoNewRequest(rom, Run(rom, s, a), b)
  {
    hide AfterRequest;
    if b == [] {
      assert a + b == a;
    } else {
      var front := b[..|b| - 1];
      CutRequests(rom, s, a, front);
      Cut(rom, s, a, front);
      assert (a + b)[..|a + b| - 1] == a + front;
    }
  }

  lemma {:induction false} SentSinceCounts(log: seq<Event>)
    ensures SentSince([], log) <==> SentPackets(log) != []
  {
    if log != [] {
      var front := log[..|log| - 1];
      SentSinceCounts(front);
      if SentSince([], front) {
        var i :| 0 <= i < |front| && front[i].Sent?;
        assert log[i].Sent?;
      }
      if SentSince([], log) && !log[|log| - 1].Sent? {
        var i :| 0 <= i < |log| && log[i].Sent?;
        assert front[i].Sent?;
      }
    }
  }

  predicate Accepts(log: seq<Event>)
  {
    exists i :: 0 <= i < |log| && log[i].Accepted?
  }

  lemma {:induction false} WaitsForAccepted(rom: Descriptors, s: State, log: seq<Event>)
    requires !s.waiting && Run(rom, s, log).waiting
    ensures Accepts(log)
  {
    hide Packets, Reply;
    if log != [] && !log[|log| - 1].Accepted? {
      var front := log[..|log| - 1];
      WaitsForAccepted(rom, s, front);
      var i :| 0 <= i < |front| && front[i].Accepted?;
      assert log[i].Accepted?;
    }
  }

  predicate Sized(packets: seq<seq<bv8>>)
  {
    forall k :: 0 <= k < |packets| ==> 3 <= |packets[k]| <= 11
  }

  /** Every packet ever sent has a PID and a CRC, and at most eight bytes between them. */
  lemma {:induction false} PacketSizes(rom: Descriptors, log: seq<Event>)
    requires Legal(rom, POWER_UP, log)
    ensures Sized(Run(rom, POWER_UP, log).toSend) && Sized(SentPackets(log))
  {
    hide Packets, Reply, IsStandard;
    if log != [] {
      var front := log[..|log| - 1];
      PacketSizes(rom, front);
      var s := Run(rom, POWER_UP, front);
      if s.IsSetup() { PacketsSized(Reply(rom, s.configuration, s.request)); }
    }
  }

  lemma SizedPart(rom: Descriptors, a: seq<Event>, b: seq<Event>)
    requires Legal(rom, POWER_UP, a + b)
    ensures Sized(SentPackets(b))
  {
    hide SentPackets, Legal;
    PacketSizes(rom, a + b);
    SentConcat(a, b);
    forall k | 0 <= k < |SentPackets(b)| ensures 3 <= |SentPackets(b)[k]| <= 11 {
      assert SentPackets(a + b)[|SentPackets(a)| + k] == SentPackets(b)[k];
    }
  }

  lemma PacketsSized(reply: seq<bv8>)
    ensures Sized(Packets(reply, DATA1))
  {
    hide Packets;
    CollectPackets(reply, DATA1);
  }

  /** No other request takes effect and the bus is not reset. */
  predicate OneTransfer(rom: Descriptors, s: State, log: seq<Event>)
  {
    NoNewRequest(rom, s, log) && AddressCleared !in log && AddressReset !in log
  }

  lemma CutTransfer(rom: Descriptors, s: State, a: seq<Event>, b: seq<Event>)
    ensures OneTransfer(rom, s, a + b) <==> OneTransfer(rom, s, a) && OneTransfer(rom, Run(rom, s, a), b)
  {
    CutRequests(rom, s, a, b);
  }
}
