/** What other traffic on the bus can do to a control transfer: conditions on the packets alone. */
module BusTraffic {
  import opened ControlTransfer

  predicate IsData(packet: seq<bv8>)
    requires |packet| >= 1
  {
    packet[0] == DATA0 || packet[0] == DATA1
  }

  /** Whether the token in force may be SETUP behind a packet, given whether it may be before:
      IN leaves it as it is, and so does data. */
  predicate SetupAfter(setup: bool, packet: seq<bv8>)
  {
    if packet == [] then setup
    else |packet| <= 11 && (if IsData(packet) || packet[0] == IN then setup else packet[0] == SETUP)
  }

  predicate SetupBehind(setup: bool, packets: seq<seq<bv8>>)
  {
    if packets == [] then setup
    else SetupAfter(SetupBehind(setup, packets[..|packets| - 1]), packets[|packets| - 1])
  }

  predicate CarriesData(packet: seq<bv8>)
  {
    4 <= |packet| <= 11 && IsData(packet)
  }

  /** None of the packets is the data packet of a SETUP transaction. */
  predicate NoRequest(setup: bool, packets: seq<seq<bv8>>)
  {
    packets == [] ||
    (NoRequest(setup, packets[..|packets| - 1]) &&
     (CarriesData(packets[|packets| - 1]) && |packets[|packets| - 1]| == 11 ==>
        !SetupBehind(setup, packets[..|packets| - 1])))
  }

  function DataIn(packets: seq<seq<bv8>>): nat
  {
    if packets == [] then 0
    else DataIn(packets[..|packets| - 1]) + (if CarriesData(packets[|packets| - 1]) then 1 else 0)
  }

  /** How many data packets are on the bus from a point to another. */
  function DataPackets(bus: nat -> seq<seq<bv8>>, from: nat, to: nat): nat
  {
    if to <= from then 0 else DataPackets(bus, from, to - 1) + DataIn(bus(to - 1))
  }

  /** Whether the token may be SETUP at point p, given whether it may be at an earlier one. */
  predicate SetupAt(bus: nat -> seq<seq<bv8>>, from: nat, p: nat, setup: bool)
  {
    if p <= from then setup else SetupBehind(SetupAt(bus, from, p - 1, setup), bus(p - 1))
  }

  /** No SETUP transaction from a point on. */
  ghost predicate Unasked(bus: nat -> seq<seq<bv8>>, from: nat, setup: bool)
  {
    forall p :: from <= p ==> NoRequest(SetupAt(bus, from, p, setup), bus(p))
  }

  lemma {:induction false} FromNextPoint(bus: nat -> seq<seq<bv8>>, from: nat, p: nat, setup: bool)
    requires from < p
    ensures SetupAt(bus, from, p, setup) == SetupAt(bus, from + 1, p, SetupBehind(setup, bus(from)))
    decreases p
  {
    hide SetupBehind;
    if from + 1 < p {
      FromNextPoint(bus, from, p - 1, setup);
    } else {
      assert SetupAt(bus, from, from, setup) == setup;
    }
  }

  /** One point further. */
  lemma UnaskedStep(bus: nat -> seq<seq<bv8>>, from: nat, setup: bool)
    requires Unasked(bus, from, setup)
    ensures NoRequest(setup, bus(from)) && Unasked(bus, from + 1, SetupBehind(setup, bus(from)))
  {
    hide SetupBehind, NoRequest;
    assert SetupAt(bus, from, from, setup) == setup;
    forall p | from + 1 <= p
      ensures NoRequest(SetupAt(bus, from + 1, p, SetupBehind(setup, bus(from))), bus(p))
    {
      FromNextPoint(bus, from, p, setup);
    }
  }

  lemma {:induction false} LessBehind(packets: seq<seq<bv8>>)
    ensures SetupBehind(false, packets) ==> SetupBehind(true, packets)
    ensures NoRequest(true, packets) ==> NoRequest(false, packets)
  {
    if packets != [] { LessBehind(packets[..|packets| - 1]); }
  }

  lemma {:induction false} LessAt(bus: nat -> seq<seq<bv8>>, from: nat, p: nat)
    ensures SetupAt(bus, from, p, false) ==> SetupAt(bus, from, p, true)
  {
    hide SetupBehind;
    if from < p {
      LessAt(bus, from, p - 1);
      LessBehind(bus(p - 1));
    }
  }

  /** A token that is not SETUP makes it easier. */
  lemma UnaskedWithout(bus: nat -> seq<seq<bv8>>, from: nat)
    ensures Unasked(bus, from, true) ==> Unasked(bus, from, false)
  {
    hide SetupAt, NoRequest;
    if Unasked(bus, from, true) {
      forall p | from <= p ensures NoRequest(SetupAt(bus, from, p, false), bus(p)) {
        LessAt(bus, from, p);
        LessBehind(bus(p));
      }
    }
  }

  // ---- One packet, and one point, at a time ----

  lemma OneMorePacket(setup: bool, packets: seq<seq<bv8>>, i: nat)
    requires i < |packets|
    ensures SetupBehind(setup, packets[..i + 1]) <==> SetupAfter(SetupBehind(setup, packets[..i]), packets[i])
    ensures SetupAfter(false, packets[i]) ==> SetupAfter(true, packets[i])
    ensures DataIn(packets[..i + 1]) == DataIn(packets[..i]) + if CarriesData(packets[i]) then 1 else 0
  {
    assert packets[..i + 1][..i] == packets[..i];
  }

  lemma {:induction false} RequestInside(setup: bool, packets: seq<seq<bv8>>, i: nat)
    requires i < |packets| && NoRequest(setup, packets)
    ensures CarriesData(packets[i]) && |packets[i]| == 11 ==> !SetupBehind(setup, packets[..i])
    decreases |packets|
  {
    hide SetupBehind, CarriesData;
    var m := |packets| - 1;
    if i < m {
      RequestInside(setup, packets[..m], i);
      assert packets[..m][..i] == packets[..i];
    }
  }

  /** The data packet of a SETUP transaction was to be expected. */
  lemma RequestIsExpected(bus: nat -> seq<seq<bv8>>, point: nat, setup: bool, i: nat)
    requires i < |bus(point)|
    ensures CarriesData(bus(point)[i]) && |bus(point)[i]| == 11 && SetupBehind(setup, bus(point)[..i]) ==>
      !Unasked(bus, point, setup)
  {
    hide CarriesData, SetupBehind, NoRequest, Unasked;
    if Unasked(bus, point, setup) {
      UnaskedStep(bus, point, setup);
      RequestInside(setup, bus(point), i);
    }
  }

  /** At the next point no more is to be expected than at this one. */
  lemma NextPoint(bus: nat -> seq<seq<bv8>>, point: nat, setup: bool, setup': bool)
    requires setup' ==> SetupBehind(setup, bus(point))
    ensures Unasked(bus, point, setup) ==> Unasked(bus, point + 1, setup')
  {
    hide Unasked, SetupBehind;
    UnaskedWithout(bus, point + 1);
    if Unasked(bus, point, setup) { UnaskedStep(bus, point, setup); }
  }

  lemma {:induction false} DataBetween(bus: nat -> seq<seq<bv8>>, a: nat, b: nat, c: nat)
    requires a <= b <= c
    ensures DataPackets(bus, a, c) == DataPackets(bus, a, b) + DataPackets(bus, b, c)
    decreases c
  {
    if b < c { DataBetween(bus, a, b, c - 1); }
  }

  // ---- A quiet bus ----

  /** No data packets at all. */
  ghost predicate Quiet(bus: nat -> seq<seq<bv8>>, from: nat)
  {
    forall p :: from <= p ==> forall i :: 0 <= i < |bus(p)| ==> !CarriesData(bus(p)[i])
  }

  lemma {:induction false} NoDataNoRequest(setup: bool, packets: seq<seq<bv8>>)
    requires forall i :: 0 <= i < |packets| ==> !CarriesData(packets[i])
    ensures NoRequest(setup, packets) && DataIn(packets) == 0
  {
    hide CarriesData, SetupBehind;
    if packets != [] { NoDataNoRequest(setup, packets[..|packets| - 1]); }
  }

  lemma {:induction false} QuietCounts(bus: nat -> seq<seq<bv8>>, from: nat, to: nat)
    requires Quiet(bus, from)
    ensures DataPackets(bus, from, to) == 0
  {
    hide CarriesData, DataIn;
    if from < to {
      QuietCounts(bus, from, to - 1);
      NoDataNoRequest(false, bus(to - 1));
    }
  }

  /** A quiet bus brings no SETUP transaction. */
  lemma QuietIsUnasked(bus: nat -> seq<seq<bv8>>, from: nat, setup: bool)
    requires Quiet(bus, from)
    ensures Unasked(bus, from, setup)
  {
    hide CarriesData, NoRequest, SetupAt;
    forall p | from <= p ensures NoRequest(SetupAt(bus, from, p, setup), bus(p)) {
      NoDataNoRequest(SetupAt(bus, from, p, setup), bus(p));
    }
  }

  // ---- A bus in use ----

  /** Tokens other than SETUP, and data where it belongs: a full data packet comes right behind a
      token of its own, which is not IN. */
  predicate OrderlyAt(packets: seq<seq<bv8>>, i: nat)
    requires i < |packets|
  {
    var packet := packets[i];
    && (1 <= |packet| <= 11 ==> packet[0] != SETUP)
    && (CarriesData(packet) && |packet| == 11 ==> i > 0 && EndsSetup(packets[i - 1]))
  }

  predicate EndsSetup(packet: seq<bv8>)
  {
    1 <= |packet| <= 11 && !IsData(packet) && packet[0] != IN && packet[0] != SETUP
  }

  /** On such a bus any number of OUT transactions may go on, of this device or others. */
  lemma OrderlyIsUnasked(bus: nat -> seq<seq<bv8>>, from: nat)
    requires forall p :: from <= p ==> forall i :: 0 <= i < |bus(p)| ==> OrderlyAt(bus(p), i)
    ensures Unasked(bus, from, true)
  {
    hide OrderlyAt, NoRequest, SetupAt;
    forall p | from <= p ensures NoRequest(SetupAt(bus, from, p, true), bus(p)) {
      OrderlyHasNoRequest(SetupAt(bus, from, p, true), bus(p));
    }
  }

  lemma {:induction false} OrderlyHasNoRequest(setup: bool, packets: seq<seq<bv8>>)
    requires forall i :: 0 <= i < |packets| ==> OrderlyAt(packets, i)
    ensures NoRequest(setup, packets) && DataIn(packets) <= |packets|
    ensures packets != [] && EndsSetup(packets[|packets| - 1]) ==> !SetupBehind(setup, packets)
  {
    if packets != [] {
      var m := |packets| - 1;
      forall i | 0 <= i < m ensures OrderlyAt(packets[..m], i) {
        assert OrderlyAt(packets, i);
      }
      OrderlyHasNoRequest(setup, packets[..m]);
      assert OrderlyAt(packets, m);
    }
  }
}
