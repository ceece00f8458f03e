/** The control endpoint on the wire: what the driver sends is what the host's receiver stores,
    and the host can tell whether it was damaged. */
module Link {
  import opened Bits
  import opened BusTraffic
  import opened Wire
  import opened ControlTransfer
  import opened Endpoint
  import opened Device
  import opened Host
  import opened RoundTrip
  import Crc16
  import CrcReceive
  import CrcDetection
  import CrcTwoBits

  /** PID, up to eight bytes and their check field. */
  predicate WellFormed(packet: seq<bv8>)
  {
    && 3 <= |packet| <= 11 && (packet[0] == DATA0 || packet[0] == DATA1)
    && ValidPid(packet[0]) && CrcReceive.Intact(packet[1..])
  }

  predicate AllWellFormed(packets: seq<seq<bv8>>)
  {
    forall k :: 0 <= k < |packets| ==> WellFormed(packets[k])
  }

  lemma DataPacketIsWellFormed(pid: bv8, payload: seq<bv8>)
    requires (pid == DATA0 || pid == DATA1) && |payload| <= 8
    ensures WellFormed(DataPacket(pid, payload))
  {
    hide Crc16.Appended, ValidPid;
    PidsAreValid();
    var behind := DataPacket(pid, payload)[1..];
    AppendedTwo(payload);
    assert behind == payload + Crc16.Appended(payload);
    assert behind[..|behind| - 2] == payload;
  }

  lemma AppendedTwo(payload: seq<bv8>)
    ensures |Crc16.Appended(payload)| == 2
  {}

  lemma PidsAreValid()
    ensures ValidPid(DATA0) && ValidPid(DATA1)
  {}

  lemma PidsAlternate(k: nat)
    ensures PidAt(DATA1, k) == if k % 2 == 0 then DATA1 else DATA0
  {}

  lemma PacketsAreWellFormed(reply: seq<bv8>)
    ensures AllWellFormed(ControlTransfer.Packets(reply, DATA1))
  {
    hide ControlTransfer.Packets, WellFormed, DataPacket;
    var packets := ControlTransfer.Packets(reply, DATA1);
    PacketsAt(reply, DATA1);
    forall k | 0 <= k < |packets| ensures WellFormed(packets[k]) {
      PidsAlternate(k);
      assert packets[k] == PacketAt(reply, DATA1, k);
      DataPacketIsWellFormed(PidAt(DATA1, k), Eight(reply, k));
    }
  }

  /** In every history since power-up. */
  lemma {:induction false} SentWellFormed(rom: Descriptors, log: seq<Event>)
    requires Legal(rom, POWER_UP, log)
    ensures AllWellFormed(Run(rom, POWER_UP, log).toSend) && AllWellFormed(SentPackets(log))
  {
    hide ControlTransfer.Packets, Reply, IsStandard, WellFormed;
    if log != [] {
      var front := log[..|log| - 1];
      SentWellFormed(rom, front);
      var s := Run(rom, POWER_UP, front);
      if s.IsSetup() { PacketsAreWellFormed(Reply(rom, s.configuration, s.request)); }
    }
  }

  lemma SinceWellFormed(d: Driver, from: nat)
    requires Sound(d) && from <= |d.log|
    ensures AllWellFormed(SentPackets(d.log[from..]))
  {
    hide SentPackets, Sound, Legal, WellFormed;
    IsLegal(d);
    var a, b := d.log[..from], d.log[from..];
    assert d.log == a + b;
    SentWellFormed(d.rom, d.log);
    SentConcat(a, b);
    forall k | 0 <= k < |SentPackets(b)| ensures WellFormed(SentPackets(b)[k]) {
      assert SentPackets(a + b)[|SentPackets(a)| + k] == SentPackets(b)[k];
    }
  }

  /** A host that checks the CRC accepts no DATA packet of any history in which one, two or
      three bits behind the PID were damaged, or any number within sixteen in a row. */
  lemma DamageIsNoticed(rom: Descriptors, log: seq<Event>, k: nat, received: seq<bv8>, at: nat)
    requires Legal(rom, POWER_UP, log) && k < |SentPackets(log)|
    requires var sent := SentPackets(log)[k]; sent != [] && |received| == |sent| - 1
    requires var damage := CrcTwoBits.Damage(BitsOf(SentPackets(log)[k][1..]), BitsOf(received));
      damage != {} && (|damage| <= 3 || forall i :: i in damage ==> at <= i < at + 16)
    ensures !CrcReceive.Intact(received)
  {
    hide BitsOf, CrcReceive.Intact, SentPackets;
    SentWellFormed(rom, log);
    var sent := SentPackets(log)[k][1..];
    var damage := CrcTwoBits.Damage(BitsOf(sent), BitsOf(received));
    if |damage| <= 3 {
      CrcTwoBits.UpToThreeBits(sent, received);
    } else {
      forall i | 0 <= i < 8 * |sent| && !(at <= i < at + 16) ensures BitsOf(sent)[i] == BitsOf(received)[i] {
        assert i !in damage;
      }
      CrcDetection.BurstIsDetected(sent, received, at);
    }
  }

  /** Twelve times the same: each of the four transmitters into each of the three receivers. */
  predicate HeardByAll(all: seq<Reception>, packet: seq<bv8>)
  {
    |all| == 12 && forall w :: 0 <= w < 12 ==> all[w] == Reception(packet, Se0(|packet|))
  }

  /** A DATA packet on its way to the host. */
  method Carry(port: bv8, packet: seq<bv8>) returns (all: seq<Reception>, accepted: bool)
    requires port & USBMASK == 0 && WellFormed(packet)
    ensures HeardByAll(all, packet) && accepted
  {
    hide ValidPid, CrcReceive.Intact;
    var mem := (i: nat) => if i < |packet| then packet[i] else 0;
    all := Exchange(port, mem, 0, |packet|);
    assert seq(|packet|, j requires 0 <= j => mem(0 + j)) == packet;
    accepted := CrcReceive.ReceiveAndCheck(all[0].stored[1..]);
  }

  method CarryAll(port: bv8, packets: seq<seq<bv8>>) returns (heard: seq<seq<Reception>>)
    requires port & USBMASK == 0 && AllWellFormed(packets)
    ensures |heard| == |packets| && forall k :: 0 <= k < |packets| ==> HeardByAll(heard[k], packets[k])
  {
    hide HeardByAll, WellFormed;
    heard := [];
    for k := 0 to |packets|
      invariant |heard| == k && forall j :: 0 <= j < k ==> HeardByAll(heard[j], packets[j])
    {
      var all, accepted := Carry(port, packets[k]);
      heard := heard + [all];
    }
  }

  /** A control transfer down to the levels on the bus: every DATA packet of ControlIn goes
      through the transmitters and receivers.  Whichever two are used, the host collects the
      answer to its request. */
  method ControlInOnTheWire(d: Driver, address: bv8, request: seq<bv8>, rounds: nat, port: bv8)
    returns (heard: seq<seq<Reception>>, busy: nat)
    requires Sound(d) && !d.E().waiting && |request| == 8 && port & USBMASK == 0
    requires Lsl(address) == d.usbDeviceAddr && d.usbDeviceAddr == d.usbNewDeviceAddr << 1
    modifies d, d.usbRxBuf, d.usbTxBuf
    ensures Sound(d) && busy <= rounds && old(d.log) + [Accepted(SETUP, request)] + [Processed] <= d.log
    ensures busy > 0 ==> Accepts(d.log[|old(d.log)| + 2..])
    ensures Calm(d, old(d.point)) ==> Alone(d, |old(d.log)| + 2)
    ensures busy <= DataPackets(d.bus, old(d.point), d.point)
    ensures var packets := SentPackets(d.log[|old(d.log)| + 2..]);
      |heard| == |packets| && forall k :: 0 <= k < |packets| ==> HeardByAll(heard[k], packets[k])
    ensures var reply := Reply(d.rom, old(d.usbConfiguration), request);
      Alone(d, |old(d.log)| + 2) && rounds - busy > |reply| / 8 ==>
        forall w :: 0 <= w < 12 ==> Delivers(heard, w, reply)
  {
    hide Sound, Legal, Accepts, Alone, Calm, SentPackets, Reply, Collect, ControlTransfer.Packets;
    hide HeardByAll, WellFormed, Delivers;
    ghost var from := |d.log| + 2;
    var packets;
    packets, busy := ControlIn(d, address, request, rounds);
    SinceWellFormed(d, from);
    heard := CarryAll(port, packets);
    forall w | 0 <= w < 12 ensures Delivers(heard, w, Collect(packets)) {
      StoredIs(heard, packets, w);
    }
  }

  function StoredBy(heard: seq<seq<Reception>>, w: nat): seq<seq<bv8>>
    requires forall k :: 0 <= k < |heard| ==> w < |heard[k]|
  {
    seq(|heard|, k requires 0 <= k < |heard| => heard[k][w].stored)
  }

  /** From what pairing w of transmitter and receiver stored, the host collects the reply. */
  predicate Delivers(heard: seq<seq<Reception>>, w: nat, reply: seq<bv8>)
  {
    && (forall k :: 0 <= k < |heard| ==> w < |heard[k]|)
    && (forall p :: p in StoredBy(heard, w) ==> |p| >= 3)
    && Collect(StoredBy(heard, w)) == reply
  }

  lemma StoredIs(heard: seq<seq<Reception>>, packets: seq<seq<bv8>>, w: nat)
    requires w < 12 && (forall p :: p in packets ==> |p| >= 3)
    requires |heard| == |packets| && forall k :: 0 <= k < |packets| ==> HeardByAll(heard[k], packets[k])
    ensures Delivers(heard, w, Collect(packets))
  {
    hide Collect;
    assert StoredBy(heard, w) == packets;
  }
}
