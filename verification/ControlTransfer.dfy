/** The control endpoint as the host sees it: what a request is answered with, how the answer
    is cut into packets, and which sequences of events a device may produce. */
module ControlTransfer {
  import opened Arithmetic
  import opened Bits
  import opened Crc16

  const SETUP: bv8 := 0x2d
  const OUT: bv8 := 0xe1
  const IN: bv8 := 0x69
  const DATA0: bv8 := 0xc3
  const DATA1: bv8 := 0x4b
  const ACK: bv8 := 0xd2

  /** The constant descriptors in program memory. */
  datatype Descriptors = Descriptors(device: seq<bv8>, configuration: seq<bv8>, language: seq<bv8>,
                                     vendor: seq<bv8>, product: seq<bv8>)
  {
    /** usbMsgLen is one byte and 255 means "no message". */
    predicate Valid()
    {
      |device| <= 254 && |configuration| <= 254 && |language| <= 254 && |vendor| <= 254 && |product| <= 254
    }

    /** Each descriptor has its own length and type in front, as section 9.5 of the USB 2.0
        specification has it; that of a configuration does not count the interfaces behind. */
    predicate WellFormed()
    {
      && |device| == 18 && device[..2] == [18, 1]
      && |configuration| >= 9 && configuration[..2] == [9, 2]
      && IsString(language) && IsString(vendor) && IsString(product)
      && |language| == 4
    }
  }

  predicate IsString(descriptor: seq<bv8>)
  {
    |descriptor| >= 2 && descriptor[0] as nat == |descriptor| && descriptor[1] == 3
  }

  // ---- Requests ----

  predicate IsStandard(request: seq<bv8>)
    requires |request| == 8
  {
    request[0] & 0x60 == 0
  }

  /** usbDriverDescriptor: nothing for unknown descriptors and for the serial number, which is
      not configured. */
  function DescriptorOf(rom: Descriptors, request: seq<bv8>): seq<bv8>
    requires |request| == 8
  {
    if request[3] == 1 then rom.device
    else if request[3] == 2 then rom.configuration
    else if request[3] == 3 then
      if request[2] == 0 then rom.language
      else if request[2] == 1 then rom.vendor
      else if request[2] == 2 then rom.product
      else []
    else []
  }

  /** All that the device has to say to a request.  usbFunctionSetup only switches a pin and
      returns length 0. */
  function FullReply(rom: Descriptors, configuration: bv8, request: seq<bv8>): (reply: seq<bv8>)
    requires |request| == 8
    ensures rom.Valid() ==> |reply| <= 254
  {
    if !IsStandard(request) then []
    else if request[1] == 0 then [0, 0]
    else if request[1] == 6 then DescriptorOf(rom, request)
    else if request[1] == 8 then [configuration]
    else if request[1] == 10 then [0]
    else []
  }

  /** wLength */
  function Requested(request: seq<bv8>): nat
    requires |request| == 8
  {
    request[6] as nat + 256 * (request[7] as nat)
  }

  /** The reply the host gets: at most as much as it asked for. */
  function Reply(rom: Descriptors, configuration: bv8, request: seq<bv8>): (reply: seq<bv8>)
    requires |request| == 8
  {
    var full := FullReply(rom, configuration, request);
    if |full| > Requested(request) then full[..Requested(request)] else full
  }

  /** The first bytes of `full`, as many as were asked for. */
  predicate CutTo(reply: seq<bv8>, full: seq<bv8>, n: nat)
  {
    reply <= full && |reply| == Min(|full|, n)
  }

  predicate AsksFor(request: seq<bv8>, bRequest: bv8)
    requires |request| == 8
  {
    IsStandard(request) && request[1] == bRequest
  }

  /** GET_DESCRIPTOR: whatever is answered is a descriptor of the type asked for, and it is cut
      to what was asked for. */
  lemma DescriptorAsAsked(rom: Descriptors, configuration: bv8, request: seq<bv8>)
    requires rom.WellFormed() && |request| == 8 && AsksFor(request, 6)
    ensures var reply := Reply(rom, configuration, request);
      && |reply| <= Requested(request)
      && (|reply| >= 2 ==> reply[1] == request[3])
      && (request[3] == 1 ==> CutTo(reply, rom.device, Requested(request)))
      && (request[3] == 2 ==> CutTo(reply, rom.configuration, Requested(request)))
      && (request[3] == 3 && request[2] == 0 ==> CutTo(reply, rom.language, Requested(request)))
      && (request[3] == 3 && request[2] == 1 ==> CutTo(reply, rom.vendor, Requested(request)))
      && (request[3] == 3 && request[2] == 2 ==> CutTo(reply, rom.product, Requested(request)))
      && (request[3] == 3 && request[2] > 2 ==> reply == [])
      && (request[3] == 0 || request[3] > 3 ==> reply == [])
  {}

  /** The bytes of the other requests with an answer, as sections 9.4.2, 9.4.4 and 9.4.5 have
      it: no alternate setting, and neither power of its own nor remote wakeup. */
  lemma FixedAnswers(rom: Descriptors, configuration: bv8, request: seq<bv8>)
    requires |request| == 8
    ensures !IsStandard(request) ==> Reply(rom, configuration, request) == []
    ensures AsksFor(request, 0) ==> CutTo(Reply(rom, configuration, request), [0, 0], Requested(request))
    ensures AsksFor(request, 8) ==> CutTo(Reply(rom, configuration, request), [configuration], Requested(request))
    ensures AsksFor(request, 10) ==> CutTo(Reply(rom, configuration, request), [0], Requested(request))
    ensures IsStandard(request) && request[1] !in {0, 6, 8, 10} ==> Reply(rom, configuration, request) == []
  {}

  /** The type of a request is in bits 5 and 6 of bmRequestType; 0 is standard (section 9.3.1). */
  lemma TypeBits(request: seq<bv8>)
    requires |request| == 8
    ensures IsStandard(request) <==> request[0] as nat / 32 % 4 == 0
  {
    BitsFiveAndSix(request[0]);
  }

  lemma BitsFiveAndSix(b: bv8)
    ensures b & 0x60 == 0 <==> b as nat / 32 % 4 == 0
  {
    var high := b >> 5;
    assert high as nat == b as nat / 32;
    assert b & 0x60 == 0 <==> high == 0 || high == 4;
  }

  // ---- Packets ----

  function Toggle(pid: bv8): bv8 { pid ^ DATA0 ^ DATA1 }

  /** A data packet without its sync byte: PID, payload, CRC. */
  function DataPacket(pid: bv8, payload: seq<bv8>): (packet: seq<bv8>)
    ensures |packet| == |payload| + 3
  {
    [pid] + payload + Appended(payload)
  }

  /** The data stage: full packets of eight bytes, then one that is shorter, maybe empty. */
  function Packets(reply: seq<bv8>, pid: bv8): (packets: seq<seq<bv8>>)
    ensures packets != []
  {
    if |reply| < 8 then [DataPacket(pid, reply)]
    else [DataPacket(pid, reply[..8])] + Packets(reply[8..], Toggle(pid))
  }

  function Payload(packet: seq<bv8>): seq<bv8>
    requires |packet| >= 3
  {
    packet[1..|packet| - 2]
  }

  function PidAt(pid: bv8, k: nat): bv8 { if k % 2 == 0 then pid else Toggle(pid) }

  function Eight(reply: seq<bv8>, k: nat): seq<bv8>
    requires 8 * k <= |reply|
  {
    reply[8 * k..if 8 * k + 8 <= |reply| then 8 * k + 8 else |reply|]
  }

  function PacketAt(reply: seq<bv8>, pid: bv8, k: nat): seq<bv8>
    requires 8 * k <= |reply|
  {
    DataPacket(PidAt(pid, k), Eight(reply, k))
  }

  lemma ToggleTwice(pid: bv8)
    ensures Toggle(Toggle(pid)) == pid
  {}

  lemma {:induction false} PacketCount(reply: seq<bv8>, pid: bv8)
    ensures |Packets(reply, pid)| == |reply| / 8 + 1
  {
    hide Toggle, DataPacket;
    if |reply| >= 8 { PacketCount(reply[8..], Toggle(pid)); }
  }

  lemma PidAlternates(pid: bv8, k: nat)
    ensures PidAt(Toggle(pid), k) == PidAt(pid, k + 1)
  {
    hide Toggle;
    ToggleTwice(pid);
  }

  lemma EightFurther(reply: seq<bv8>, k: nat)
    requires 8 * (k + 1) <= |reply|
    ensures Eight(reply[8..], k) == Eight(reply, k + 1)
  {
    DropThenSlice(reply, 8, 8 * k + 8, if 8 * k + 16 <= |reply| then 8 * k + 16 else |reply|);
  }

  lemma FirstEight(reply: seq<bv8>, pid: bv8)
    ensures Eight(reply, 0) == (if |reply| < 8 then reply else reply[..8]) && PidAt(pid, 0) == pid
  {}

  lemma {:induction false} OnePacketAt(reply: seq<bv8>, pid: bv8, k: nat)
    requires 8 * k <= |reply|
    ensures k < |Packets(reply, pid)| && Packets(reply, pid)[k] == PacketAt(reply, pid, k)
    decreases k
  {
    hide Toggle, DataPacket, PidAt, Eight;
    if k > 0 {
      OnePacketAt(reply[8..], Toggle(pid), k - 1);
      PidAlternates(pid, k - 1);
      EightFurther(reply, k - 1);
    } else {
      FirstEight(reply, pid);
    }
  }

  /** min(n, w)/8 full packets and one more; the PIDs alternate, and packet k carries the
      bytes from 8k on. */
  lemma PacketsAt(reply: seq<bv8>, pid: bv8)
    ensures |Packets(reply, pid)| == |reply| / 8 + 1
    ensures forall k :: 0 <= k < |Packets(reply, pid)| ==> Packets(reply, pid)[k] == PacketAt(reply, pid, k)
  {
    hide Packets, PacketAt;
    PacketCount(reply, pid);
    forall k | 0 <= k < |Packets(reply, pid)| ensures Packets(reply, pid)[k] == PacketAt(reply, pid, k) {
      OnePacketAt(reply, pid, k);
    }
  }

  lemma DropThenSlice(s: seq<bv8>, d: nat, from: nat, to: nat)
    requires d <= from <= to <= |s|
    ensures s[d..][from - d..to - d] == s[from..to]
  {}

  /** What a host collects: payloads up to and including the first short one. */
  function Collect(packets: seq<seq<bv8>>): seq<bv8>
    requires forall p :: p in packets ==> |p| >= 3
  {
    if packets == [] then [] else
      assert packets[0] in packets;
      if |packets[0]| < 11 then Payload(packets[0]) else Payload(packets[0]) + Collect(packets[1..])
  }

  lemma {:induction false} CollectPackets(reply: seq<bv8>, pid: bv8)
    ensures forall p :: p in Packets(reply, pid) ==> 3 <= |p| <= 11
    ensures Collect(Packets(reply, pid)) == reply
  {
    hide Toggle, Appended;
    if |reply| >= 8 {
      CollectPackets(reply[8..], Toggle(pid));
      assert Packets(reply, pid)[1..] == Packets(reply[8..], Toggle(pid));
      assert Payload(Packets(reply, pid)[0]) == reply[..8];
      assert reply[..8] + reply[8..] == reply;
    } else {
      assert Payload(DataPacket(pid, reply)) == reply;
    }
  }

  /** All packets but the last are full. */
  lemma ShortIsLast(reply: seq<bv8>, pid: bv8, k: nat)
    requires k < |Packets(reply, pid)|
    ensures |Packets(reply, pid)[k]| == 11 <==> k + 1 < |Packets(reply, pid)|
  {
    hide Appended;
    PacketsAt(reply, pid);
    assert Packets(reply, pid)[k] == PacketAt(reply, pid, k);
  }
}
