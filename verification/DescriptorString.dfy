/** The device's name, from its string descriptor in program memory to the C string in the
    controller program on the host (somethingswrong_controller.c). */
module DescriptorString {
  import opened Arithmetic
  import opened Bits
  import opened BusTraffic
  import opened ControlTransfer
  import opened Endpoint
  import opened Device
  import Host

  const QUESTION_MARK: bv8 := 0x3f

  /** A 16 bit unit of a string descriptor, little endian. */
  datatype Word = Word(low: bv8, high: bv8)

  function Code(w: Word): nat { w.low as nat + 256 * (w.high as nat) }

  function WordBytes(words: seq<Word>): (bytes: seq<bv8>)
    ensures |bytes| == 2 * |words|
  {
    if words == [] then [] else WordBytes(words[..|words| - 1]) + [words[|words| - 1].low, words[|words| - 1].high]
  }

  lemma {:induction false} WordBytesAt(words: seq<Word>, k: nat)
    requires k < |words|
    ensures WordBytes(words)[2 * k] == words[k].low && WordBytes(words)[2 * k + 1] == words[k].high
  {
    if k < |words| - 1 { WordBytesAt(words[..|words| - 1], k); }
  }

  /** The byte with value n. */
  function ByteOf(n: nat): (b: bv8)
    requires n <= 255
    ensures b as nat == n
  {
    if n == 0 then 0 else
      OneHigher(ByteOf(n - 1));
      ByteOf(n - 1) + 1
  }

  lemma OneHigher(b: bv8)
    ensures b as nat < 255 ==> (b + 1) as nat == b as nat + 1
  {}

  /** USB_STRING_DESCRIPTOR_HEADER and the characters. */
  function StringDescriptor(words: seq<Word>): seq<bv8>
    requires |words| <= 126
  {
    [ByteOf(2 * |words| + 2), 3] + WordBytes(words)
  }

  /** GET_DESCRIPTOR, type string; the host always asks for 256 bytes. */
  function GetString(index: bv8, langId: Word): (request: seq<bv8>)
    ensures |request| == 8
  {
    [0x80, 6, index, 3, langId.low, langId.high, 0, 1]
  }

  /** How many characters the host looks at: from the second unit on, as many as were received
      and as the descriptor itself claims, with room for the final 0. */
  function Count(buffer: seq<bv8>, rval: nat, buflen: nat): nat
    requires |buffer| == 256 && buflen > 0
  {
    var claimed := buffer[0] as nat;
    var units := (if claimed < rval then claimed else rval) / 2;
    var i := if units < buflen then units else buflen;
    if i == 0 then 0 else i - 1
  }

  /** Lossy conversion to Latin-1. */
  function Latin1(w: Word): bv8 { if w.high == 0 then w.low else QUESTION_MARK }

  predicate IsName(name: seq<bv8>, buffer: seq<bv8>)
    requires |buffer| == 256
  {
    |name| <= 127 && forall k :: 0 <= k < |name| ==> name[k] == Latin1(WordAt(buffer, k))
  }

  function WordAt(buffer: seq<bv8>, k: nat): Word
    requires |buffer| == 256 && k < 127
  {
    Word(buffer[2 * k + 2], buffer[2 * k + 3])
  }

  /** What a C program sees of a buffer. */
  function CString(bytes: seq<bv8>): seq<bv8>
  {
    if bytes == [] || bytes[0] == 0 then [] else [bytes[0]] + CString(bytes[1..])
  }

  /** usbGetDescriptorString; result and buffer of usb_control_msg are parameters. */
  method UsbGetDescriptorString(buffer: array<bv8>, received: int, buf: array<bv8>, buflen: nat) returns (result: int)
    requires buffer.Length == 256 && received <= 256
    requires 1 <= buflen == buf.Length && buf != buffer
    modifies buf
    ensures received < 0 ==> result == received && buf[..] == old(buf[..])
    ensures received >= 0 && buffer[1] != 3 ==> result == 0 && buf[..] == old(buf[..])
    ensures received >= 0 && buffer[1] == 3 ==>
      && result == Count(buffer[..], received, buflen) && result < buflen
      && IsName(buf[..result], buffer[..]) && buf[result] == 0
  {
    var rval := received;
    if rval < 0 { return rval; }
    if buffer[0] as int < rval { rval := buffer[0] as int; }
    if buffer[1] != 3 { return 0; }
    rval := rval / 2;
    var i := 1;
    while i < rval && i < buflen
      invariant 1 <= i <= buflen && (i > 1 ==> i <= rval) && buffer[..] == old(buffer[..])
      invariant IsName(buf[..i - 1], buffer[..])
    {
      if buffer[2 * i + 1] == 0 {
        buf[i - 1] := buffer[2 * i];
      } else {
        buf[i - 1] := QUESTION_MARK;
      }
      i := i + 1;
    }
    buf[i - 1] := 0;
    return i - 1;
  }

  // ---- What arrives ----

  /** The name read out of a descriptor that arrived whole: character by character the
      descriptor's, cut only by the room in the caller's buffer. */
  lemma Decodes(words: seq<Word>, buffer: seq<bv8>, buflen: nat, name: seq<bv8>)
    requires |words| <= 126 && |buffer| == 256 && buflen > 0
    requires buffer[..2 * |words| + 2] == StringDescriptor(words)
    requires |name| == Count(buffer, 2 * |words| + 2, buflen) && IsName(name, buffer)
    ensures |name| == if |words| < buflen then |words| else buflen - 1
    ensures forall k :: 0 <= k < |name| ==> name[k] == Latin1(words[k])
  {
    hide Latin1, WordBytes;
    var n := 2 * |words| + 2;
    assert buffer[0] == buffer[..n][0];
    forall k | 0 <= k < |name| ensures name[k] == Latin1(words[k]) {
      WordBytesAt(words, k);
      assert buffer[..n][2 * k + 2] == words[k].low && buffer[..n][2 * k + 3] == words[k].high;
    }
  }

  /** When less arrives than the descriptor claims, or more, the shorter of the two counts, and
      what there is of the text is right. */
  lemma PartDecodes(words: seq<Word>, received: nat, buffer: seq<bv8>, buflen: nat, name: seq<bv8>)
    requires |words| <= 126 && |buffer| == 256 && buflen > 0 && 2 <= received <= 256
    requires var n := Min(received, 2 * |words| + 2); buffer[..n] == StringDescriptor(words)[..n]
    requires |name| == Count(buffer, received, buflen) && IsName(name, buffer)
    ensures |name| == Min(Min(received / 2 - 1, |words|), buflen - 1)
    ensures forall k :: 0 <= k < |name| ==> name[k] == Latin1(words[k])
  {
    hide Latin1, WordBytes;
    var n := Min(received, 2 * |words| + 2);
    assert buffer[0] == buffer[..n][0];
    forall k | 0 <= k < |name| ensures name[k] == Latin1(words[k]) {
      WordBytesAt(words, k);
      assert buffer[..n][2 * k + 2] == words[k].low && buffer[..n][2 * k + 3] == words[k].high;
    }
  }

  lemma {:induction false} CStringStops(name: seq<bv8>, rest: seq<bv8>)
    ensures CString(name + [0] + rest) <= name
    ensures CString(name + [0] + rest) == name <==> 0 !in name
  {
    var all := name + [0] + rest;
    if name != [] && name[0] != 0 {
      CStringStops(name[1..], rest);
      assert all[1..] == name[1..] + [0] + rest;
      assert name == [name[0]] + name[1..];
    }
  }

  /** The C string is the descriptor's text. */
  predicate SameText(text: seq<bv8>, words: seq<Word>)
  {
    |text| == |words| && forall k :: 0 <= k < |text| ==> text[k] as nat == Code(words[k])
  }

  predicate IsLatin1(words: seq<Word>)
  {
    forall k :: 0 <= k < |words| ==> 0 < Code(words[k]) < 256
  }

  lemma Latin1IsCode(w: Word)
    ensures Latin1(w) as nat == Code(w) <==> Code(w) < 256
    ensures Code(w) < 256 ==> (Latin1(w) == 0 <==> Code(w) == 0)
  {}

  /** The text survives exactly when it consists of nonzero Latin-1 characters. */
  lemma NameSurvives(words: seq<Word>, name: seq<bv8>, rest: seq<bv8>)
    requires |name| == |words| && forall k :: 0 <= k < |name| ==> name[k] == Latin1(words[k])
    ensures SameText(CString(name + [0] + rest), words) <==> IsLatin1(words)
  {
    hide Latin1, Code, CString;
    CStringStops(name, rest);
    forall k | 0 <= k < |words|
      ensures name[k] as nat == Code(words[k]) <==> Code(words[k]) < 256
      ensures Code(words[k]) < 256 ==> (name[k] == 0 <==> Code(words[k]) == 0)
    {
      Latin1IsCode(words[k]);
    }
    var text := CString(name + [0] + rest);
    if SameText(text, words) {
      forall k | 0 <= k < |words| ensures 0 < Code(words[k]) < 256 { assert text[k] == name[k]; }
    }
  }

  /** GET_DESCRIPTOR asks for 256 bytes, so the low byte of wLength is 0; only the test of the
      high byte keeps usbProcessRx from cutting the reply to nothing. */
  lemma NothingIsCut(rom: Descriptors, configuration: bv8, index: bv8, langId: Word)
    requires rom.Valid() && (index == 1 || index == 2)
    ensures Reply(rom, configuration, GetString(index, langId)) == if index == 1 then rom.vendor else rom.product
  {
    hide Code;
    var request := GetString(index, langId);
    assert IsStandard(request);
    assert Requested(request) == 256;
  }

  lemma IsStringDescriptor(words: seq<Word>, buffer: seq<bv8>)
    requires |words| <= 126 && |buffer| == 256 && buffer[..|StringDescriptor(words)|] == StringDescriptor(words)
    ensures |StringDescriptor(words)| == 2 * |words| + 2 && buffer[1] == 3
  {
    assert buffer[..|StringDescriptor(words)|][1] == 3;
  }

  /** What usb_control_msg does with the bytes it gets. */
  method Copy(data: seq<bv8>, buffer: array<bv8>)
    requires |data| <= buffer.Length
    modifies buffer
    ensures buffer[..|data|] == data
  {
    for i := 0 to |data|
      invariant buffer[..i] == data[..i]
    {
      buffer[i] := data[i];
    }
  }

  method DecodeName(data: seq<bv8>, buffer: array<bv8>, buf: array<bv8>, ghost words: seq<Word>) returns (result: int)
    requires |data| <= 256 && |words| <= 126
    requires buffer.Length == 256 && |words| < buf.Length && buf != buffer
    modifies buffer, buf
    ensures data == StringDescriptor(words) ==>
      result == |words| && (SameText(CString(buf[..]), words) <==> IsLatin1(words))
  {
    hide CString, StringDescriptor, IsName, IsLatin1, SameText;
    Copy(data, buffer);
    result := UsbGetDescriptorString(buffer, |data|, buf, buf.Length);
    if data == StringDescriptor(words) {
      IsStringDescriptor(words, buffer[..]);
      Decodes(words, buffer[..], buf.Length, buf[..result]);
      assert buf[..] == buf[..result] + [0] + buf[result + 1..];
      NameSurvives(words, buf[..result], buf[result + 1..]);
    }
  }

  lemma IsShort(words: seq<Word>)
    requires |words| <= 126
    ensures |StringDescriptor(words)| == 2 * |words| + 2 <= 254
  {}

  lemma HasRoom(d: Driver)
    requires Host.Sound(d)
    ensures d.rom.Valid()
  {}

  /** usb_control_msg: the bytes of a string descriptor, over the bus; never more than were
      asked for. */
  method AskForString(d: Driver, address: bv8, index: bv8, langId: Word, rounds: nat)
    returns (data: seq<bv8>, busy: nat)
    requires Host.Sound(d) && !d.E().waiting && (index == 1 || index == 2)
    requires Lsl(address) == d.usbDeviceAddr && d.usbDeviceAddr == d.usbNewDeviceAddr << 1
    modifies d, d.usbRxBuf, d.usbTxBuf
    ensures Host.Sound(d) && |data| <= 256 && busy <= rounds && |d.log| >= |old(d.log)| + 2
    ensures busy > 0 ==> Accepts(d.log[|old(d.log)| + 2..])
    ensures Host.Calm(d, old(d.point)) ==> Host.Alone(d, |old(d.log)| + 2)
    ensures busy <= DataPackets(d.bus, old(d.point), d.point)
    ensures var text := if index == 1 then d.rom.vendor else d.rom.product;
      Host.Alone(d, |old(d.log)| + 2) && rounds - busy > |text| / 8 ==> data == text
  {
    hide Host.Sound, Collect, Reply, Driver.E, GetString, SentPackets, Host.Alone, Host.Calm;
    hide ControlTransfer.Packets, Accepts;
    HasRoom(d);
    NothingIsCut(d.rom, d.usbConfiguration, index, langId);
    var packets;
    packets, busy := Host.ControlIn(d, address, GetString(index, langId), rounds);
    data := Collect(packets);
    if |data| > 256 { data := data[..256]; }
  }

  /** The whole way: the controller asks the driver for a string and decodes it.  With no other
      request in between, and rounds enough for its packets, the length is right, and the text
      exactly if it is nonzero Latin-1. */
  method ReadName(d: Driver, address: bv8, index: bv8, langId: Word, rounds: nat, buffer: array<bv8>,
                  buf: array<bv8>, ghost words: seq<Word>) returns (result: int, busy: nat)
    requires Host.Sound(d) && !d.E().waiting
    requires Lsl(address) == d.usbDeviceAddr && d.usbDeviceAddr == d.usbNewDeviceAddr << 1
    requires |words| <= 126 && (index == 1 || index == 2)
    requires (if index == 1 then d.rom.vendor else d.rom.product) == StringDescriptor(words)
    requires buffer.Length == 256 && |words| < buf.Length && buf != buffer
    requires {buffer, buf} !! {d.usbRxBuf, d.usbTxBuf}
    modifies d, d.usbRxBuf, d.usbTxBuf, buffer, buf
    ensures Host.Sound(d) && busy <= rounds && |d.log| >= |old(d.log)| + 2
    ensures busy > 0 ==> Accepts(d.log[|old(d.log)| + 2..])
    ensures Host.Calm(d, old(d.point)) ==> Host.Alone(d, |old(d.log)| + 2)
    ensures busy <= DataPackets(d.bus, old(d.point), d.point)
    ensures Host.Alone(d, |old(d.log)| + 2) && rounds - busy > (|words| + 1) / 4 ==>
      && result == |words|
      && (SameText(CString(buf[..]), words) <==> IsLatin1(words))
  {
    hide Host.Sound, CString, Driver.E, StringDescriptor, IsLatin1, SameText, Host.Alone, Host.Calm, Accepts;
    var data;
    data, busy := AskForString(d, address, index, langId, rounds);
    IsShort(words);
    result := DecodeName(data, buffer, buf, words);
  }
}
