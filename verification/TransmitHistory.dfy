/** The transmitters of the 16, 16.5 and 20 MHz versions: bit stuffing by a register x2 that
    holds the last eight bits sent and is compared with 0xfc. */
module TransmitHistory {
  import opened Bits
  import opened Wire

  class Sender {
    var x1: bv8     // mirror of the output port
    var x2: bv8     // bits sent so far, newest at the top; arbitrary before the sync byte
    var shift: bv8
    var wave: seq<bv8>
    ghost var pins: bv8     // the other pins of the port

    constructor ()
      ensures wave == []
    {
      x1, x2, shift, wave := 0, 0, 0, [];
      pins := 0;
    }

    ghost predicate Sent(bits: seq<bool>)
      reads `wave, `x1, `x2, `pins
    {
      && Drives(wave, Wave(bits)) && Steady()
      && IsJK(x1) && Minus(x1) == LastLevel(Wave(bits))
      && Ones(bits) <= 5
      && (bits == [] || History(x2, Ones(bits)))
    }

    /** Nothing written to the port has changed its other pins. */
    ghost predicate Steady()
      reads `wave, `x1, `pins
    {
      Others(x1) == pins && forall i :: 0 <= i < |wave| ==> Others(wave[i]) == pins
    }

    lemma SteadyMeans()
      requires Steady()
      ensures forall i :: 0 <= i < |wave| ==> Others(wave[i]) == pins
    {}

    method Out()
      modifies this`wave
      ensures wave == old(wave) + [x1] && (old(Steady()) ==> Steady())
    {
      wave := wave + [x1];
    }

    /** `eor x1, x4` */
    method Toggle()
      requires IsJK(x1)
      modifies this`x1
      ensures IsJK(x1) && Minus(x1) == !old(Minus(x1)) && (old(Steady()) ==> Steady())
    {
      Flip(x1);
      OthersStay(x1);
      x1 := x1 ^ USBMASK;
    }

    /** The level of bit b is on the bus and in the history, before the test for a stuff bit. */
    ghost predicate OneOut(bits: seq<bool>, b: bool)
      reads `wave, `x1, `x2, `pins
    {
      && Ones(bits) <= 5 && IsJK(x1) && Minus(x1) == (LastLevel(Wave(bits)) == b)
      && Drives(wave, Wave(bits) + [Minus(x1)]) && Steady()
      && History(x2, if b then Ones(bits) + 1 else 0)
    }

    /** A stuff bit is on the bus behind it. */
    ghost predicate TwoOut(bits: seq<bool>, b: bool)
      reads `wave, `x1, `x2, `pins
    {
      && b && Ones(bits) == 5 && IsJK(x1) && Minus(x1) != (LastLevel(Wave(bits)) == b)
      && Drives(wave, Wave(bits) + [!Minus(x1)] + [Minus(x1)]) && Steady()
      && History(x2, 0)
    }

    lemma OneIsEnough(bits: seq<bool>, b: bool)
      requires OneOut(bits, b) && !Full(x2)
      ensures Sent(bits + [b])
    {
      hide IsJK, Minus, Wave, Ones, LastLevel, Drives, Steady, History, Full;
      WaveSnoc(bits, b);
      HistoryFull(x2, if b then Ones(bits) + 1 else 0);
    }

    lemma StuffIsDue(bits: seq<bool>, b: bool)
      requires OneOut(bits, b) && Full(x2)
      ensures b && Ones(bits) == 5
    {
      hide IsJK, Minus, Wave, Ones, LastLevel, Drives, Steady, History, Full;
      HistoryFull(x2, if b then Ones(bits) + 1 else 0);
    }

    lemma TwoAreEnough(bits: seq<bool>, b: bool)
      requires TwoOut(bits, b)
      ensures Sent(bits + [b]) && !Full(x2)
    {
      hide IsJK, Minus, Wave, Ones, LastLevel, Drives, Steady, History, Full;
      WaveSnoc(bits, b);
      HistoryFull(x2, 0);
      assert Wave(bits) + [!Minus(x1)] + [Minus(x1)] == Wave(bits) + [!Minus(x1), Minus(x1)];
    }

    /** Set the level of the bit that is leaving the shift register, and record it. */
    method OutAndRecord(ghost bits: seq<bool>, carry: bool)
      requires Sent(bits) && (bits == [] ==> !carry)
      modifies this`x1, this`x2, this`wave
      ensures OneOut(bits, carry)
    {
      hide IsJK, Minus, Wave, Ones, LastLevel, Drives, Steady, History, Ror;
      if !carry { Toggle(); }
      DriveOne(wave, Wave(bits), x1);
      Out();
      HistoryStep(x2, Ones(bits), carry);
      x2 := Ror(x2, carry);
    }

    /** The body of txBitLoop, with the stuffed bit sent at bitstuffN. */
    method SendBit(ghost bits: seq<bool>, ghost byte: bv8, ghost j: nat)
      requires j < 8 && Sent(bits) && Left(shift, byte, j)
      requires bits == [] ==> !Bit(byte, j)
      modifies `x1, `x2, `shift, `wave
      ensures Sent(bits + [Bit(byte, j)]) && Left(shift, byte, j + 1)
    {
      hide Bit, Ror, IsJK, Minus, Wave, Ones, LastLevel, Drives, Steady, Left, History, Full, Sent, OneOut;
      var top: bool := *;
      RorLeft(shift, byte, j, top);
      var carry := Bit(shift, 0);
      shift := Ror(shift, top);
      OutAndRecord(bits, carry);
      if Full(x2) {
        StuffAndClear(bits, carry);
        TwoAreEnough(bits, carry);   // the test is repeated, and fails
      } else {
        OneIsEnough(bits, carry);
      }
    }

    /** bitstuffN: the zero is sent at once, and the history starts anew. */
    method StuffAndClear(ghost bits: seq<bool>, ghost b: bool)
      requires OneOut(bits, b) && Full(x2)
      modifies this`x1, this`x2, this`wave
      ensures TwoOut(bits, b)
    {
      hide IsJK, Minus, Wave, Ones, LastLevel, Drives, Steady, History, Full;
      StuffIsDue(bits, b);
      ghost var level := Minus(x1);
      Toggle();
      x2 := 0;
      HistoryClear();
      DriveOne(wave, Wave(bits) + [level], x1);
      Out();
    }

    /** The same where the history is shifted once more for the stuff bit. */
    method StuffAndRecord(ghost bits: seq<bool>, ghost b: bool, carry: bool)
      requires OneOut(bits, b) && Full(x2) && !carry
      modifies this`x1, this`x2, this`wave
      ensures TwoOut(bits, b)
    {
      hide IsJK, Minus, Wave, Ones, LastLevel, Drives, Steady, History, Full, Ror, OneOut;
      StuffAndClear(bits, b);
      HistoryStep(x2, 0, carry);
      x2 := Ror(x2, carry);
    }

    /** Bit 6 at 16 MHz and bit 7 at 20 MHz: to stuff, the zero is put back in front of the
        shift register and the code that sends a bit is entered again. */
    method SendBitAgain(ghost bits: seq<bool>, ghost byte: bv8, ghost j: nat)
      requires j < 8 && Sent(bits) && bits != [] && Left(shift, byte, j)
      modifies `x1, `x2, `shift, `wave
      ensures Sent(bits + [Bit(byte, j)]) && Left(shift, byte, j + 1)
    {
      hide Bit, Ror, Rol, IsJK, Minus, Wave, Ones, LastLevel, Drives, Steady, Left, History, Full, Sent, OneOut, TwoOut;
      var top: bool := *;
      RorLeft(shift, byte, j, top);
      var carry := Bit(shift, 0);
      shift := Ror(shift, top);
      OutAndRecord(bits, carry);
      if Full(x2) {
        RolRor(shift);
        var out := Bit(shift, 7);
        shift := Rol(shift, false);
        StuffAndRecord(bits, carry, Bit(shift, 0));
        shift := Ror(shift, out);
        TwoAreEnough(bits, carry);   // the test is repeated, and fails
      } else {
        OneIsEnough(bits, carry);
      }
    }

    /** didStuff7 at 16 MHz: the level follows the top of the history register. */
    method Bit7Pass(carry: bool)
      requires IsJK(x1)
      modifies this`x1, this`x2, this`wave
      ensures x2 == Ror(old(x2), carry)
      ensures IsJK(x1) && Minus(x1) == (old(Minus(x1)) == carry)
      ensures wave == old(wave) + [x1] && (old(Steady()) ==> Steady())
    {
      hide Steady;
      RorTop(x2, carry);
      x2 := Ror(x2, carry);
      if !Bit(x2, 7) { Toggle(); }
      Out();
    }

    /** Bit 7 at 16 MHz. */
    method SendBit7From16(ghost bits: seq<bool>, ghost byte: bv8)
      requires Sent(bits) && bits != [] && Left(shift, byte, 7)
      modifies `x1, `x2, `shift, `wave
      ensures Sent(bits + [Bit(byte, 7)])
    {
      hide Bit, Ror, IsJK, Minus, Wave, Ones, LastLevel, Drives, Steady, Left, History, Full, Sent, OneOut, TwoOut;
      var top: bool := *;
      RorLeft(shift, byte, 7, top);
      var carry := Bit(shift, 0);
      shift := Ror(shift, top);
      PassOne(bits, carry);
      if Full(x2) {
        PassStuffed(bits, carry);
        TwoAreEnough(bits, carry);   // the test is repeated, and fails
      } else {
        OneIsEnough(bits, carry);
      }
    }

    method PassOne(ghost bits: seq<bool>, carry: bool)
      requires Sent(bits) && bits != []
      modifies this`x1, this`x2, this`wave
      ensures OneOut(bits, carry)
    {
      hide IsJK, Minus, Wave, Ones, LastLevel, Drives, Steady, History, Ror;
      HistoryStep(x2, Ones(bits), carry);
      ghost var before := wave;
      Bit7Pass(carry);
      DriveOne(before, Wave(bits), x1);
    }

    method PassStuffed(ghost bits: seq<bool>, ghost b: bool)
      requires OneOut(bits, b) && Full(x2)
      modifies this`x1, this`x2, this`wave
      ensures TwoOut(bits, b)
    {
      hide IsJK, Minus, Wave, Ones, LastLevel, Drives, Steady, History, Full, Ror;
      StuffIsDue(bits, b);
      x2 := 0;
      HistoryStep(x2, 0, false);
      ghost var before, level := wave, Minus(x1);
      Bit7Pass(false);               // the compare left the carry clear
      DriveOne(before, Wave(bits) + [level], x1);
    }

    /** Bit 7 at 16.5 MHz. */
    method SendBit7From165(ghost bits: seq<bool>, ghost byte: bv8)
      requires Sent(bits) && bits != [] && Left(shift, byte, 7)
      modifies `x1, `x2, `shift, `wave
      ensures Sent(bits + [Bit(byte, 7)])
    {
      hide Bit, Ror, IsJK, Minus, Wave, Ones, LastLevel, Drives, Steady, Left, History, Full, Sent, OneOut, TwoOut;
      var top: bool := *;
      RorLeft(shift, byte, 7, top);
      var carry := Bit(shift, 0);
      shift := Ror(shift, top);
      OutAndRecord(bits, carry);
      if Full(x2) {
        StuffAndRecord(bits, carry, false);   // the carry is left clear by the compare
        TwoAreEnough(bits, carry);            // the test is repeated, and fails
      } else {
        OneIsEnough(bits, carry);
      }
    }

    /** Take the bus in state J and load the sync byte. */
    method Start(port: bv8)
      requires port & USBMASK == 0
      modifies this
      ensures Sent([]) && shift == 0x80 && Left(shift, 0x80, 0) && pins == Others(port)
    {
      wave := [];
      OthersStay(port);
      x1 := port | 0x08;
      pins := Others(port);
      shift := 0x80;
      LeftAll(shift);
    }

    method EndOfPacket()
      modifies `x1, `wave
      ensures wave == old(wave) + [x1, x1] && IsSe0(x1) && (old(Steady()) ==> Steady())
    {
      OthersStay(x1);
      x1 := x1 & !USBMASK;
      Out();
      Out();
    }

    /** 16 MHz: `lsr bitcnt` drops the ones and zeros of 0x35, so the loop sends six bits. */
    method OneByte16(ghost full: seq<bv8>, ghost n: nat)
      requires n < |full| && full[0] == 0x80
      requires Left(shift, full[n], 0) && Sent(BitsOf(full)[..8 * n])
      modifies `x1, `x2, `shift, `wave
      ensures Sent(BitsOf(full)[..8 * n + 8])
    {
      hide Bit, IsJK, Minus, Wave, Ones, LastLevel, Drives, Steady, Others, Left, BitsOf;
      var bitcnt := 0x35;
      ghost var m := 0;
      while true
        invariant 0 <= m <= 5 && bitcnt == [0x35, 0x1a, 0x0d, 0x06, 0x03, 0x01][m]
        invariant Left(shift, full[n], m) && Sent(BitsOf(full)[..8 * n + m])
        decreases 5 - m
      {
        NextBit(full, n, m);
        FirstBitIsZero(full, n, m);
        SendBit(BitsOf(full)[..8 * n + m], full[n], m);
        var carry := bitcnt % 2 == 1;
        bitcnt := bitcnt / 2;
        m := m + 1;
        if carry && bitcnt == 0 { break; }
      }
      NextBit(full, n, 6);
      SendBitAgain(BitsOf(full)[..8 * n + 6], full[n], 6);
      NextBit(full, n, 7);
      SendBit7From16(BitsOf(full)[..8 * n + 7], full[n]);
    }

    /** usbSendAndReti: the packet, byte by byte, then two bit times of SE0. */
    method UsbSend16(port: bv8, mem: nat -> bv8, y0: nat, cnt0: nat)
      requires port & USBMASK == 0 && 1 <= cnt0
      modifies this
      ensures |wave| >= 2 && IsSe0(wave[|wave| - 2]) && IsSe0(wave[|wave| - 1])
      ensures Drives(wave[..|wave| - 2], Wave(BitsOf(Packet(mem, y0, cnt0))))
      ensures forall i :: 0 <= i < |wave| ==> Others(wave[i]) == Others(port)
    {
      hide Bit, IsJK, Minus, Wave, Ones, LastLevel, Drives, Steady, Others, Left, BitsOf;
      ghost var full := Packet(mem, y0, cnt0);
      ghost var n := 0;
      var y, cnt := y0, cnt0;
      Start(port);
      assert BitsOf(full)[..0] == [];
      while true
        invariant pins == Others(port)
        invariant n + cnt == cnt0 && 0 < cnt && y == y0 + n
        invariant Left(shift, full[n], 0) && Sent(BitsOf(full)[..8 * n])
        decreases cnt
      {
        OneByte16(full, n);
        shift := mem(y);
        LeftAll(shift);
        y := y + 1;
        n := n + 1;
        cnt := cnt - 1;
        if cnt == 0 { break; }
      }
      assert BitsOf(full)[..8 * n] == BitsOf(full);
      EndOfPacket();
      SteadyMeans();
    }

    /** 16.5 MHz: `subi bitStatus, 37` borrows on every seventh pass, and leaves the counter
        only three lower, which is why twelve bytes can be sent before it must be reloaded. */
    method OneByte165(ghost full: seq<bv8>, ghost n: nat, bitStatus0: nat) returns (bitStatus: nat)
      requires n < |full| && full[0] == 0x80
      requires Left(shift, full[n], 0) && Sent(BitsOf(full)[..8 * n])
      requires n < 12 && bitStatus0 == 0xff - 3 * n
      modifies `x1, `x2, `shift, `wave
      ensures Sent(BitsOf(full)[..8 * n + 8])
      ensures bitStatus == bitStatus0 - 3
    {
      hide Bit, IsJK, Minus, Wave, Ones, LastLevel, Drives, Steady, Others, Left, BitsOf;
      bitStatus := bitStatus0;
      ghost var m := 0;
      while true
        invariant 0 <= m <= 6 && bitStatus == bitStatus0 - 37 * m
        invariant Left(shift, full[n], m) && Sent(BitsOf(full)[..8 * n + m])
        decreases 6 - m
      {
        NextBit(full, n, m);
        FirstBitIsZero(full, n, m);
        SendBit(BitsOf(full)[..8 * n + m], full[n], m);
        var borrow := bitStatus < 37;
        bitStatus := (bitStatus - 37) % 256;
        m := m + 1;
        if borrow { break; }
      }
      NextBit(full, n, 7);
      SendBit7From165(BitsOf(full)[..8 * n + 7], full[n]);
    }

    /** usbSendAndReti: the packet, byte by byte, then two bit times of SE0. */
    method UsbSend165(port: bv8, mem: nat -> bv8, y0: nat, cnt0: nat)
      requires port & USBMASK == 0 && 1 <= cnt0 <= 12
      modifies this
      ensures |wave| >= 2 && IsSe0(wave[|wave| - 2]) && IsSe0(wave[|wave| - 1])
      ensures Drives(wave[..|wave| - 2], Wave(BitsOf(Packet(mem, y0, cnt0))))
      ensures forall i :: 0 <= i < |wave| ==> Others(wave[i]) == Others(port)
    {
      hide Bit, IsJK, Minus, Wave, Ones, LastLevel, Drives, Steady, Others, Left, BitsOf;
      ghost var full := Packet(mem, y0, cnt0);
      ghost var n := 0;
      var y, cnt := y0, cnt0;
      Start(port);
      var bitStatus := 0xff;
      assert BitsOf(full)[..0] == [];
      while true
        invariant pins == Others(port)
        invariant n + cnt == cnt0 && 0 < cnt && y == y0 + n && bitStatus == 0xff - 3 * n
        invariant Left(shift, full[n], 0) && Sent(BitsOf(full)[..8 * n])
        decreases cnt
      {
        bitStatus := OneByte165(full, n, bitStatus);
        shift := mem(y);
        LeftAll(shift);
        y := y + 1;
        n := n + 1;
        cnt := cnt - 1;
        if cnt == 0 { break; }
      }
      assert BitsOf(full)[..8 * n] == BitsOf(full);
      EndOfPacket();
      SteadyMeans();
    }

    /** 20 MHz: 0x49 makes the loop send seven bits. */
    method OneByte20(ghost full: seq<bv8>, ghost n: nat)
      requires n < |full| && full[0] == 0x80
      requires Left(shift, full[n], 0) && Sent(BitsOf(full)[..8 * n])
      modifies `x1, `x2, `shift, `wave
      ensures Sent(BitsOf(full)[..8 * n + 8])
    {
      hide Bit, IsJK, Minus, Wave, Ones, LastLevel, Drives, Steady, Others, Left, BitsOf;
      var bitcnt := 0x49;
      ghost var m := 0;
      while true
        invariant 0 <= m <= 6 && bitcnt == [0x49, 0x24, 0x12, 0x09, 0x04, 0x02, 0x01][m]
        invariant Left(shift, full[n], m) && Sent(BitsOf(full)[..8 * n + m])
        decreases 6 - m
      {
        NextBit(full, n, m);
        FirstBitIsZero(full, n, m);
        SendBit(BitsOf(full)[..8 * n + m], full[n], m);
        var carry := bitcnt % 2 == 1;
        bitcnt := bitcnt / 2;
        m := m + 1;
        if carry && bitcnt == 0 { break; }
      }
      NextBit(full, n, 7);
      SendBitAgain(BitsOf(full)[..8 * n + 7], full[n], 7);
    }

    /** usbSendAndReti: the packet, byte by byte, then two bit times of SE0. */
    method UsbSend20(port: bv8, mem: nat -> bv8, y0: nat, cnt0: nat)
      requires port & USBMASK == 0 && 1 <= cnt0
      modifies this
      ensures |wave| >= 2 && IsSe0(wave[|wave| - 2]) && IsSe0(wave[|wave| - 1])
      ensures Drives(wave[..|wave| - 2], Wave(BitsOf(Packet(mem, y0, cnt0))))
      ensures forall i :: 0 <= i < |wave| ==> Others(wave[i]) == Others(port)
    {
      hide Bit, IsJK, Minus, Wave, Ones, LastLevel, Drives, Steady, Others, Left, BitsOf;
      ghost var full := Packet(mem, y0, cnt0);
      ghost var n := 0;
      var y, cnt := y0, cnt0;
      Start(port);
      assert BitsOf(full)[..0] == [];
      while true
        invariant pins == Others(port)
        invariant n + cnt == cnt0 && 0 < cnt && y == y0 + n
        invariant Left(shift, full[n], 0) && Sent(BitsOf(full)[..8 * n])
        decreases cnt
      {
        OneByte20(full, n);
        shift := mem(y);
        LeftAll(shift);
        y := y + 1;
        n := n + 1;
        cnt := cnt - 1;
        if cnt == 0 { break; }
      }
      assert BitsOf(full)[..8 * n] == BitsOf(full);
      EndOfPacket();
      SteadyMeans();
    }
  }
}
