/** The 12 MHz transmitter: bit stuffing by a countdown that is reloaded to six. */
module Transmit12 {
  import opened Bits
  import opened Wire

  class Sender {
    var x1: bv8     // mirror of the output port
    var x4: nat     // ones that may still be sent before a zero must be stuffed
    var shift: bv8
    var wave: seq<bv8>  // what `out USBOUT, x1` put on the bus, one entry per bit time
    ghost var pins: bv8     // the other pins of the port

    constructor ()
      ensures wave == []
    {
      x1, x4, shift, wave := 0, 0, 0, [];
      pins := 0;
    }

    /** Every bit of `bits` is on the bus. */
    ghost predicate Sent(bits: seq<bool>)
      reads `wave, `x1, `x4, `pins
    {
      && Drives(wave, Wave(bits)) && Steady()
      && IsJK(x1) && Minus(x1) == LastLevel(Wave(bits))
      && Ones(bits) <= 5 && x4 == 6 - Ones(bits)
    }

    /** Every bit of `bits` is on the bus once x1 has been written to the port. */
    ghost predicate Pending(bits: seq<bool>)
      reads `wave, `x1, `x4, `pins
    {
      && Drives(wave + [x1], Wave(bits)) && Steady()
      && IsJK(x1) && Minus(x1) == LastLevel(Wave(bits))
      && Ones(bits) <= 5 && x4 == 6 - Ones(bits)
    }

    /** Nothing written to the port has changed its other pins. */
    ghost predicate Steady()
      reads `wave, `x1, `pins
    {
      Others(x1) == pins && forall i :: 0 <= i < |wave| ==> Others(wave[i]) == pins
    }

    lemma SteadyMeans()
      requires Steady()
      ensures forall i :: 0 <= i < |wave| ==> Others(wave[i]) == pins
    {}

    method Out()
      modifies this`wave
      ensures wave == old(wave) + [x1] && (old(Steady()) ==> Steady())
    {
      wave := wave + [x1];
    }

    method ExorAndReload()
      requires IsJK(x1)
      modifies this`x1, this`x4
      ensures IsJK(x1) && Minus(x1) == !old(Minus(x1)) && x4 == 6 && (old(Steady()) ==> Steady())
    {
      Flip(x1);
      OthersStay(x1);
      x1 := x1 ^ USBMASK;
      x4 := 6;
    }

    /** stuffN1Delay and stuff6Delay: the port is written after this, and a stuffed bit
        time consists of waiting eight cycles with the old level on the bus. */
    method ShiftThenOut(ghost bits: seq<bool>, ghost byte: bv8, ghost j: nat)
      requires j < 8 && Sent(bits) && Left(shift, byte, j)
      modifies `x1, `x4, `shift, `wave
      ensures Pending(bits + [Bit(byte, j)]) && Left(shift, byte, j + 1)
    {
      hide Bit, Ror, Lsl, IsJK, Minus, Wave, Ones, LastLevel, Drives, Steady, Left, LeftStuffed;
      WaveSnoc(bits, Bit(byte, j));
      ghost var stuffing := false;
      while true
        invariant IsJK(x1) && Minus(x1) == LastLevel(Wave(bits)) && Ones(bits) <= 5 && Steady()
        invariant !stuffing ==> Drives(wave, Wave(bits)) && x4 == 6 - Ones(bits) && Left(shift, byte, j)
        invariant stuffing ==> Drives(wave, Wave(bits) + [Minus(x1)]) && Ones(bits) == 5 && Bit(byte, j)
        invariant stuffing ==> LeftStuffed(shift, byte, j)
        decreases !stuffing
      {
        var carry := Bit(shift, 0);
        var top: bool := *;   // rotated in at the top, never sent
        RorLeft(shift, byte, j, top);
        shift := Ror(shift, top);
        if !carry {
          ExorAndReload();
          break;
        }
        x4 := x4 - 1;
        if x4 != 0 { break; }
        LslLeft(shift, byte, j);
        shift := Lsl(shift);
        DriveOne(wave, Wave(bits), x1);
        Out();
        stuffing := true;
      }
      DriveOne(wave, if stuffing then Wave(bits) + [!Minus(x1)] else Wave(bits), x1);
      assert Wave(bits) + [!Minus(x1)] + [Minus(x1)] == Wave(bits) + [!Minus(x1), Minus(x1)];
    }

    /** stuffN2Delay and stuff7Delay: the port is written on every pass, before the new bit
        takes effect. */
    method OutThenShift(ghost bits: seq<bool>, ghost byte: bv8, ghost j: nat)
      requires j < 8 && Pending(bits) && Left(shift, byte, j)
      modifies `x1, `x4, `shift, `wave
      ensures Pending(bits + [Bit(byte, j)]) && Left(shift, byte, j + 1)
    {
      hide Bit, Ror, Lsl, IsJK, Minus, Wave, Ones, LastLevel, Drives, Steady, Left, LeftStuffed;
      WaveSnoc(bits, Bit(byte, j));
      ghost var stuffing := false;
      while true
        invariant IsJK(x1) && Minus(x1) == LastLevel(Wave(bits)) && Ones(bits) <= 5 && Steady()
        invariant !stuffing ==> Drives(wave + [x1], Wave(bits)) && x4 == 6 - Ones(bits) && Left(shift, byte, j)
        invariant stuffing ==> Drives(wave + [x1], Wave(bits) + [Minus(x1)]) && Ones(bits) == 5 && Bit(byte, j)
        invariant stuffing ==> LeftStuffed(shift, byte, j)
        decreases !stuffing
      {
        var carry := Bit(shift, 0);
        var top: bool := *;
        RorLeft(shift, byte, j, top);
        shift := Ror(shift, top);
        Out();
        if !carry {
          ExorAndReload();
          break;
        }
        x4 := x4 - 1;
        if x4 != 0 { break; }
        LslLeft(shift, byte, j);
        shift := Lsl(shift);
        DriveOne(wave, Wave(bits), x1);
        stuffing := true;
      }
      DriveOne(wave, if stuffing then Wave(bits) + [!Minus(x1)] else Wave(bits), x1);
      assert Wave(bits) + [!Minus(x1)] + [Minus(x1)] == Wave(bits) + [!Minus(x1), Minus(x1)];
    }

    /** Take the bus in state J and send the first bit of the sync byte. */
    method Start(port: bv8, ghost full: seq<bv8>)
      requires port & USBMASK == 0 && |full| >= 1 && full[0] == 0x80
      modifies this
      ensures Left(shift, full[0], 1) && Pending(BitsOf(full)[..1]) && pins == Others(port)
    {
      wave := [];
      OthersStay(port);
      x1 := port | 0x08;
      pins := Others(port);
      shift := 0x40;        // 0x80, entered after its first ror
      WaveSnoc([], false);
      ExorAndReload();
      DriveOne(wave, [], x1);
      NextBit(full, 0, 0);
      assert BitsOf(full)[..0] + [false] == [false];
    }

    method EndOfPacket()
      modifies `x1, `wave
      ensures wave == old(wave) + [x1, x1] && IsSe0(x1) && (old(Steady()) ==> Steady())
    {
      OthersStay(x1);
      x1 := x1 & !USBMASK;
      Out();
      Out();
    }

    /** txBitloop: bits 1 to 5 of byte n.  `subi cnt, 171` wraps: it borrows twice, and
        three of them count one byte. */
    method BitLoop(ghost full: seq<bv8>, ghost n: nat, cnt0: nat) returns (cnt: nat)
      requires n < |full| && 1 <= cnt0 <= 85
      requires Left(shift, full[n], 1) && Pending(BitsOf(full)[..8 * n + 1])
      modifies `x1, `x4, `shift, `wave
      ensures cnt == cnt0 - 1
      ensures Left(shift, full[n], 6) && Sent(BitsOf(full)[..8 * n + 6])
    {
      hide Bit, IsJK, Minus, Wave, Ones, LastLevel, Drives, Steady, Others, Left, BitsOf;
      cnt := cnt0;
      ghost var m := 0;
      while true
        invariant 0 <= m <= 2 && cnt == cnt0 + 85 * m
        invariant Left(shift, full[n], 2 * m + 1) && Pending(BitsOf(full)[..8 * n + 2 * m + 1])
        decreases 2 - m
      {
        NextBit(full, n, 2 * m + 1);
        OutThenShift(BitsOf(full)[..8 * n + 2 * m + 1], full[n], 2 * m + 1);
        var borrow := cnt < 171;
        cnt := (cnt - 171) % 256;
        Out();
        if !borrow { break; }
        NextBit(full, n, 2 * m + 2);
        ShiftThenOut(BitsOf(full)[..8 * n + 2 * m + 2], full[n], 2 * m + 2);
        m := m + 1;
      }
    }

    /** usbSendAndReti: the sync byte and the cnt - 1 bytes from y on, then two bit times of
        SE0. */
    method UsbSend(port: bv8, mem: nat -> bv8, y0: nat, cnt0: nat)
      requires port & USBMASK == 0 && 1 <= cnt0 <= 85
      modifies this
      ensures |wave| >= 2 && IsSe0(wave[|wave| - 2]) && IsSe0(wave[|wave| - 1])
      ensures Drives(wave[..|wave| - 2], Wave(BitsOf(Packet(mem, y0, cnt0))))
      ensures forall i :: 0 <= i < |wave| ==> Others(wave[i]) == Others(port)
    {
      hide Bit, IsJK, Minus, Wave, Ones, LastLevel, Drives, Steady, Others, Left, BitsOf;
      ghost var full := Packet(mem, y0, cnt0);
      ghost var n := 0;
      var y, cnt := y0, cnt0;
      Start(port, full);
      while true
        invariant pins == Others(port)
        invariant n + cnt == cnt0 && 0 < cnt && y == y0 + n
        invariant Left(shift, full[n], 1) && Pending(BitsOf(full)[..8 * n + 1])
        decreases cnt
      {
        cnt := BitLoop(full, n, cnt);
        NextBit(full, n, 6);
        ShiftThenOut(BitsOf(full)[..8 * n + 6], full[n], 6);
        NextBit(full, n, 7);
        OutThenShift(BitsOf(full)[..8 * n + 7], full[n], 7);
        shift := mem(y);
        y := y + 1;
        n := n + 1;
        Out();
        if cnt == 0 { break; }
        LeftAll(shift);
        NextBit(full, n, 0);
        ShiftThenOut(BitsOf(full)[..8 * n], full[n], 0);
      }
      assert BitsOf(full)[..8 * n] == BitsOf(full);
      EndOfPacket();
      SteadyMeans();
    }
  }
}
