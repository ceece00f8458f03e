# Something's Wrong: a verified model

The repository drives an alarm lamp over USB. A program on a PC watches build servers, web pages
and the clock; when something fails it runs a small controller program, which talks to a device
whose AVR microcontroller speaks USB in software (V-USB). This project models the parts of it in
which mistakes are easy and hard to see, and proves what they promise.

**The wire.** `Bits` and `Wire` define bytes as bits, bit stuffing and NRZI (sections 7.1.8 and
7.1.9 of USB 2.0) and an abstract decoder. The transmitters for 12, 16, 16.5 and 20 MHz
(`Transmit12`, `TransmitHistory`) and the receivers for 12, 16 and 20 MHz (`Receive12`, `Receive16`,
`Receive20`) are register programs: 8 bit registers with explicit carry, one port write per bit time
sent, one port sample per bit time received. `RoundTrip` connects any transmitter with any receiver.

**The CRC.** `Crc16` holds the check field of section 8.3.5 of USB 2.0 and the small version of
`usbCrc16`, `CrcFast` the fast version, `CrcReceive` the pipelined table of the 18 MHz receiver,
`CrcDetection` and `CrcTwoBits` the damage that the check can never miss, and the period of the
register, from which follows what it does miss.

**The control endpoint.** `ControlTransfer` says what a request is answered with and how the answer
is cut into packets; `Endpoint` is an abstract machine over the events of a run and what its legal
histories guarantee. `Device` is the driver: a class whose fields are the shared variables, with the
interrupt steps of `asmcommon.inc` and the statements of `usbdrv.c`. Between any two accesses of the
main loop to shared memory, any number of packets may arrive (`bus`, indexed by `point`);
`Interrupt` is what they do as a function, and `BusTraffic` says of the packets alone what they can
bring about. `Host` runs whole control transfers while anything else may be on the bus, and
`DescriptorString` reads the device's name over them, down to the C string on the PC. `Link` puts
`Host` on the wire: the packets of a control transfer go through all transmitters and receivers, and
the host collects the answer.

**The PC side.** `TransferRing` and `VerifyPattern` are the asynchronous transfers and the test
pattern of the USB benchmark, `AlarmLight` the lamp with its timer threads and the detector,
`StandupAlarm` the daily alarm.

Classes are used where the source has registers, globals or fields that change in place; their
methods are tied to the pure definitions beside them, and the lemmas are about those. The results of
calls that cannot be seen (libusb, the thread scheduler, the clock, what the bus brings) are
parameters or constant functions of a class, so every statement holds for all of them.

Five results show where the code does less than one might expect. `usbGetDescriptorString` returns a
name faithfully exactly if it consists of nonzero Latin-1 characters (`DescriptorString.NameSurvives`).
The benchmark checks each transfer by itself and takes its first key as it comes, so lost packets
are reported exactly if the gap is inside a transfer, with a packet behind it, and the key behind it
is neither 0 nor, by wrap-around, the expected one (`VerifyPattern.LossInTransfers`). The CRC check of
the 18 MHz receiver misses two damaged bits exactly if they are a multiple of 32767 bits apart, which
no USB packet has room for (`CrcTwoBits.TwoBits`). The stand-up alarm can be missed exactly if
midnight cuts its window (`StandupAlarm.OneAlarmIffWhole`), and if nothing else fails, its light goes
out with the next check, however long it was meant to last (`StandupAlarm.WatchAlone`).

## Model

| member | source | states |
|---|---|---|
| Wire.NoSevenOnes | AVR/usbdrv/usbdrvasm12.inc:271-331 | stuffed bits never hold seven ones in a row |
| Wire.TransitionEverySevenBitTimes | AVR/usbdrv/usbdrvasm12.inc:271-331 | the line changes its level at least once in any seven bit times |
| Wire.WaveSnoc | AVR/usbdrv/usbdrvasm12.inc:319-331 | what one more data bit adds to the waveform: a level, and a stuff bit exactly after the sixth one in a row |
| Wire.OnesBound | AVR/usbdrv/usbdrvasm12.inc:316-320 | the run of ones behind any stuffed prefix stays below six |
| Transmit12.Sender.UsbSend | AVR/usbdrv/usbdrvasm12.inc:271-367 | for 1 to 85 bytes the countdown stuffer drives exactly the NRZI levels of the stuffed bits of sync byte and message, then two bit times of SE0; the other pins of the port are left alone |
| Transmit12.Sender.BitLoop | AVR/usbdrv/usbdrvasm12.inc:319-335 | adding 85 (`subi cnt, 171`) three times per byte sends bits 1 to 5 behind the pending bit 0 and decrements the byte count by one |
| Transmit12.Sender.ShiftThenOut | AVR/usbdrv/usbdrvasm12.inc:271-320 | one data bit, with the wait for a due stuff bit, extends the waveform as specified |
| TransmitHistory.Sender.UsbSend16 | AVR/usbdrv/usbdrvasm16.inc:235-325 | the history-byte stuffer emits the same waveform, whatever x2 held before; the other pins of the port are left alone |
| TransmitHistory.Sender.UsbSend165 | AVR/usbdrv/usbdrvasm165.inc:358-428 | the same with one bit counter carried across bytes in steps of 37; the other pins of the port are left alone |
| TransmitHistory.Sender.UsbSend20 | AVR/usbdrv/usbdrvasm20.inc:260-336 | the same for the 20 MHz loop; the other pins of the port are left alone |
| TransmitHistory.Sender.SendBit | AVR/usbdrv/usbdrvasm16.inc:285-299 | one bit: `x2 >= 0xfc` holds exactly after six ones, and then one stuff bit is inserted |
| Receive12.Receiver.Receive | AVR/usbdrv/usbdrvasm12.inc:96-249 | on every line, valid packet or not: the stored bytes are the unstuffed bits, at most 11; it ends at the first byte boundary with SE0 and its count is their number, or else overflows with 11 stored |
| Receive12.RingNext | AVR/usbdrv/usbdrvasm12.inc:175-243 | the ring of places in `shift` keeps the run of ones when the next bit is stored |
| Receive12.RingMask | AVR/usbdrv/usbdrvasm12.inc:185-236 | `andi` followed by a test for zero recognizes exactly six ones in a row, at bits 1 to 6 |
| Receive12.RingCompare | AVR/usbdrv/usbdrvasm12.inc:179-243 | the two comparisons at bits 6 and 7 recognize exactly six ones in a row |
| Receive16.Receiver.Receive | AVR/usbdrv/usbdrvasm16.inc:98-209 | shift-history receiver, on a trace of N bytes of J and K followed by anything: the bytes are stored as far as there is room, twelve overflow, a clean packet ends with its length; no sample of the trace is taken half a bit time off, and `leap` fits its byte |
| Receive16.Receiver.ReadByte | AVR/usbdrv/usbdrvasm16.inc:158-209 | one byte: bits, marks and repaired stuff bits; at the byte boundary three times the elapsed cycles minus 32 per bit time is what `leap` records |
| Receive16.Receiver.LeapCycle | AVR/usbdrv/usbdrvasm16.inc:158-165 | three times the cycles minus `leap` advances by the same 7 with and without the extra cycle; a slightly negative `leap` becomes nonnegative, and it never grows beyond 2 |
| Receive20.Receiver.Receive | AVR/usbdrv/usbdrvasm20.inc:124-226 | countdown receiver: the same bytes, bound and outcome on a trace followed by anything |
| RoundTrip.NoStuffing | AVR/usbdrv/usbdrvasm12.inc:100-113 | no stuff bit can fall into a byte that is a valid PID |
| RoundTrip.StartIsForgotten | AVR/usbdrv/usbdrvasm16.inc:102-121 | engines that start with different run lengths decode every bit alike and are in the same state from the second byte on, if the first byte is a valid PID |
| RoundTrip.DecodersAgree | AVR/usbdrv/usbdrvasm20.inc:109-226 | so on any line they find the same bytes and the same byte boundaries |
| RoundTrip.ReceiveByAll | AVR/usbdrv/usbdrvasm12.inc:96-249 | the three receivers on one line that carries N whole bytes, the first a valid PID, and then anything: all receptions are right, in bytes, number and, on a clean packet, end |
| RoundTrip.GoodAgree | AVR/usbdrv/usbdrvasm16.inc:98-209 | two right receptions agree on every byte of the trace that fits the buffer |
| RoundTrip.NoEndInside | AVR/usbdrv/usbdrvasm12.inc:188-192 | the 12 MHz receiver does not take the inside of a trace for its end |
| RoundTrip.DecodedAsSent | AVR/usbdrv/usbdrvasm12.inc:96-249 | the decoder reads back bit for bit what was stuffed and NRZI-coded |
| RoundTrip.Delivered | AVR/usbdrv/usbdrvasm12.inc:96-364 | a sent packet of any length arrives as a clean packet with the same bytes; the receiver ends where the transmitter did |
| RoundTrip.DeliveredToCounting | AVR/usbdrv/usbdrvasm20.inc:109-134 | the same for the engine that counts the last bit of sync, even without a valid PID |
| RoundTrip.EndIsFound | AVR/usbdrv/asmcommon.inc:54-61 | on a clean packet the 12 MHz receiver sees its end at the last byte and nowhere earlier |
| RoundTrip.Exchange | AVR/usbdrv/usbdrvasm165.inc:358-428 | all four transmitters into all three receivers: any packet of up to 11 bytes with a valid PID is stored unchanged, and every receiver ends at SE0 with its exact length |
| Crc16.MirrorsTheSpecification | AVR/usbdrv/usbdrvasm.S:232-258 | the register that shifts to the right is the mirror image of the polynomial division of section 8.3.5.2 of USB 2.0 |
| Crc16.AppendedIsTheCheckField | AVR/usbdrv/usbdrvasm.S:264-268 | the two appended bytes are, on the wire, the inverted remainder of the message |
| Crc16.UsbCrc16 | AVR/usbdrv/usbdrvasm.S:232-258 | small version: for every message the complemented registers, started at 0 with the carry always set, end with the CRC; the byte loop runs len times |
| Crc16.BitLoop | AVR/usbdrv/usbdrvasm.S:245-253 | `subi bitCnt, 224` borrows seven times out of eight; the loop runs eight times and takes in one byte |
| Crc16.UsbCrc16Append | AVR/usbdrv/usbdrvasm.S:264-268 | writes the check bytes behind the message and changes nothing else |
| CrcFast.UsbCrc16 | AVR/usbdrv/usbdrvasm.S:177-216 | fast version: the same result for every message |
| CrcFast.TableIsParity | AVR/usbdrv/usbdrvasm.S:147-156 | the parity formula equals the table entry defined by eight shifts, for every byte |
| CrcFast.ByteStep | AVR/usbdrv/usbdrvasm.S:163-164 | one table step has the effect of eight bit steps |
| CrcFast.ParityOf | AVR/usbdrv/usbdrvasm.S:186-195 | swap, exclusive-or, increment and shift compute the parity of the index |
| CrcReceive.TablesAreRight | AVR/usbdrv/usbdrvasm18-crc.inc:637-705 | all 512 table bytes are the register after eight zero bits |
| CrcReceive.Seed | AVR/usbdrv/usbdrvasm18-crc.inc:50-53 | 0xFE54 is one table step behind 0xFFFF |
| CrcReceive.ReceiveAndCheck | AVR/usbdrv/usbdrvasm18-crc.inc:217-254 | table one byte late, then the cleanup: accepted exactly if the last two bytes are what usbCrc16Append writes behind the others |
| CrcReceive.ResidueMeansIntact | AVR/usbdrv/usbdrvasm18-crc.inc:98-110 | the register ends as 0xB001 if and only if the payload is intact |
| CrcDetection.BurstIsDetected | AVR/usbdrv/usbdrvasm18-crc.inc:98-110 | damage within sixteen consecutive bits of data and CRC is never accepted, for any length |
| CrcDetection.BurstDiffers | AVR/usbdrv/usbdrvasm.S:245-253 | registers that saw different bits in a window of sixteen stay different however the message goes on |
| CrcDetection.OddDamageIsDetected | AVR/usbdrv/usbdrvasm18-crc.inc:98-110 | damage to an odd number of bits is never accepted, wherever it is |
| CrcTwoBits.PeriodsAre | AVR/usbdrv/usbdrvasm.S:245-253 | the register comes back after 32767 zero bits and after no number of them that 32767 does not divide |
| CrcTwoBits.TwoBits | AVR/usbdrv/usbdrvasm18-crc.inc:98-110 | the exact condition: of two damaged bits, anywhere in data and CRC, nothing is noticed if and only if their distance is a multiple of 32767 |
| CrcTwoBits.UpToThreeBits | AVR/usbdrv/Readme.txt:84-90 | one, two or three damaged bits are always noticed in up to 4095 bytes of data and CRC (section 8.3.5 of USB 2.0 asks for one and two) |
| CrcTwoBits.DifferenceOf | AVR/usbdrv/usbdrvasm.S:232-258 | whether two messages have the same CRC depends only on where they differ, not on the messages |
| ControlTransfer.PacketsAt | AVR/usbdrv/usbdrv.c:525-547 | an answer of n bytes becomes n/8 full packets and one shorter one; packet k carries the bytes from 8k on and the PIDs alternate |
| ControlTransfer.CollectPackets | AVR/usbdrv/usbdrv.c:525-547 | a host that reads up to the first short packet gets the whole answer back |
| ControlTransfer.ShortIsLast | AVR/usbdrv/usbdrv.c:537-541 | a packet is full exactly if another one follows |
| ControlTransfer.DescriptorAsAsked | AVR/usbdrv/usbdrv.c:309-353 | given well-formed descriptors, GET_DESCRIPTOR is answered with one of the type asked for, the string with the number asked for, cut to wLength; there are no others |
| ControlTransfer.FixedAnswers | AVR/usbdrv/usbdrv.c:360-413 | the bytes of the answers to GET_STATUS, GET_CONFIGURATION and GET_INTERFACE, and none to any other request that is standard or not (section 9.4 of USB 2.0) |
| ControlTransfer.TypeBits | AVR/usbdrv/usbdrv.c:445-446 | a request counts as standard exactly if bits 5 and 6 of bmRequestType are 0 |
| Endpoint.Conservation | AVR/usbdrv/usbdrv.c:438-471 | between two requests, packets sent and packets still owed together are the answer: none lost, repeated or reordered |
| Endpoint.OneAnswer | AVR/usbdrv/usbdrv.c:438-471 | until the next request takes effect only a prefix of this one's answer is sent |
| Endpoint.WholeAnswer | AVR/usbdrv/usbdrv.c:537-541 | once the last packet sent is not full, all of the answer has been sent and nothing is owed |
| Endpoint.EverySentPacket | AVR/usbdrv/usbdrv.c:525-547 | in any history since power-up, a DATA packet is the next one of the answer to the SETUP processed last, whole with PID, payload and CRC |
| Endpoint.SentNeedsRequest | AVR/usbdrv/usbdrv.c:525-547 | no DATA packet is ever sent before a SETUP has been processed |
| Endpoint.PacketSizes | AVR/usbdrv/usbdrv.c:525-547 | every DATA packet of every history has PID, CRC and at most eight bytes |
| Endpoint.WaitingIsSilent | AVR/usbdrv/asmcommon.inc:129-146 | from the acknowledge of a data packet until it is processed nothing is sent, so nothing of an earlier transfer after a SETUP |
| Endpoint.AddressAfterData | AVR/usbdrv/usbdrvasm12.inc:366-377 | the address changes only when a DATA packet has gone out |
| Endpoint.AddressSwitch | AVR/usbdrv/usbdrv.c:388-390 | after SET_ADDRESS at most the empty status packet is sent, under the old address, and the new one counts from then on (section 9.4.6 of USB 2.0) |
| Endpoint.AddressNeedsData | AVR/usbdrv/usbdrvasm12.inc:366-377 | whatever requests take effect, without a reset the address changes only with a DATA packet |
| Endpoint.ConfigurationIsReported | AVR/usbdrv/usbdrv.c:395-400 | what SET_CONFIGURATION has set, GET_CONFIGURATION reports, whatever happens in between but another SET_CONFIGURATION |
| Endpoint.HarmlessIsOneTransfer | AVR/usbdrv/usbdrv.c:438-471 | accepted data that is not a whole SETUP leaves the current transfer alone |
| BusTraffic.UnaskedStep | AVR/usbdrv/asmcommon.inc:66-95 | a bus without SETUP transactions from a point on stays one at the next point, with the token that the packets in between leave behind |
| BusTraffic.QuietIsUnasked | AVR/usbdrv/asmcommon.inc:54-64 | where no data packets are, there is no SETUP transaction, whatever tokens there are |
| BusTraffic.OrderlyIsUnasked | AVR/usbdrv/asmcommon.inc:66-95 | neither is there one where OUT transactions go on, of any device: no SETUP token, and every full data packet right behind a token of its own |
| Interrupt.ReadyIsSent | AVR/usbdrv/asmcommon.inc:129-146 | an IN token for the device gets the packet that is ready, the next one does not, and the new address counts |
| Interrupt.TransactionIsAccepted | AVR/usbdrv/asmcommon.inc:66-127 | a SETUP or OUT transaction into a free buffer is acknowledged and accepted with its token and payload, whatever was before |
| Interrupt.WaitingIsKept | AVR/usbdrv/asmcommon.inc:104-127 | until a waiting packet is released, no packets whatsoever lead to an event or change its half of the buffer |
| Interrupt.WaitingIsRefused | AVR/usbdrv/asmcommon.inc:104-135 | and IN tokens and data packets for the device are answered with NAK |
| Interrupt.ForeignIsIgnored | AVR/usbdrv/asmcommon.inc:66-72 | a token for another device and the data packet behind it have no effect and no answer |
| Interrupt.FirstHeard | AVR/usbdrv/asmcommon.inc:54-151 | the events of a sequence of packets are those of the first and then those of the others in the state it leaves |
| Device.Driver.Dispatch | AVR/usbdrv/asmcommon.inc:54-151 | the code from se0 on computes the function of which the Interrupt lemmas speak: the new variables, the event and the answer |
| Device.Driver.OnPacket | AVR/usbdrv/asmcommon.inc:54-151 | every packet from the bus: who is answered with what, what is recorded, and that a full receive buffer and the transmit side of the main loop stay undisturbed |
| Device.Driver.OnOverflow | AVR/usbdrv/asmcommon.inc:42-47 | a packet of more than 11 bytes leaves its first 11 in its half of the buffer, changes no other byte of it, clears usbCurrentTok and has no other effect |
| Device.Driver.HandleData | AVR/usbdrv/asmcommon.inc:104-127 | a data packet is accepted, buffers swapped, only into a free buffer; otherwise NAK, or ACK without effect if shorter than 4 |
| Device.Driver.HandleIn | AVR/usbdrv/asmcommon.inc:129-146 | DATA goes out only if nothing waits and a length is set; then usbTxLen is NAK and the address is assigned |
| Device.Driver.HandleToken | AVR/usbdrv/asmcommon.inc:66-95 | tokens for another address and handshakes are ignored and clear usbCurrentTok |
| Device.Driver.Bus | AVR/usbdrv/usbdrv.c:568-606 | the packets of a point are dealt with one after another, exactly as that function says; of this the main loop notices only what it can cope with: the half of usbRxBuf being read is not written, no more is accepted than data packets arrived, no request without a SETUP transaction, and the address is never reset |
| Device.Driver.UsbDeviceRead | AVR/usbdrv/usbdrv.c:491-518 | the next bytes behind usbMsgPtr arrive in the buffer, even when they come from the spare end of that buffer, whatever interrupts |
| Device.Driver.UsbBuildTxBlock | AVR/usbdrv/usbdrv.c:525-547 | the packet published with usbTxLen is whole and is the next one owed, and the rest remains owed |
| Device.Driver.UsbDriverDescriptor | AVR/usbdrv/usbdrv.c:309-353 | pointer and length denote the requested descriptor, or nothing |
| Device.Driver.UsbDriverSetup | AVR/usbdrv/usbdrv.c:360-413 | pointer and length denote the full answer to the request; address and configuration are taken over from theirs only |
| Device.Driver.LimitReply | AVR/usbdrv/usbdrv.c:464-471 | the byte-wise comparison cuts the answer to wLength |
| Device.Driver.UsbProcessRx | AVR/usbdrv/usbdrv.c:421-484 | after a SETUP the abort of the old answer and the start of the new one are complete before the packet is released |
| Device.Driver.UsbPoll | AVR/usbdrv/usbdrv.c:568-606 | keeps the invariant between all variables and the abstract endpoint under every interleaving; a waiting packet is processed first; if packets are owed at the end, one is ready or one was sent during the call; it looks once for a long SE0, and exactly if there is one both addresses are cleared |
| Device.Driver.MainLoop | AVR/usbdrv/usbdrv.c:568-606 | every run of the main loop, with any packets at any point, produces a legal history; usbInputBufOffset is 0 or 11, usbRxLen 0 or 4 to 11, usbTxLen NAK or 4 to 12; usbDeviceAddr changes only if a DATA packet was sent or a long SE0 was seen; there is one look per round and one reset for each long SE0 seen |
| Device.Driver.CheckReset | AVR/usbdrv/usbdrv.c:594-602 | a long SE0 makes both addresses 0, whatever arrives in between; otherwise nothing changes |
| Host.ControlIn | AVR/usbdrv/usbdrv.c:525-606 | whatever arrives during usbPoll: as long as no other request takes effect only packets of the answer of min(n, w) bytes are sent, and after more than n/8 rounds that are not busy all of them, the host has collected exactly the answer, and the device is idle (section 8.5.3 of USB 2.0); no other request takes effect if the bus brings no other SETUP transaction and no long SE0, and there are no more busy rounds than data packets on the bus |
| Host.QuietIsCalm | AVR/usbdrv/usbdrv.c:568-606 | on a bus without data packets and without a long SE0 both conditions hold, and no round is busy |
| Host.Serve | AVR/usbdrv/usbdrv.c:568-606 | every round of one usbPoll and one IN token, with anything in between, gets a packet further until all are sent; a round can fail to only for a data packet that was on the bus |
| Host.OneMoreRound | AVR/usbdrv/asmcommon.inc:129-146 | the count of sent packets grows with every such round |
| Link.SentWellFormed | AVR/usbdrv/usbdrv.c:525-547 | in every history since power-up, each DATA packet has a valid PID, DATA0 or DATA1, and ends in the check bytes of what is between |
| Link.DamageIsNoticed | AVR/usbdrv/Readme.txt:84-90 | a host that checks the CRC accepts no such packet with one to three damaged bits behind the PID, nor with any damage within sixteen bits in a row |
| Link.Carry | AVR/usbdrv/asmcommon.inc:129-146 | such a packet arrives unchanged, with its length, from each transmitter at each receiver, and passes the CRC check of the 18 MHz receiver |
| Link.ControlInOnTheWire | AVR/usbdrv/usbdrv.c:525-606 | a control transfer down to the levels of the bus: from what any pairing of transmitter and receiver stored, the host collects the answer, under the conditions of Host.ControlIn on packets and line |
| DescriptorString.UsbGetDescriptorString | AVR/somethingswrong_controller.c:13-49 | for any received bytes and any buffer: errors are passed on, other descriptors give length 0, else the Latin-1 text as far as received, claimed and fitting, with a final 0 |
| DescriptorString.Decodes | AVR/somethingswrong_controller.c:29-49 | from a whole string descriptor come exactly its characters, cut only by the caller's buffer |
| DescriptorString.PartDecodes | AVR/somethingswrong_controller.c:24-49 | when less or more arrives than the descriptor claims, the shorter length counts, and the characters there are are right |
| DescriptorString.NameSurvives | AVR/somethingswrong_controller.c:40-46 | the C string equals the descriptor's text if and only if that is nonzero Latin-1 |
| DescriptorString.CStringStops | AVR/somethingswrong_controller.c:46-48 | a reader that stops at 0 sees all characters exactly if none of them is 0 |
| DescriptorString.NothingIsCut | AVR/usbdrv/usbdrv.c:464-471 | a request for 256 bytes is answered in full although the low byte of wLength is 0 |
| DescriptorString.AskForString | AVR/somethingswrong_controller.c:20-24 | what the control transfer delivers, never more than 256 bytes, is the whole descriptor, under the conditions of Host.ControlIn on packets and line |
| DescriptorString.ReadName | AVR/somethingswrong_controller.c:13-49 | the whole way from program memory over a shared bus: without another SETUP transaction or a long SE0, and with rounds enough for its packets and the data packets of others, the length, and the text if and only if nonzero Latin-1, for names of up to 126 characters |
| TransferRing.Roll | AVR/libusb/examples/benchmark.c:206 | INC_ROLL computes the remainder of the next number |
| TransferRing.TransferParam.SubmitNext | AVR/libusb/examples/benchmark.c:425-486 | only a free handle with a context is submitted; any failure leaves the ring as it was |
| TransferRing.TransferParam.ReapOldest | AVR/libusb/examples/benchmark.c:491-511 | the k-th successful reap completes the k-th successful submit |
| TransferRing.TransferParam.TransferAsync | AVR/libusb/examples/benchmark.c:417-515 | in every state the handles in use are the cyclic window; it succeeds if and only if none of its libusb calls fails, and then returns the one handle just reaped |
| TransferRing.TransferParam.Cleanup | AVR/libusb/examples/benchmark.c:655-671 | nothing is left in use or allocated, and every transfer was reaped or cancelled, none both |
| TransferRing.TransferParam.TransferThreadProc | AVR/libusb/examples/benchmark.c:517-675 | the same for a whole run with any results of libusb; TransferAsync is called until the run is stopped, each success is one transfer reaped, all of them if no call fails; transfers use the slots in cyclic order |
| TransferRing.TransferParam.SeparateBuffers | AVR/libusb/examples/benchmark.c:436-437 | in every state, handles that are set up have disjoint parts of the buffer, all inside it |
| VerifyPattern.CreateVerifyBuffer | AVR/libusb/examples/benchmark.c:822-842 | the pattern is 0 and then 1 to 255 over and over, for any packet size |
| VerifyPattern.PatternRepeats | AVR/libusb/examples/benchmark.c:836-841 | behind the first byte the pattern is never 0 and repeats after 255 bytes |
| VerifyPattern.Fill | AVR/libusb/examples/benchmark.c:952-978 | the buffers hold the packet stream from number 0 on, and nothing else is written |
| VerifyPattern.VerifyData | AVR/libusb/examples/benchmark.c:327-394 | the messages for any data are those of the comparison of neighbouring packets, and the pattern is left intact but for the key |
| VerifyPattern.ReportedExactly | AVR/libusb/examples/benchmark.c:338-392 | a packet is reported if and only if a byte other than the key is wrong, or the packet before was good and the key is neither 0 nor the next one |
| VerifyPattern.StreamPasses | AVR/libusb/examples/benchmark.c:822-842 | no packet of the stream is reported across any wrap-around, and checking goes on as if it had begun there |
| VerifyPattern.PiecePasses | AVR/libusb/examples/benchmark.c:952-978 | any piece of the stream from a packet boundary passes, also if cut short |
| VerifyPattern.SliceOfStream | AVR/libusb/examples/benchmark.c:952-978 | any part of the filled buffers from a packet boundary on is such a piece |
| VerifyPattern.LoopTest | AVR/libusb/examples/benchmark.c:952-978 | nothing is reported of what the loop test has written, read back from any packet boundary up to any byte |
| VerifyPattern.LossIsReported | AVR/libusb/examples/benchmark.c:346-356 | one call of VerifyData: a gap is reported, at the first packet behind it, if and only if there is a packet on either side and the key behind it is neither 0 nor by wrap-around the expected one; otherwise nothing at all is reported |
| VerifyPattern.VerifyTransfers | AVR/libusb/examples/benchmark.c:619-623 | the messages of a run of transfers are those of a call of VerifyData for each, which begins without an expected key (line 333) |
| VerifyPattern.TransfersPass | AVR/libusb/examples/benchmark.c:619-623 | a stream without a gap is never reported, in transfers of any number of packets |
| VerifyPattern.LossInTransfers | AVR/libusb/examples/benchmark.c:333-356 | the exact condition for a whole run: lost packets are reported if and only if the gap is inside a transfer, not in front of the first packet or at the end, and the key behind it is neither 0 nor the expected one |
| AlarmLight.FlashLight.Start | SomethingsWrong/Hardware/FlashLightAction.cs:25-40 | whenever the lock is free the lamp is lit exactly if running, with exactly one live timer; a running alarm keeps its stop time, a new one gets a stop time exactly the duration away from some moment of the call |
| AlarmLight.FlashLight.Stop | SomethingsWrong/Hardware/FlashLightAction.cs:60-77 | lamp off and no timer left, whatever the timers do meanwhile |
| AlarmLight.FlashLight.StopAlarmAtGivenTime | SomethingsWrong/Hardware/FlashLightAction.cs:42-58 | a timer goes for the lock exactly from its stop time on; with the lock it puts the lamp out and ends; without it nothing shared changes |
| AlarmLight.FlashLight.OtherThreads | SomethingsWrong/Hardware/FlashLightAction.cs:42-58 | any interleaving of timer steps keeps the invariant, lights nothing, and puts the lamp out only after its stop time; every step scheduled is taken |
| AlarmLight.FlashLight.LetRun | SomethingsWrong/Hardware/FlashLightAction.cs:42-58 | a lamp whose time has come is out as soon as its timer has taken two steps |
| AlarmLight.WrongnessDetector.StartAlerts | SomethingsWrong.Lib/WrongnessDetector.cs:103-109 | with a light action configured the alarm lasts the duration or to its earlier stop time, and is due to go out no later than the duration after the call, with timers running between the alerts; without one nothing is lit |
| AlarmLight.WrongnessDetector.StopRunningAlerts | SomethingsWrong.Lib/WrongnessDetector.cs:111-120 | with a light action configured the lamp is off afterwards, although IsRunning is shared and checked outside the lock |
| AlarmLight.WrongnessDetector.PerformMonitorAction | SomethingsWrong.Lib/WrongnessDetector.cs:40-101 | a monitor passes if GetStatus does, or fails to reach the network and need not; alerts start at the first failure in a row and at no other; the timers run on meanwhile; a new alarm lasts its time and is due to go out no later than that after the call, a running one keeps its stop time |
| AlarmLight.WrongnessDetector.CheckAll | SomethingsWrong.Lib/WrongnessDetector.cs:21-38 | with timers running all the while: marks are what the monitors reported, alerts started for the newly failing ones in order, and the lamp is off if all passed, network errors of monitors that skip them included; otherwise a running alarm is not cut short, and the one for the first newly failing monitor lasts its duration, or as long as one already running |
| StandupAlarm.TimeCheckAction.GetStatus | SomethingsWrong.Lib/TimeCheckAction.cs:18-35 | fails exactly if the hour has passed and the clock is in the window, and then sets the next hour |
| StandupAlarm.AnHourApart | SomethingsWrong.Lib/TimeCheckAction.cs:31-44 | any two failing polls are at least an hour apart |
| StandupAlarm.OnceADay | SomethingsWrong.Lib/TimeCheckAction.cs:18-35 | polls less than a minute apart around the window give exactly one failing poll that day, and alerts start with it |
| StandupAlarm.OneAlarmIffWhole | SomethingsWrong.Lib/TimeCheckAction.cs:27-29 | that holds for all such polls if and only if the window does not cross midnight |
| StandupAlarm.Missed | SomethingsWrong.Lib/TimeCheckAction.cs:27-29 | otherwise two polls less than a minute apart miss the alarm |
| StandupAlarm.Watch | SomethingsWrong.Lib/WrongnessDetector.cs:82-100 | the detector starts alerts at exactly the polls that begin a row of failures |
| StandupAlarm.WatchAlone | SomethingsWrong.Lib/WrongnessDetector.cs:21-38 | with no other monitor the lamp is lit from the poll that starts alerts, due to go out after the duration; every poll that passes puts it out, which the next one within the hour always does, whatever the duration |

## Left out

- Receive16.Receiver.Receive: of what follows the last whole byte of a trace, only a clean end is treated exactly; the 12 MHz engine is exact on every line.
- Receive20.Receiver.Receive: the same, and the run length after the sync pattern is given by its register contents.
- Transmit12.Sender.UsbSend: at most 85 bytes, because the byte counter is multiplied by three in eight bits; the driver asks for 2 to 12.
- Link.ControlInOnTheWire: the DATA packets of the device go over the wire; tokens and handshakes of the host, and its SETUP data, are delivered as bytes.
- Host.ControlIn: the SETUP and the IN token of each round come between calls of usbPoll, all other packets at any point; every further data packet on the bus may cost a round.
- Device.Driver.UsbBuildTxBlock: `usbCrc16Append` is one step for the interrupt, and the STALL branch behind `len <= 8` is not modelled because no read returns more.
- AlarmLight.FlashLight.Start: the controller program is assumed to succeed, and a thread is removed at once when it is aborted.
- VerifyPattern.LossInTransfers: full transfers of as many packets each (benchmark.c:909 refuses other buffer sizes); a transfer that ends early is covered by VerifyPattern.LossIsReported only.
- VerifyPattern.VerifyData: the detailed messages per byte are not modelled, and a packet size of 1 is excluded (the source writes the key behind its buffer then).
- TransferRing.TransferParam.TransferThreadProc: the retry counters are an arbitrary reason to stop.
- StandupAlarm.OnceADay: the three clock readings of one poll may differ, by less than a minute.
- Cycle timing other than the `leap` relation, the search for the sync edge, the phase correction at 16.5 MHz, and the 12.8 MHz and 15 MHz files.
- The receivers for 16.5 and 18 MHz as far as bit sampling goes; the CRC of the 18 MHz receiver is modelled on its bytes.
- Lost acknowledges and retries: the driver assumes error-free transactions (AVR/usbdrv/usbdrv.h:42-49).
- Options that usbconfig.h switches off: interrupt endpoints, HALT, flow control, user read and write, long transfers; usbFunctionSetup only switches a pin and returns 0.
- usbMsgPtr is a value that names program memory, the spare bytes of usbTxBuf or usbConfiguration, not an address; aliasing with usbTxBuf is modelled.
- The serial number and the language descriptor are treated as any other constant descriptor.
- Port registers, pull-ups, watchdog, usbInit and the main programs; device enumeration, argument parsing and statistics of the benchmark.
- HTTP and TeamCity checks, the holiday calendar, playing sounds.
