# tmledkey-hal-drv, modelled in Dafny

This project models the core of `tmledkey-hal-drv`, a driver for the
Titanmec TM1637 and TM1638 LED and key-scan chips. The model has four parts:

- **The bit-banged bus protocol** (`src/lib.rs`). This covers byte send and
  read, acknowledge polling and the 2-wire acknowledge phases. It also covers
  2-wire start/stop framing, 3-wire strobe framing, and the frame-level send
  and key-read operations, with their error codes and error priority.
- **Seven-segment buffers and integer formatting** (`src/utils.rs`).
- **The spinner and slide animations** (`src/fx.rs`).
- **The demo sequencer** (`src/demo.rs`) that combines them.

## Pins

The DIO, CLK and STB pin handles and the delay closure are replaced by one
scripted bus model (`wire.dfy`). The bus model logs every drive, every DIO sample and
every delay in order. DIO samples return scripted levels, and read high once
the script is used up, as the pull-up does on an undriven line. A pin
operation fails when its log index is in a fault set. The driver's
`map_err` turns that failure into the caller's `TmError`.

## Structure

Every bus operation exists twice:

- a pure reference function over the bus model state (`protocol.dfy`);
- an imperative method over the bus model object (`driver.dfy`), with the same
  loops as the source. It is proved to leave exactly the state, and return
  exactly the result, of its function.

The properties of the protocol are lemmas about the functions
(`protocol_proofs.dfy`). `utils.dfy`, `fx.dfy` and `demo.dfy` model the
buffers, animations and demo as classes whose methods update their fields.
Each method is proved against a specification function, and lemmas about
those functions state periodicity, termination and frame shape.

## Model

| member | source | states |
|---|---|---|
| Wire.Pins.SetLine | src/lib.rs:93-110 | a pin drive logs the drive, or logs a failure and returns the caller's error when a fault is injected |
| Wire.Pins.IsHigh | src/lib.rs:127-138 | a DIO sample logs and consumes the next scripted level (high past the script), or fails with the caller's error |
| Wire.Pins.Delay | src/lib.rs:81-111 | a delay only logs its duration |
| Protocol.SendFrom | src/lib.rs:93-110 | the remaining clock cycles of a byte send never change the injected faults |
| Protocol.ReadFrom | src/lib.rs:127-138 | the remaining clock cycles of a byte read never change the injected faults |
| Protocol.PollFrom | src/lib.rs:154-161 | the remaining acknowledge polls never change the injected faults |
| Protocol.SendLoop2 | src/lib.rs:315-325 | the 2-wire byte loop never changes the injected faults |
| Protocol.SendLoop3 | src/lib.rs:404-413 | the 3-wire byte loop never changes the injected faults |
| Protocol.ReadLoop3 | src/lib.rs:465-475 | the 3-wire read loop keeps the faults and a four-byte response |
| Driver.TmBusSend | src/lib.rs:81-111 | `tm_bus_send` leaves the pins and returns the result of `Protocol.SendByte` |
| Driver.TmBusRead | src/lib.rs:116-139 | `tm_bus_read` leaves the pins and returns the result of `Protocol.ReadByte` |
| Driver.TmBusDioWaitAck | src/lib.rs:143-162 | `tm_bus_dio_wait_ack` leaves the pins and returns the result of `Protocol.WaitAck` |
| Driver.TmBus2WireStart | src/lib.rs:167-182 | the 2-wire start equals `Protocol.Start` |
| Driver.TmBus2WireStop | src/lib.rs:186-207 | the 2-wire stop equals `Protocol.Stop` |
| Driver.TmBus2WireAck | src/lib.rs:212-251 | `tm_bus_2wire_ack`, phase by phase, equals `Protocol.Ack2` |
| Driver.TmBus2WireSendByteAck | src/lib.rs:255-271 | the byte send with acknowledge equals `Protocol.SendByteAck` |
| Driver.TmBus2WireReadByteAck | src/lib.rs:275-290 | the byte read with acknowledge equals `Protocol.ReadByteAck` |
| Driver.TmSendBytes2Wire | src/lib.rs:303-333 | the 2-wire frame send, with its `send` and `iter` loop, equals `Protocol.SendFrame2` |
| Driver.TmReadByte2Wire | src/lib.rs:343-369 | the 2-wire key read equals `Protocol.ReadKey2` |
| Driver.TmSendBytes3Wire | src/lib.rs:386-419 | the 3-wire frame send equals `Protocol.SendFrame3` |
| Driver.Release3Wire | src/lib.rs:415-417 | driving STB, CLK and DIO high in that order, stopping at the first failure, equals `Protocol.Release3` |
| Driver.TmReadBytes3Wire | src/lib.rs:432-486 | the 3-wire key read, filling `response` and `read_err` in place, equals `Protocol.ReadKeys3` |
| ProtocolProofs.SendByteAborts | src/lib.rs:93-110 | a byte send either logs its whole trace, or stops at the first failed drive with that pin's error (`Clk` or `Dio`); fault-free pins always succeed; DIO is never sampled |
| ProtocolProofs.SendTraceLsbFirst | src/lib.rs:93-110 | exactly 8 clock cycles; cycle i pulls CLK low, sets DIO to bit i (LSB first), then raises CLK |
| ProtocolProofs.SendFromFollowsTrace | src/lib.rs:93-110 | the send loop from bit i follows the trace of bits i..7 |
| ProtocolProofs.BitsDetermineByte | src/lib.rs:93-110 | a byte is determined by its eight bits, so the bits on the wire identify the byte sent |
| ProtocolProofs.ReadByteMsbFirst | src/lib.rs:127-138 | on fault-free pins a read consumes 8 samples; bit 7-j of the result is set exactly when sample j was high |
| ProtocolProofs.ReadByteRoundTrip | src/lib.rs:116-139 | if the chip puts b on DIO MSB first, the read returns b and leaves the rest of the script |
| ProtocolProofs.ReadFromErrors | src/lib.rs:127-138 | a byte read fails only with `Clk` or `Dio` |
| ProtocolProofs.PollsFirst | src/lib.rs:154-161 | the index of the poll that ends the wait is the first sample with the expected level, or 5 |
| ProtocolProofs.WaitAckExact | src/lib.rs:143-162 | the wait succeeds iff one of the first 5 samples has the expected level; it stops at the first such sample; otherwise `Ack(code)` after 5 samples and 5 waits; exact log and script |
| ProtocolProofs.WaitAckBounded | src/lib.rs:143-162 | for any pins: the error is `Dio` or `Ack(code)`, at most 10 events are logged, no pin is driven |
| ProtocolProofs.AckCodes | src/lib.rs:212-251 | the acknowledge fails only with a pin error or code+1, code+2, code+3, and code+3 only when the last check is asked for |
| ProtocolProofs.AckHandshake | src/lib.rs:225-250 | a chip that holds DIO low for the 8th falling and 9th rising edges and then releases it passes; exact trace |
| ProtocolProofs.AckNoResponse | src/lib.rs:225-232 | no chip, with DIO always high, fails with code+1 |
| ProtocolProofs.AckEarlyRelease | src/lib.rs:226-238 | DIO low at the eighth falling edge but high from the ninth rising edge on: code+2 |
| ProtocolProofs.AckHeldLow | src/lib.rs:240-250 | DIO held low: code+3 when the release is checked, success when it is not |
| ProtocolProofs.SendByteAckHappy | src/lib.rs:255-271 | a chip that acknowledges at once: the byte trace, then the acknowledge trace, then Ok |
| ProtocolProofs.SendByteAckHeldLow | src/lib.rs:269 | the release check is skipped exactly when `byte & 0x42 == 0x42`: with DIO held low the result is Ok iff so, else code+3 |
| ProtocolProofs.SendByteAckCodes | src/lib.rs:255-271 | the error codes of a byte with acknowledge |
| ProtocolProofs.ReadByteAckRoundTrip | src/lib.rs:275-290 | a chip that sends b MSB first and acknowledges: the result is b |
| ProtocolProofs.ReadByteAckErrors | src/lib.rs:287-289 | Ok iff the read and the acknowledge both succeed; an acknowledge error overrides a read error; codes are pin errors or code+1..code+3 |
| ProtocolProofs.StartFaultFree | src/lib.rs:167-182 | a start on fault-free pins raises CLK, pulls DIO low and waits |
| ProtocolProofs.StopReleases | src/lib.rs:186-207 | a fault-free stop always leaves CLK and DIO last driven high; it fails only with code 255 |
| ProtocolProofs.StopReleased | src/lib.rs:186-207 | a stop with DIO released succeeds with its exact trace |
| ProtocolProofs.StopCodes | src/lib.rs:186-207 | a stop fails only with `Clk`, `Dio` or code 255 |
| ProtocolProofs.SendLoop2Codes | src/lib.rs:315-325 | a failing loop fails at one byte j: bytes before j went through, the final state is the one right after byte j, so no later byte is sent; an acknowledge code is 10(j+1)+p with p in 1..3, naming that byte |
| ProtocolProofs.SendFrame2Codes | src/lib.rs:303-333 | a 2-wire frame fails only with a pin error, `Input`, code 255, or 10n+p for byte n and phase p; any acknowledge code other than 255 names the byte the send loop failed at |
| ProtocolProofs.AckSilent | src/lib.rs:226-238 | with nobody driving DIO the acknowledge logs the eighth falling edge and five high samples and fails at the first check with code+1 |
| ProtocolProofs.SendByteAckSilent | src/lib.rs:255-271 | a byte nobody acknowledges: the byte trace, the eighth falling edge and five high samples, then code+1 |
| ProtocolProofs.SendFrame2Silent | src/lib.rs:303-333 | a chip that acknowledges bytes 0..m-1 and then falls silent: the exact log is start, those bytes, byte m, the failed check, stop; the result is code 10(m+1)+1; no later byte is sent and the bus ends idle |
| ProtocolProofs.SendFrame2Empty | src/lib.rs:317-332 | an empty frame yields `Input`, after the start and with the stop still run |
| ProtocolProofs.SendFrame2Idle | src/lib.rs:303-333 | on fault-free pins the frame always ends with the bus released, even when a byte is not acknowledged |
| ProtocolProofs.SendFrame2Priority | src/lib.rs:315-332 | once the start succeeded the stop always runs; the frame succeeds iff the bytes and the stop do; a byte error wins over a stop error |
| ProtocolProofs.SendFrame2Happy | src/lib.rs:303-333 | a chip that acknowledges every byte: start, each byte with its acknowledge, stop, Ok |
| ProtocolProofs.ReadKey2Codes | src/lib.rs:343-369 | a key read fails only with a pin error or codes 231, 232, 241-243 or 255, and never 233 |
| ProtocolProofs.ReadKey2Priority | src/lib.rs:354-368 | a failed command byte (its release check skipped) is returned at once, with no stop; after an acknowledged command the stop always runs; a key-byte error wins; a stop error is reported only when the key byte was read |
| ProtocolProofs.ReadKey2RoundTrip | src/lib.rs:343-369 | a chip that acknowledges, sends the key MSB first and acknowledges again: the result is the key, and the bus is idle |
| ProtocolProofs.ReadKey2NoChip | src/lib.rs:354-356 | with no chip the command fails with 231 and returns without the stop, leaving CLK low |
| ProtocolProofs.Release3Outcome | src/lib.rs:414-417 | the 3-wire release fails with `Stb` or logs STB, CLK and DIO high, in that order; it always succeeds on fault-free pins |
| ProtocolProofs.SendFrame3Priority | src/lib.rs:400-418 | a failed STB drive is returned at once; otherwise the release always runs, a failed release gives `Stb` in place of the send result, a successful one returns the send result, and an empty slice gives `Input` |
| ProtocolProofs.SendLoop3Stops | src/lib.rs:404-413 | a failing 3-wire send loop logs the full traces of the bytes before the failing one, part of that byte cut short by the failed drive, and nothing of later bytes |
| ProtocolProofs.SendFrame3Release | src/lib.rs:386-419 | a failed strobe or release is reported as `Stb` and replaces the send result; any other outcome ends with the release; no acknowledge codes |
| ProtocolProofs.SendFrame3FaultFree | src/lib.rs:386-419 | on fault-free pins: STB low, each byte LSB first without acknowledge, release; `Input` iff there are no bytes |
| ProtocolProofs.ReadKeys3BadCount | src/lib.rs:449-451 | a count of 0 or above 4 yields `Input` before any delay or pin operation |
| ProtocolProofs.ReadLoop3Keeps | src/lib.rs:465-475 | the read loop changes only the entries it reads and fails only with `Clk` or `Dio` |
| ProtocolProofs.ReadKeys3Shape | src/lib.rs:432-486 | Ok only for counts 1..4, with four bytes and zeros past the count; errors are `Stb`, `Clk`, `Dio` or `Input`; a read error is reported only after a successful release |
| ProtocolProofs.ReadKeys3Priority | src/lib.rs:453-485 | for counts 1..4: a failed STB drive, or a failed DIO release after the command, returns `Stb` at once with no release; otherwise the release always runs and its failure gives `Stb`; after a good release a failed command byte or the first failed read is returned; `Ok` holds the filled response and only when every read succeeded |
| ProtocolProofs.ReadKeys3RoundTrip | src/lib.rs:432-486 | a chip that sends 1..4 keys MSB first: the response is the keys followed by zeros, and the lines are released |
| Utils.DecimalDigitsValue | src/utils.rs:138-152 | the decimal digits of n, most significant first, have value n |
| Utils.DecimalDigitsLength | src/utils.rs:138-152 | a number below 10^k has at most k digits |
| Utils.DigitOfDigits | src/lib.rs:607-609 | the `DIGITS` patterns are distinct from each other and from `CHAR_MINUS` |
| Utils.DigitsOfSegments | src/lib.rs:607-609 | a sequence of digit patterns decodes back to its digits |
| Utils.IntSegmentsRoundTrip | src/utils.rs:138-152 | the output parses back to the value; its length is 1..11; it starts with `CHAR_MINUS` iff the value is negative |
| Utils.IntConvertResult.View | src/utils.rs:89-94 | the view is the bytes from the offset to the end of the 11-byte array |
| Utils.IntConvertResult.Len | src/utils.rs:75-82 | the length is that of the view, at most 11 |
| Utils.IntConvertResult.IsEmpty | src/utils.rs:84-86 | empty iff the view is empty |
| Utils.IntConvertResult.Last | src/utils.rs:32-34 | the last byte of the array, which is the last of a non-empty view |
| Utils.IntConvertResult.constructor | src/utils.rs:25-30 | a new buffer is empty and all zero |
| Utils.IntConvertResult.SetLast | src/utils.rs:36-38 | overwrites the last array byte, and so the last byte of a non-empty view |
| Utils.IntConvertResult.AddFirst | src/utils.rs:40-47 | the view becomes `[b] + old view`; a full buffer is unchanged |
| Utils.IntConvertResult.AddLast | src/utils.rs:49-60 | the view becomes `old view + [b]`, with the earlier bytes shifted left in order; a full buffer is unchanged |
| Utils.IntConvertResult.RemoveLast | src/utils.rs:62-73 | the view loses its last byte, shifted right in order; an empty buffer is unchanged |
| Utils.IntToBytes | src/utils.rs:138-152 | the view is `CHAR_MINUS` for a negative value, then the `DIGITS` of the decimal digits of the absolute value, MSB first; 0 gives `[DIGITS[0]]` |
| Utils.DoubleConvertResult.View | src/utils.rs:129-134 | the view is the bytes from the offset to the end of the 22-byte array |
| Utils.DoubleConvertResult.constructor | src/utils.rs:105-126 | the view is `head + tail` when they fit in 22 bytes, and empty otherwise |
| Utils.DoubleBytes | src/utils.rs:227-234 | the output has 2n bytes: input byte i at 2i and a zero at 2i+1; taking the even positions gives back the input |
| Fx.MaskOf | src/fx.rs:28-42 | segment s of the mask is set exactly when bit s of the initial pattern is |
| Fx.Spinner.constructor | src/fx.rs:28-42 | the mask is bits 0..5 of the initial pattern; the offset is 0 |
| Fx.Spinner.Next | src/fx.rs:46-62 | always a frame, the mask rotated by the offset; the offset moves on by one, modulo 6 |
| Fx.SpinFrameBits | src/fx.rs:49-59 | segment i of a frame is lit iff the mask entry rotated onto it is set; bits 6 and 7 are never set |
| Fx.SpinFrameCount | src/fx.rs:49-59 | a frame lights exactly as many segments as the mask: its bits are a rotation of the mask |
| Fx.SpinDirection | src/fx.rs:50-54 | the clockwise frame at offset k is the counter-clockwise frame at (6-k) mod 6 |
| Fx.SpinFirstFrame | src/fx.rs:28-62 | the first frame is the initial pattern `& 0x3F`, in either direction |
| Fx.SpinPeriod | src/fx.rs:60 | after n frames the offset is n mod 6, so frames repeat with period 6 |
| Fx.Slide.constructor | src/fx.rs:81-94 | a slide copies the word and starts at step 0 |
| Fx.Slide.Next | src/fx.rs:98-165 | `None` with the count unchanged when the slide stops, else the frame of the current step; the count moves on or, in a cycle, resets |
| Fx.PushWindow | src/fx.rs:140-147 | the word loop appends exactly the characters at positions `off_in .. off_in + len_in`, clipped to the word |
| Fx.PushZeros | src/fx.rs:107-112 | the blank loops append n zeros |
| Fx.SlideFrameLength | src/fx.rs:104-154 | a frame is at least `width` long, exactly `width` at step 0 or once count ≥ width, longer while the word enters, at most 2·width |
| Fx.SlideFrameFirst | src/fx.rs:104-154 | the first frame is all blanks |
| Fx.SlideFrameEntering | src/fx.rs:104-154 | while 0 < count < width: `width - count` blanks, then the first min(width, word length) characters |
| Fx.SlideFrameWindow | src/fx.rs:114-154 | once count ≥ width, position j shows character `off_in + j` while that is before the end of the word and before position `width`, and a blank otherwise |
| Fx.SlideStopsForever | src/fx.rs:99-138 | once `next` returns `None`, every later call does too |
| Fx.SlideStopAtFirstChar | src/fx.rs:120-125 | a `StopAtFirstChar` slide gives exactly width+1 frames |
| Fx.SlideStopAfterLastChar | src/fx.rs:133-138 | a `StopAfterLastChar` slide of a non-empty word gives exactly width + word length frames |
| Fx.SlideCyclePeriod | src/fx.rs:156-162 | a `Cycle` slide never stops and its count repeats with period width + word length |
| Fx.SlideCycleShort | src/fx.rs:156-162 | a `Cycle` slide of a word of at most one character returns to step 0 after every frame, never stops, and only ever shows blank frames |
| Demo.DemoNeverStops | src/demo.rs:25 | with at most 209 displays the demo slide always has a frame, so the unwrap never fails, and its count stays in range |
| Demo.DemoFrameLength | src/demo.rs:22-30 | a demo frame fills the displays exactly at step 0 and once the window is full; with at most 12 displays it fits a 2-wire frame |
| Demo.Demo.constructor | src/demo.rs:12-20 | a clockwise spinner over `(CHAR_0 & !SEG_1) & !SEG_4` and a cycling slide of `CHARS`, of width `displays - 1` (at least 1) |
| Demo.Demo.NextState | src/demo.rs:22-30 | the slide frame, then one spinner byte iff there is more than one display; the slide moves on once, the spinner only when shown |
| Demo.Demo.Next2Wire | src/demo.rs:32-50 | sends `[COM_ADDRESS] + next_state()` over the 2-wire bus; `iter` goes up by one whatever the result |
| Demo.Demo.Next3Wire | src/demo.rs:52-73 | sends `[COM_ADDRESS] + next_state()` over the 3-wire bus; `iter` goes up by one whatever the result |

## Left out

- Time and electrical behaviour are not modelled. Delays are log entries, and the `BUS_DELAY_US` tuning constants are not modelled.
- The `embedded_hal` pin traits are replaced by one scripted bus model. The pin objects' aliasing and their own error types are not modelled, and their failures are injected by log index.
- `float_to_bytes`, `float_to_bytes_ex` and `fractional_part_to_bytes` are not modelled. They rest on `f32` arithmetic.
- The feature gates on the 2-wire and 3-wire functions are ignored.
- The example programs are not part of this model. They only set up hardware and call the driver.
- Most `CHAR_*` constants are not modelled. Only the ones used by `DIGITS`, `CHARS`, the spinner and the demo are defined, and their values are copied as given.
- `src/demo.rs` names the slide type `Slider`, while `src/fx.rs` defines `Slide`. The model treats them as the same type.
- The slide test at `src/fx.rs:208` expects `[0, 0, 0, 0, CHAR_0]` at step 1. The code as written emits the four blanks followed by up to `width` characters of the word. The model follows the code (`Fx.SlideFrameEntering`).
- Counts, widths, offsets and iteration counters are `nat`. Their `u8` and `usize` ranges are kept as preconditions, which prevents overflow.
- Utils.IntToBytes: requires the value to be above `i32::MIN`. Negating `i32::MIN` overflows in the source.
- Driver.TmSendBytes2Wire: requires at most 24 bytes. The `u8` error base `iter` overflows after the 25th byte.
- Demo.Demo.Next2Wire: requires the address command plus the frame to fit in 24 bytes, because of the frame bound above. This always holds for at most 12 displays (`Demo.DemoFrameLength`).
- Demo.Demo.NextState: requires the slide count to be below 255, which is when `unwrap` succeeds. This always holds for at most 209 displays (`Demo.DemoNeverStops`). Above that the source panics once the count reaches 255.
- The bus results that `next_2wire` and `next_3wire` discard are not returned by the model either.
