/**
 * The bit-banged bus protocol of the TM1637 (2-wire: CLK, DIO) and TM1638
 * (3-wire: CLK, DIO, STB) chips, as the driver's `lib.rs` implements it.
 *
 * Each operation appears twice: a function over the bus model state `Wire`
 * that gives its meaning (the reference definition the lemmas in
 * `ProtocolProofs` are about), and a method over the `Pins` object that
 * drives the pins step by step as the driver does, proved to end in the
 * state and with the result the function gives. `?` in the driver becomes
 * an early return of the failed step.
 */
module Protocol {
  import opened Wire
  import opened Common
  import opened Chars

  /**
   * `b >> i` for a shift amount up to 8, written out by cases so that every
   * shift is by a constant.
   */
  function ShiftRight(b: bv8, i: nat): bv8
    requires i <= 8
  {
    match i
    case 0 => b
    case 1 => b >> 1
    case 2 => b >> 2
    case 3 => b >> 3
    case 4 => b >> 4
    case 5 => b >> 5
    case 6 => b >> 6
    case 7 => b >> 7
    case _ => 0
  }

  /** Bit i of b (bit 0 is the least significant). */
  function Bit(b: bv8, i: nat): bool
    requires i < 8
  {
    ShiftRight(b, i) & 1 == 1
  }

  // ---------------------------------------------------------------------
  // Reference definitions

  /** One clock cycle of `tm_bus_send`: CLK low, DIO to the bit, CLK high. */
  function SendCycle(w: Wire, us: nat, high: bool): Step<()>
  {
    var a := Drive(w, ClkLine, false, Clk);
    if a.r.Err? then a else
    var b := Drive(Pause(a.w, us), DioLine, high, Dio);
    if b.r.Err? then b else
    var c := Drive(Pause(b.w, us), ClkLine, true, Clk);
    if c.r.Err? then c else
    Step(Pause(c.w, us), Ok(()))
  }

  /** Clock cycles i..7 of `tm_bus_send`. */
  function SendFrom(w: Wire, us: nat, b: bv8, i: nat): (s: Step<()>)
    requires i <= 8
    ensures s.w.faults == w.faults
    decreases 8 - i
  {
    if i == 8 then Step(w, Ok(())) else
    var s := SendCycle(w, us, Bit(b, i));
    if s.r.Err? then s else SendFrom(s.w, us, b, i + 1)
  }

  /** `tm_bus_send`: the eight bits of b, least significant first. */
  function SendByte(w: Wire, us: nat, b: bv8): Step<()>
  {
    SendFrom(w, us, b, 0)
  }

  /** Clock cycles i..7 of `tm_bus_read`, with the bits gathered so far in acc. */
  function ReadFrom(w: Wire, us: nat, acc: bv8, i: nat): (s: Step<bv8>)
    requires i <= 8
    ensures s.w.faults == w.faults
    decreases 8 - i
  {
    if i == 8 then Step(w, Ok(acc)) else
    var a := Drive(w, ClkLine, false, Clk);
    if a.r.Err? then Step(a.w, Err(a.r.error)) else
    var b := Drive(Pause(a.w, us), ClkLine, true, Clk);
    if b.r.Err? then Step(b.w, Err(b.r.error)) else
    var c := Sample(b.w, Dio);
    if c.r.Err? then Step(c.w, Err(c.r.error)) else
    var acc' := if c.r.value then acc | ShiftRight(0x80, i) else acc;
    ReadFrom(Pause(c.w, us), us, acc', i + 1)
  }

  /** `tm_bus_read`: eight DIO samples, most significant bit first. */
  function ReadByte(w: Wire, us: nat): Step<bv8>
  {
    ReadFrom(w, us, 0, 0)
  }

  /** Polls k..4 of `tm_bus_dio_wait_ack`. */
  function PollFrom(w: Wire, us: nat, expectHigh: bool, code: nat, k: nat): (s: Step<()>)
    requires k <= 5
    ensures s.w.faults == w.faults
    decreases 5 - k
  {
    if k == 5 then Step(w, Err(Ack(code))) else
    var s := Sample(w, Dio);
    if s.r.Err? then Step(s.w, Err(s.r.error))
    else if s.r.value == expectHigh then Step(s.w, Ok(()))
    else PollFrom(Pause(s.w, us), us, expectHigh, code, k + 1)
  }

  /** `tm_bus_dio_wait_ack`: up to five samples of DIO, waiting for `expectHigh`. */
  function WaitAck(w: Wire, us: nat, expectHigh: bool, code: nat): Step<()>
  {
    PollFrom(w, us, expectHigh, code, 0)
  }

  /** `tm_bus_2wire_start`: DIO falls while CLK is high. */
  function Start(w: Wire, us: nat): Step<()>
  {
    var a := Drive(w, ClkLine, true, Clk);
    if a.r.Err? then a else
    var b := Drive(a.w, DioLine, false, Dio);
    if b.r.Err? then b else
    Step(Pause(b.w, us), Ok(()))
  }

  /** `tm_bus_2wire_stop`: DIO rises while CLK is high, then DIO must read high. */
  function Stop(w: Wire, us: nat): Step<()>
  {
    var a := Drive(w, DioLine, false, Dio);
    if a.r.Err? then a else
    var b := Drive(Pause(a.w, us), ClkLine, true, Clk);
    if b.r.Err? then b else
    var c := Drive(Pause(b.w, us), DioLine, true, Dio);
    if c.r.Err? then c else
    var d := WaitAck(c.w, us, true, 255);
    if d.r.Err? then d else
    Step(Pause(d.w, us), Ok(()))
  }

  /** The eighth falling clock edge of `tm_bus_2wire_ack`: DIO released, then it must read low. */
  function AckFall8(w: Wire, us: nat, code: nat): Step<()>
  {
    var a := Drive(w, DioLine, true, Dio);
    if a.r.Err? then a else
    var b := Drive(a.w, ClkLine, false, Clk);
    if b.r.Err? then b else
    WaitAck(Pause(b.w, us), us, false, code + 1)
  }

  /** The ninth rising clock edge of `tm_bus_2wire_ack`: DIO must still read low. */
  function AckRise9(w: Wire, us: nat, code: nat): Step<()>
  {
    var d := Drive(w, ClkLine, true, Clk);
    if d.r.Err? then d else
    WaitAck(Pause(d.w, us), us, false, code + 2)
  }

  /** The ninth falling clock edge of `tm_bus_2wire_ack`: DIO must read high again, if checked. */
  function AckFall9(w: Wire, us: nat, code: nat, verifyLast: bool): Step<()>
  {
    var f := Drive(w, ClkLine, false, Clk);
    if f.r.Err? then f else
    var g := Pause(f.w, us);
    if verifyLast then WaitAck(g, us, true, code + 3) else Step(g, Ok(()))
  }

  /** `tm_bus_2wire_ack`: the ninth clock cycle and its three acknowledge checks. */
  function Ack2(w: Wire, us: nat, code: nat, verifyLast: bool): Step<()>
  {
    var p := AckFall8(w, us, code);
    if p.r.Err? then p else
    var q := AckRise9(p.w, us, code);
    if q.r.Err? then q else
    AckFall9(q.w, us, code, verifyLast)
  }

  /** Whether the acknowledge of byte b checks that DIO is released: not after a key-scan read command. */
  function VerifyLast(b: bv8): bool
  {
    b & COM_DATA_READ != COM_DATA_READ
  }

  /** `tm_bus_2wire_send_byte_ack`. */
  function SendByteAck(w: Wire, us: nat, b: bv8, code: nat): Step<()>
  {
    var s := SendByte(w, us, b);
    if s.r.Err? then s else Ack2(s.w, us, code, VerifyLast(b))
  }

  /** `tm_bus_2wire_read_byte_ack`: the acknowledge runs even after a failed read, and its error wins. */
  function ReadByteAck(w: Wire, us: nat, code: nat): Step<bv8>
  {
    var rd := ReadByte(w, us);
    var a := Ack2(rd.w, us, code, true);
    if a.r.Err? then Step(a.w, Err(a.r.error)) else Step(a.w, rd.r)
  }

  /** Bytes k.. of a 2-wire frame; byte k (0-based) uses error base 10 * (k + 1). */
  function SendLoop2(w: Wire, us: nat, bytes: seq<bv8>, k: nat): (s: Step<()>)
    requires k < |bytes|
    ensures s.w.faults == w.faults
    decreases |bytes| - k
  {
    var s := SendByteAck(w, us, bytes[k], 10 * (k + 1));
    if s.r.Err? || k + 1 == |bytes| then s else SendLoop2(s.w, us, bytes, k + 1)
  }

  /** The send loop of `tm_send_bytes_2wire`, from the state after start. */
  function SendBody2(w: Wire, us: nat, bytes: seq<bv8>): Step<()>
  {
    if |bytes| == 0 then Step(w, Err(Input)) else SendLoop2(w, us, bytes, 0)
  }

  /** `tm_send_bytes_2wire`: start, every byte with its acknowledge, stop. */
  function SendFrame2(w: Wire, us: nat, bytes: seq<bv8>): Step<()>
    requires |bytes| <= 24
  {
    var st := Start(w, us);
    if st.r.Err? then st else
    var send := SendBody2(st.w, us, bytes);
    var stop := Stop(send.w, us);
    Step(stop.w, if send.r.Err? then send.r else stop.r)
  }

  /** `tm_read_byte_2wire`: start, key-scan command, one key byte, stop. */
  function ReadKey2(w: Wire, us: nat): Step<bv8>
  {
    var st := Start(w, us);
    if st.r.Err? then Step(st.w, Err(st.r.error)) else
    var cmd := SendByteAck(st.w, us, COM_DATA_READ, 230);
    if cmd.r.Err? then Step(cmd.w, Err(cmd.r.error)) else
    ReadKeyTail2(cmd.w, us)
  }

  /** The end of `tm_read_byte_2wire`: the key byte, then the stop, whose error counts only when the key was read. */
  function ReadKeyTail2(w: Wire, us: nat): Step<bv8>
  {
    var rd := ReadByteAck(w, us, 240);
    var stop := Stop(rd.w, us);
    if stop.r.Err? then
      (if rd.r.Err? then Step(stop.w, rd.r) else Step(stop.w, Err(stop.r.error)))
    else Step(stop.w, rd.r)
  }

  /** Bytes k.. of a 3-wire frame, without acknowledge. */
  function SendLoop3(w: Wire, us: nat, bytes: seq<bv8>, k: nat): (s: Step<()>)
    requires k < |bytes|
    ensures s.w.faults == w.faults
    decreases |bytes| - k
  {
    var s := SendByte(w, us, bytes[k]);
    if s.r.Err? || k + 1 == |bytes| then s else SendLoop3(s.w, us, bytes, k + 1)
  }

  /** The send loop of `tm_send_bytes_3wire`. */
  function SendBody3(w: Wire, us: nat, bytes: seq<bv8>): Step<()>
  {
    if |bytes| == 0 then Step(w, Err(Input)) else SendLoop3(w, us, bytes, 0)
  }

  /** The 3-wire release: STB, CLK, DIO high, every failure reported as `Stb`. */
  function Release3(w: Wire): Step<()>
  {
    var a := Drive(w, StbLine, true, Stb);
    if a.r.Err? then a else
    var b := Drive(a.w, ClkLine, true, Stb);
    if b.r.Err? then b else
    Drive(b.w, DioLine, true, Stb)
  }

  /** `tm_send_bytes_3wire`: STB low, the bytes, then the release. */
  function SendFrame3(w: Wire, us: nat, bytes: seq<bv8>): Step<()>
  {
    var lo := Drive(Pause(w, us), StbLine, false, Stb);
    if lo.r.Err? then lo else
    var send := SendBody3(Pause(lo.w, us), us, bytes);
    var rel := Release3(Pause(send.w, us));
    if rel.r.Err? then rel else Step(rel.w, send.r)
  }

  /** The state of the read loop of `tm_read_bytes_3wire`: bus model, response array, pending error. */
  datatype Fill = Fill(w: Wire, resp: seq<bv8>, err: Option<TmError>)

  /** Reads i..count-1 of `tm_read_bytes_3wire`, stopping at the first failed read. */
  function ReadLoop3(w: Wire, us: nat, resp: seq<bv8>, i: nat, count: nat): (f: Fill)
    requires |resp| == 4 && i <= count <= 4
    ensures f.w.faults == w.faults && |f.resp| == 4
    decreases count - i
  {
    if i == count then Fill(w, resp, None) else
    var rd := ReadByte(w, us);
    if rd.r.Err? then Fill(rd.w, resp, Some(rd.r.error))
    else ReadLoop3(rd.w, us, resp[i := rd.r.value], i + 1, count)
  }

  /** `tm_read_bytes_3wire`: key-scan command, then `count` bytes into a 4-byte response. */
  function ReadKeys3(w: Wire, us: nat, count: nat): Step<seq<bv8>>
  {
    if count == 0 || count > 4 then Step(w, Err(Input)) else
    var lo := Drive(Pause(w, us), StbLine, false, Stb);
    if lo.r.Err? then Step(lo.w, Err(lo.r.error)) else
    var init := SendByte(Pause(lo.w, us), us, COM_DATA_READ);
    var hi := Drive(init.w, DioLine, true, Stb);
    if hi.r.Err? then Step(hi.w, Err(hi.r.error)) else
    var f :=
      if init.r.Err? then Fill(hi.w, [0, 0, 0, 0], Some(init.r.error))
      else ReadLoop3(Pause(hi.w, us), us, [0, 0, 0, 0], 0, count);
    var rel := Release3(f.w);
    if rel.r.Err? then Step(rel.w, Err(rel.r.error))
    else if f.err.Some? then Step(rel.w, Err(f.err.value))
    else Step(rel.w, Ok(f.resp))
  }
}
