/**
 * The driver functions of `lib.rs` as imperative code over the `Pins`
 * bus model. Each method drives the pins in the driver's order and is proved
 * to end in the state, and with the result, given by its reference
 * definition in `Protocol`.
 */
module Driver {
  import opened Wire
  import opened Common
  import opened Chars
  import opened Protocol

  method TmBusSend(pins: Pins, us: nat, b: bv8) returns (r: Result<()>)
    modifies pins
    ensures Step(pins.State(), r) == SendByte(old(pins.State()), us, b)
  {
    ghost var spec := SendByte(pins.State(), us, b);
    var byte := b;
    var i := 0;
    while i < 8
      invariant 0 <= i <= 8
      invariant byte == ShiftRight(b, i)
      invariant SendFrom(pins.State(), us, b, i) == spec
    {
      var high := byte & 1 != 0;
      assert high == Bit(b, i);
      r := SendOneBit(pins, us, high);
      if r.Err? { return; }
      ShiftStep(b, i);
      byte := byte >> 1;
      i := i + 1;
    }
    r := Ok(());
  }

  /** Shifting right once more is shifting by one more place. */
  lemma ShiftStep(b: bv8, i: nat)
    requires i < 8
    ensures ShiftRight(b, i) >> 1 == ShiftRight(b, i + 1)
  {
    if i == 0 {
    } else if i == 1 {
    } else if i == 2 {
    } else if i == 3 {
    } else if i == 4 {
    } else if i == 5 {
    } else if i == 6 {
    } else {
    }
  }

  /** The body of the clock-cycle loop of `tm_bus_send`. */
  method SendOneBit(pins: Pins, us: nat, high: bool) returns (r: Result<()>)
    modifies pins
    ensures Step(pins.State(), r) == SendCycle(old(pins.State()), us, high)
  {
    r := pins.SetLine(ClkLine, false, Clk);
    if r.Err? { return; }
    pins.Delay(us);
    if high {
      r := pins.SetLine(DioLine, true, Dio);
    } else {
      r := pins.SetLine(DioLine, false, Dio);
    }
    if r.Err? { return; }
    pins.Delay(us);
    r := pins.SetLine(ClkLine, true, Clk);
    if r.Err? { return; }
    pins.Delay(us);
    r := Ok(());
  }

  method TmBusRead(pins: Pins, us: nat) returns (r: Result<bv8>)
    modifies pins
    ensures Step(pins.State(), r) == ReadByte(old(pins.State()), us)
  {
    ghost var spec := ReadByte(pins.State(), us);
    var byte: bv8 := 0;
    var i := 0;
    while i < 8
      invariant 0 <= i <= 8
      invariant ReadFrom(pins.State(), us, byte, i) == spec
    {
      var c := pins.SetLine(ClkLine, false, Clk);
      if c.Err? { return Err(c.error); }
      pins.Delay(us);
      c := pins.SetLine(ClkLine, true, Clk);
      if c.Err? { return Err(c.error); }
      var level := pins.IsHigh(Dio);
      if level.Err? { return Err(level.error); }
      if level.value {
        byte := byte | ShiftRight(0x80, i);
      }
      pins.Delay(us);
      i := i + 1;
    }
    r := Ok(byte);
  }

  method TmBusDioWaitAck(pins: Pins, us: nat, expectHigh: bool, code: nat) returns (r: Result<()>)
    modifies pins
    ensures Step(pins.State(), r) == WaitAck(old(pins.State()), us, expectHigh, code)
  {
    ghost var spec := WaitAck(pins.State(), us, expectHigh, code);
    var k := 0;
    while k < 5
      invariant 0 <= k <= 5
      invariant PollFrom(pins.State(), us, expectHigh, code, k) == spec
    {
      var level := pins.IsHigh(Dio);
      if level.Err? { return Err(level.error); }
      if expectHigh == level.value { return Ok(()); }
      pins.Delay(us);
      k := k + 1;
    }
    r := Err(Ack(code));
  }

  method TmBus2WireStart(pins: Pins, us: nat) returns (r: Result<()>)
    modifies pins
    ensures Step(pins.State(), r) == Start(old(pins.State()), us)
  {
    r := pins.SetLine(ClkLine, true, Clk);
    if r.Err? { return; }
    r := pins.SetLine(DioLine, false, Dio);
    if r.Err? { return; }
    pins.Delay(us);
    r := Ok(());
  }

  method TmBus2WireStop(pins: Pins, us: nat) returns (r: Result<()>)
    modifies pins
    ensures Step(pins.State(), r) == Stop(old(pins.State()), us)
  {
    r := pins.SetLine(DioLine, false, Dio);
    if r.Err? { return; }
    pins.Delay(us);
    r := pins.SetLine(ClkLine, true, Clk);
    if r.Err? { return; }
    pins.Delay(us);
    r := pins.SetLine(DioLine, true, Dio);
    if r.Err? { return; }
    r := TmBusDioWaitAck(pins, us, true, 255);
    if r.Err? { return; }
    pins.Delay(us);
    r := Ok(());
  }

  method TmBus2WireAck(pins: Pins, us: nat, code: nat, verifyLast: bool) returns (r: Result<()>)
    modifies pins
    ensures Step(pins.State(), r) == Ack2(old(pins.State()), us, code, verifyLast)
  {
    r := AckFallingEdge8(pins, us, code);
    if r.Err? { return; }
    r := AckRisingEdge9(pins, us, code);
    if r.Err? { return; }
    r := AckFallingEdge9(pins, us, code, verifyLast);
  }

  /** `tm_bus_2wire_ack`, 8th cycle falling edge: DIO must be pulled down. */
  method AckFallingEdge8(pins: Pins, us: nat, code: nat) returns (r: Result<()>)
    modifies pins
    ensures Step(pins.State(), r) == AckFall8(old(pins.State()), us, code)
  {
    r := pins.SetLine(DioLine, true, Dio);
    if r.Err? { return; }
    r := pins.SetLine(ClkLine, false, Clk);
    if r.Err? { return; }
    pins.Delay(us);
    r := TmBusDioWaitAck(pins, us, false, code + 1);
  }

  /** `tm_bus_2wire_ack`, 9th cycle rising edge: DIO must still be low. */
  method AckRisingEdge9(pins: Pins, us: nat, code: nat) returns (r: Result<()>)
    modifies pins
    ensures Step(pins.State(), r) == AckRise9(old(pins.State()), us, code)
  {
    r := pins.SetLine(ClkLine, true, Clk);
    if r.Err? { return; }
    pins.Delay(us);
    r := TmBusDioWaitAck(pins, us, false, code + 2);
  }

  /** `tm_bus_2wire_ack`, 9th cycle falling edge: DIO must be released, when checked. */
  method AckFallingEdge9(pins: Pins, us: nat, code: nat, verifyLast: bool) returns (r: Result<()>)
    modifies pins
    ensures Step(pins.State(), r) == AckFall9(old(pins.State()), us, code, verifyLast)
  {
    r := pins.SetLine(ClkLine, false, Clk);
    if r.Err? { return; }
    pins.Delay(us);
    if verifyLast {
      r := TmBusDioWaitAck(pins, us, true, code + 3);
      if r.Err? { return; }
    }
    r := Ok(());
  }

  method TmBus2WireSendByteAck(pins: Pins, us: nat, b: bv8, code: nat) returns (r: Result<()>)
    modifies pins
    ensures Step(pins.State(), r) == SendByteAck(old(pins.State()), us, b, code)
  {
    r := TmBusSend(pins, us, b);
    if r.Err? { return; }
    var verifyLast := b & COM_DATA_READ != COM_DATA_READ;
    r := TmBus2WireAck(pins, us, code, verifyLast);
  }

  method TmBus2WireReadByteAck(pins: Pins, us: nat, code: nat) returns (r: Result<bv8>)
    modifies pins
    ensures Step(pins.State(), r) == ReadByteAck(old(pins.State()), us, code)
  {
    var result := TmBusRead(pins, us);
    var a := TmBus2WireAck(pins, us, code, true);
    if a.Err? { return Err(a.error); }
    r := result;
  }

  /** What remains of the 2-wire send loop at byte k, with `send` the last result. */
  ghost function Rest2(w: Wire, us: nat, bytes: seq<bv8>, k: nat, send: Result<()>): Step<()>
    requires k <= |bytes|
  {
    if k < |bytes| then SendLoop2(w, us, bytes, k) else Step(w, send)
  }

  /** What remains of the 3-wire send loop at byte k, with `send` the last result. */
  ghost function Rest3(w: Wire, us: nat, bytes: seq<bv8>, k: nat, send: Result<()>): Step<()>
    requires k <= |bytes|
  {
    if k < |bytes| then SendLoop3(w, us, bytes, k) else Step(w, send)
  }

  method TmSendBytes2Wire(pins: Pins, us: nat, bytes: seq<bv8>) returns (r: Result<()>)
    requires |bytes| <= 24
    modifies pins
    ensures Step(pins.State(), r) == SendFrame2(old(pins.State()), us, bytes)
  {
    r := TmBus2WireStart(pins, us);
    if r.Err? { return; }
    ghost var spec := SendBody2(pins.State(), us, bytes);
    var send: Result<()> := Err(Input);
    var iter: nat := 10;
    var k := 0;
    while k < |bytes|
      invariant 0 <= k <= |bytes| && iter == 10 * (k + 1)
      invariant spec == Rest2(pins.State(), us, bytes, k, send)
    {
      send := TmBus2WireSendByteAck(pins, us, bytes[k], iter);
      if send.Err? { break; }
      iter := iter + 10;
      k := k + 1;
    }
    assert spec == Step(pins.State(), send);
    var stop := TmBus2WireStop(pins, us);
    r := if send.Err? then send else stop;
  }

  method TmReadByte2Wire(pins: Pins, us: nat) returns (r: Result<bv8>)
    modifies pins
    ensures Step(pins.State(), r) == ReadKey2(old(pins.State()), us)
  {
    var st := TmBus2WireStart(pins, us);
    if st.Err? { return Err(st.error); }
    var cmd := TmBus2WireSendByteAck(pins, us, COM_DATA_READ, 230);
    if cmd.Err? { return Err(cmd.error); }
    var read := TmBus2WireReadByteAck(pins, us, 240);
    var stop := TmBus2WireStop(pins, us);
    if stop.Err? {
      if read.Err? {
        return read;
      } else {
        return Err(stop.error);
      }
    }
    r := read;
  }

  method TmSendBytes3Wire(pins: Pins, us: nat, bytes: seq<bv8>) returns (r: Result<()>)
    modifies pins
    ensures Step(pins.State(), r) == SendFrame3(old(pins.State()), us, bytes)
  {
    pins.Delay(us);
    r := pins.SetLine(StbLine, false, Stb);
    if r.Err? { return; }
    pins.Delay(us);
    ghost var spec := SendBody3(pins.State(), us, bytes);
    var send: Result<()> := Err(Input);
    var k := 0;
    while k < |bytes|
      invariant 0 <= k <= |bytes|
      invariant spec == Rest3(pins.State(), us, bytes, k, send)
    {
      send := TmBusSend(pins, us, bytes[k]);
      if send.Err? { break; }
      k := k + 1;
    }
    assert spec == Step(pins.State(), send);
    pins.Delay(us);
    r := Release3Wire(pins);
    if r.Err? { return; }
    r := send;
  }

  /** The end of a 3-wire transfer: STB, CLK and DIO driven high, each failure reported as `Stb`. */
  method Release3Wire(pins: Pins) returns (r: Result<()>)
    modifies pins
    ensures Step(pins.State(), r) == Release3(old(pins.State()))
  {
    r := pins.SetLine(StbLine, true, Stb);
    if r.Err? { return; }
    r := pins.SetLine(ClkLine, true, Stb);
    if r.Err? { return; }
    r := pins.SetLine(DioLine, true, Stb);
  }

  method TmReadBytes3Wire(pins: Pins, us: nat, count: nat) returns (r: Result<seq<bv8>>)
    modifies pins
    ensures Step(pins.State(), r) == ReadKeys3(old(pins.State()), us, count)
  {
    var readErr: Option<TmError> := None;
    var response := new bv8[4](_ => 0);
    if count <= 0 || count > response.Length {
      return Err(Input);
    }
    pins.Delay(us);
    var lo := pins.SetLine(StbLine, false, Stb);
    if lo.Err? { return Err(lo.error); }
    pins.Delay(us);
    var resInit := TmBusSend(pins, us, COM_DATA_READ);
    var hi := pins.SetLine(DioLine, true, Stb);
    if hi.Err? { return Err(hi.error); }
    ghost var spec: Fill;
    assert response[..] == [0, 0, 0, 0];
    if resInit.Err? {
      readErr := Some(resInit.error);
      spec := Fill(pins.State(), [0, 0, 0, 0], readErr);
    } else {
      pins.Delay(us);
      spec := ReadLoop3(pins.State(), us, [0, 0, 0, 0], 0, count);
      readErr := ReadResponse(pins, us, response, count);
    }
    assert spec == Fill(pins.State(), response[..], readErr);
    var rel := Release3Wire(pins);
    if rel.Err? { return Err(rel.error); }
    if readErr.Some? {
      return Err(readErr.value);
    }
    r := Ok(response[..]);
  }

  /** The read loop of `tm_read_bytes_3wire`: fills `response[0..count)`, stopping at the first failed read. */
  method ReadResponse(pins: Pins, us: nat, response: array<bv8>, count: nat) returns (readErr: Option<TmError>)
    requires response.Length == 4 && count <= 4
    modifies pins, response
    ensures Fill(pins.State(), response[..], readErr) == ReadLoop3(old(pins.State()), us, old(response[..]), 0, count)
  {
    ghost var spec := ReadLoop3(pins.State(), us, response[..], 0, count);
    readErr := None;
    var i := 0;
    while i < count
      invariant 0 <= i <= count
      invariant ReadLoop3(pins.State(), us, response[..], i, count) == spec
    {
      var b := TmBusRead(pins, us);
      if b.Err? {
        readErr := Some(b.error);
        break;
      }
      ghost var before := response[..];
      response[i] := b.value;
      assert response[..] == before[i := b.value];
      i := i + 1;
    }
  }
}
