/**
 * Properties of the bus protocol, proved about the reference definitions
 * in `Protocol` (and so, through their contracts, about the `Driver`
 * methods).
 */
module ProtocolProofs {
  import opened Wire
  import opened Common
  import opened Chars
  import opened Protocol

  // ---------------------------------------------------------------------
  // Event traces

  /** The events of one clock cycle of a byte send that does not fail. */
  function CycleTrace(us: nat, high: bool): seq<Event>
  {
    [Set(ClkLine, false), Wait(us), Set(DioLine, high), Wait(us), Set(ClkLine, true), Wait(us)]
  }

  function TraceFrom(us: nat, b: bv8, i: nat): seq<Event>
    requires i <= 8
    decreases 8 - i
  {
    if i == 8 then [] else CycleTrace(us, Bit(b, i)) + TraceFrom(us, b, i + 1)
  }

  /** The 48 events of a byte send that does not fail. */
  function SendTrace(us: nat, b: bv8): seq<Event>
  {
    TraceFrom(us, b, 0)
  }

  /** The error a failed drive of `line` is reported as, in a byte transfer. */
  function PinError(line: Line): TmError
  {
    match line
    case ClkLine => Clk
    case DioLine => Dio
    case StbLine => Stb
  }

  /**
   * `after` is `before` extended by a prefix of the drive-and-delay sequence
   * `trace`, cut short by a failed drive: the events of `trace` up to some
   * drive, then that drive's `Failed` entry, and nothing more.
   */
  ghost predicate AbortedIn(before: seq<Event>, after: seq<Event>, trace: seq<Event>)
  {
    && |before| < |after| <= |before| + |trace|
    && var n := |after| - |before| - 1;
       && trace[n].Set?
       && after == before + trace[..n] + [Failed(trace[n].line)]
  }

  /**
   * Step s, taken from w, ran the drive-and-delay sequence `trace`: on
   * success it logged exactly `trace`; on failure it logged a prefix of
   * `trace` cut short by a failed drive at an injected fault, reported as
   * that drive's pin error. It sampled nothing.
   */
  ghost predicate FollowsTrace<T>(w: Wire, s: Step<T>, trace: seq<Event>)
  {
    && s.w.input == w.input && s.w.faults == w.faults
    && (s.r.Ok? ==> s.w.log == w.log + trace)
    && (s.r.Err? ==>
          && AbortedIn(w.log, s.w.log, trace)
          && |s.w.log| - 1 in w.faults
          && s.r.error == PinError(s.w.log[|s.w.log| - 1].line))
  }

  lemma FollowsTracePrefix(w: Wire, s: Step<()>, t1: seq<Event>, t2: seq<Event>)
    requires FollowsTrace(w, s, t1) && s.r.Err?
    ensures FollowsTrace(w, s, t1 + t2)
  {
    var n := |s.w.log| - |w.log| - 1;
    assert (t1 + t2)[..n] == t1[..n];
  }

  lemma FollowsTraceThen(w: Wire, c: Step<()>, s: Step<()>, t1: seq<Event>, t2: seq<Event>)
    requires FollowsTrace(w, c, t1) && c.r.Ok?
    requires FollowsTrace(c.w, s, t2)
    ensures FollowsTrace(w, s, t1 + t2)
  {
    if s.r.Err? {
      var n := |s.w.log| - |c.w.log| - 1;
      assert (t1 + t2)[..|t1| + n] == t1 + t2[..n];
      assert (t1 + t2)[|t1| + n] == t2[n];
    } else {
      assert s.w.log == w.log + (t1 + t2);
    }
  }

  lemma SendCycleFollowsTrace(w: Wire, us: nat, high: bool)
    ensures FollowsTrace(w, SendCycle(w, us, high), CycleTrace(us, high))
  {
    var t := CycleTrace(us, high);
    var s := SendCycle(w, us, high);
    if s.r.Err? {
      var n := |s.w.log| - |w.log| - 1;
      assert n == 0 || n == 2 || n == 4;
      assert t[..n] == if n == 0 then [] else if n == 2 then t[..2] else t[..4];
    }
  }

  lemma {:induction false} SendFromFollowsTrace(w: Wire, us: nat, b: bv8, i: nat)
    requires i <= 8
    ensures FollowsTrace(w, SendFrom(w, us, b, i), TraceFrom(us, b, i))
    decreases 8 - i
  {
    if i < 8 {
      var c := SendCycle(w, us, Bit(b, i));
      SendCycleFollowsTrace(w, us, Bit(b, i));
      if c.r.Err? {
        FollowsTracePrefix(w, c, CycleTrace(us, Bit(b, i)), TraceFrom(us, b, i + 1));
      } else {
        SendFromFollowsTrace(c.w, us, b, i + 1);
        FollowsTraceThen(w, c, SendFrom(c.w, us, b, i + 1), CycleTrace(us, Bit(b, i)), TraceFrom(us, b, i + 1));
      }
    } else {
      assert TraceFrom(us, b, i) == [];
    }
  }

  /**
   * `tm_bus_send` either completes the 48-event trace, or stops at the first
   * failed pin operation: the log then ends with that failure, it happened
   * where a fault was injected, and the error names its pin (`Clk` or `Dio`).
   * On fault-free pins it always succeeds. It never samples DIO.
   */
  lemma SendByteAborts(w: Wire, us: nat, b: bv8)
    ensures FollowsTrace(w, SendByte(w, us, b), SendTrace(us, b))
    ensures SendByte(w, us, b).r.Err? ==> SendByte(w, us, b).r.error in {Clk, Dio}
    ensures w.faults == {} ==> SendByte(w, us, b).r.Ok?
  {
    SendFromFollowsTrace(w, us, b, 0);
    var s := SendByte(w, us, b);
    if s.r.Err? {
      var n := |s.w.log| - |w.log| - 1;
      SendTraceLines(us, b, n);
    }
  }

  /** Every drive in a send trace is of CLK or DIO. */
  lemma SendTraceLines(us: nat, b: bv8, n: nat)
    requires n < |SendTrace(us, b)|
    ensures SendTrace(us, b)[n].Set? ==> SendTrace(us, b)[n].line != StbLine
  {
    TraceFromLines(us, b, 0, n);
  }

  lemma {:induction false} TraceFromLines(us: nat, b: bv8, i: nat, n: nat)
    requires i <= 8
    ensures |TraceFrom(us, b, i)| == 6 * (8 - i)
    ensures n < |TraceFrom(us, b, i)| && TraceFrom(us, b, i)[n].Set? ==> TraceFrom(us, b, i)[n].line != StbLine
    decreases 8 - i
  {
    if i < 8 {
      var c := CycleTrace(us, Bit(b, i));
      var t := TraceFrom(us, b, i + 1);
      assert TraceFrom(us, b, i) == c + t;
      TraceFromLines(us, b, i + 1, if n >= 6 then n - 6 else 0);
      if n < 6 {
        assert (c + t)[n] == c[n];
      } else if n < |TraceFrom(us, b, i)| {
        assert (c + t)[n] == t[n - 6];
      }
    }
  }

  /**
   * `tm_bus_send` makes exactly eight clock cycles; in cycle i it pulls CLK
   * low, sets DIO to bit i of the byte (least significant bit first), then
   * raises CLK, with a delay after each step.
   */
  lemma SendTraceLsbFirst(us: nat, b: bv8, i: nat)
    requires i < 8
    ensures |SendTrace(us, b)| == 48
    ensures SendTrace(us, b)[6 * i .. 6 * i + 6] == CycleTrace(us, Bit(b, i))
  {
    TraceFromLines(us, b, 0, 0);
    CycleAt(us, b, 0, i);
  }

  lemma {:induction false} CycleAt(us: nat, b: bv8, i: nat, k: nat)
    requires i <= k < 8
    ensures |TraceFrom(us, b, i)| >= 6 * (k - i) + 6
    ensures TraceFrom(us, b, i)[6 * (k - i) .. 6 * (k - i) + 6] == CycleTrace(us, Bit(b, k))
    decreases k - i
  {
    TraceFromLines(us, b, i, 0);
    var c := CycleTrace(us, Bit(b, i));
    var t := TraceFrom(us, b, i + 1);
    assert TraceFrom(us, b, i) == c + t;
    if i < k {
      CycleAt(us, b, i + 1, k);
      SliceAfter(c, t, 6 * (k - i));
    } else {
      assert (c + t)[0..6] == c;
    }
  }

  lemma SliceAfter(c: seq<Event>, t: seq<Event>, m: nat)
    requires |c| == 6 && 6 <= m && m + 6 <= |c| + |t|
    ensures (c + t)[m..m + 6] == t[m - 6..m]
  {
  }

  /** A byte is determined by its eight bits: what a receiver latches from DIO identifies the byte sent. */
  lemma BitsDetermineByte(b1: bv8, b2: bv8)
    requires forall i | 0 <= i < 8 :: Bit(b1, i) == Bit(b2, i)
    ensures b1 == b2
  {
    assert Bit(b1, 0) == Bit(b2, 0) && Bit(b1, 1) == Bit(b2, 1);
    assert Bit(b1, 2) == Bit(b2, 2) && Bit(b1, 3) == Bit(b2, 3);
    assert Bit(b1, 4) == Bit(b2, 4) && Bit(b1, 5) == Bit(b2, 5);
    assert Bit(b1, 6) == Bit(b2, 6) && Bit(b1, 7) == Bit(b2, 7);
  }

  // ---------------------------------------------------------------------
  // Reading a byte

  /** Bit 7 - j of b: the j-th bit of b counting from the most significant. */
  function MsbBit(b: bv8, j: nat): bool
    requires j < 8
  {
    Bit(b, 7 - j)
  }

  /** The DIO levels that spell b most significant bit first. */
  function MsbLevels(b: bv8): (levels: seq<bool>)
    ensures |levels| == 8
  {
    seq(8, j requires 0 <= j < 8 => MsbBit(b, j))
  }

  lemma MsbBitOfOr(acc: bv8, i: nat, j: nat)
    requires i < 8 && j < 8
    ensures MsbBit(acc | ShiftRight(0x80, i), j) == (MsbBit(acc, j) || i == j)
  {
  }

  lemma DropDrop(s: seq<bool>, i: nat)
    ensures Drop(Drop(s, i), 1) == Drop(s, i + 1)
  {
  }

  lemma {:induction false} ReadFromBits(w: Wire, us: nat, acc: bv8, i: nat, input0: seq<bool>)
    requires i <= 8 && w.faults == {} && w.input == Drop(input0, i)
    requires forall j | 0 <= j < 8 :: MsbBit(acc, j) == (j < i && Level(input0, j))
    ensures var s := ReadFrom(w, us, acc, i);
      && s.r.Ok? && s.w.faults == {} && s.w.input == Drop(input0, 8)
      && forall j | 0 <= j < 8 :: MsbBit(s.r.value, j) == Level(input0, j)
    decreases 8 - i
  {
    if i < 8 {
      var a := Drive(w, ClkLine, false, Clk);
      var b := Drive(Pause(a.w, us), ClkLine, true, Clk);
      var c := Sample(b.w, Dio);
      assert c.r.Ok? && c.r.value == Level(input0, i);
      var acc' := if c.r.value then acc | ShiftRight(0x80, i) else acc;
      forall j | 0 <= j < 8
        ensures MsbBit(acc', j) == (j < i + 1 && Level(input0, j))
      {
        MsbBitOfOr(acc, i, j);
      }
      DropDrop(input0, i);
      ReadFromBits(Pause(c.w, us), us, acc', i + 1, input0);
    }
  }

  /**
   * On fault-free pins `tm_bus_read` consumes eight DIO samples and sets
   * bit 7 - j of its result exactly when sample j read high: the byte is
   * read most significant bit first.
   */
  lemma ReadByteMsbFirst(w: Wire, us: nat)
    requires w.faults == {}
    ensures var s := ReadByte(w, us);
      && s.r.Ok? && s.w.input == Drop(w.input, 8)
      && forall j | 0 <= j < 8 :: MsbBit(s.r.value, j) == Level(w.input, j)
  {
    ReadFromBits(w, us, 0, 0, w.input);
  }

  /** If the chip puts b on DIO most significant bit first, `tm_bus_read` returns b. */
  lemma ReadByteRoundTrip(w: Wire, us: nat, b: bv8, rest: seq<bool>)
    requires w.faults == {} && w.input == MsbLevels(b) + rest
    ensures ReadByte(w, us) == Step(ReadByte(w, us).w, Ok(b))
    ensures ReadByte(w, us).w.input == rest
  {
    ReadByteMsbFirst(w, us);
    var v := ReadByte(w, us).r.value;
    forall i | 0 <= i < 8
      ensures Bit(v, i) == Bit(b, i)
    {
      assert Level(w.input, 7 - i) == MsbLevels(b)[7 - i];
    }
    BitsDetermineByte(v, b);
    assert w.input[8..] == rest;
  }

  // ---------------------------------------------------------------------
  // Waiting for an acknowledge

  /** n unsuccessful polls: each samples DIO at `level` and then waits. */
  function Misses(us: nat, level: bool, n: nat): (t: seq<Event>)
    ensures |t| == 2 * n
  {
    if n == 0 then [] else [Read(level), Wait(us)] + Misses(us, level, n - 1)
  }

  /** The first poll k..4 at which DIO reads `expectHigh`, or 5 if none does. */
  function Polls(input: seq<bool>, expectHigh: bool, k: nat): (j: nat)
    requires k <= 5
    ensures k <= j <= 5
    decreases 5 - k
  {
    if k == 5 then 5
    else if Level(input, k) == expectHigh then k
    else Polls(input, expectHigh, k + 1)
  }

  /** Polls(input, e, k) is where DIO first reads e among samples k..4. */
  lemma {:induction false} PollsFirst(input: seq<bool>, e: bool, k: nat)
    requires k <= 5
    ensures forall i | k <= i < Polls(input, e, k) :: Level(input, i) != e
    ensures Polls(input, e, k) < 5 <==> exists i :: k <= i < 5 && Level(input, i) == e
    ensures Polls(input, e, k) < 5 ==> Level(input, Polls(input, e, k)) == e
    decreases 5 - k
  {
    if k < 5 && Level(input, k) != e {
      PollsFirst(input, e, k + 1);
    }
  }

  /** The events of polls k..j on fault-free pins, j being the first poll that sees `e` (5 if none). */
  function PollTrace(us: nat, e: bool, j: nat, k: nat): seq<Event>
    requires k <= j <= 5
  {
    if j < 5 then Misses(us, !e, j - k) + [Read(e)] else Misses(us, !e, 5 - k)
  }

  /** The outcome of polls k..4 on fault-free pins, as `PollFromExact` states it. */
  ghost predicate PollOutcome(w: Wire, s: Step<()>, us: nat, e: bool, code: nat, k: nat, input0: seq<bool>)
    requires k <= 5
  {
    PollOutcomeAt(w, s, us, e, code, k, Polls(input0, e, k), input0)
  }

  /** `PollOutcome` with the poll that ends the wait given as j. */
  ghost predicate PollOutcomeAt(w: Wire, s: Step<()>, us: nat, e: bool, code: nat, k: nat, j: nat, input0: seq<bool>)
    requires k <= j <= 5
  {
    && s.w.faults == {}
    && s.w.log == w.log + PollTrace(us, e, j, k)
    && s.w.input == Drop(input0, if j < 5 then j + 1 else 5)
    && s.r == if j < 5 then Ok(()) else Err(Ack(code))
  }

  lemma {:induction false} PollFromExact(w: Wire, us: nat, e: bool, code: nat, k: nat, input0: seq<bool>)
    requires k <= 5 && w.faults == {} && w.input == Drop(input0, k)
    ensures PollOutcome(w, PollFrom(w, us, e, code, k), us, e, code, k, input0)
    decreases 5 - k
  {
    if k == 5 {
      assert PollTrace(us, e, 5, 5) == [];
      assert w.log + [] == w.log;
    } else if Level(input0, k) == e {
      PollHit(w, us, e, code, k, input0);
    } else {
      var p := PollMiss(w, us, e, code, k, input0);
      PollFromExact(p, us, e, code, k + 1, input0);
      PollOutcomeBack(w, p, PollFrom(p, us, e, code, k + 1), us, e, code, k, Polls(input0, e, k + 1), input0);
    }
  }

  lemma PollOutcomeBack(w: Wire, p: Wire, s: Step<()>, us: nat, e: bool, code: nat, k: nat, j: nat, input0: seq<bool>)
    requires k < j <= 5
    requires p.log == w.log + [Read(!e), Wait(us)]
    requires PollOutcomeAt(p, s, us, e, code, k + 1, j, input0)
    ensures PollOutcomeAt(w, s, us, e, code, k, j, input0)
  {
    PollTraceStep(us, e, j, k);
    assert p.log + PollTrace(us, e, j, k + 1) == w.log + PollTrace(us, e, j, k);
  }

  lemma PollHit(w: Wire, us: nat, e: bool, code: nat, k: nat, input0: seq<bool>)
    requires k < 5 && w.faults == {} && w.input == Drop(input0, k) && Level(input0, k) == e
    ensures PollOutcome(w, PollFrom(w, us, e, code, k), us, e, code, k, input0)
  {
    assert Level(w.input, 0) == Level(input0, k);
    DropDrop(input0, k);
    assert PollTrace(us, e, k, k) == [Read(e)];
  }

  lemma PollMiss(w: Wire, us: nat, e: bool, code: nat, k: nat, input0: seq<bool>) returns (p: Wire)
    requires k < 5 && w.faults == {} && w.input == Drop(input0, k) && Level(input0, k) != e
    ensures p.faults == {} && p.input == Drop(input0, k + 1)
    ensures p.log == w.log + [Read(!e), Wait(us)]
    ensures PollFrom(w, us, e, code, k) == PollFrom(p, us, e, code, k + 1)
    ensures Polls(input0, e, k) == Polls(input0, e, k + 1)
  {
    assert Level(w.input, 0) == Level(input0, k);
    DropDrop(input0, k);
    p := Pause(Sample(w, Dio).w, us);
  }

  lemma PollTraceStep(us: nat, e: bool, j: nat, k: nat)
    requires k < j <= 5
    ensures PollTrace(us, e, j, k) == [Read(!e), Wait(us)] + PollTrace(us, e, j, k + 1)
  {
    var n := if j < 5 then j - k else 5 - k;
    assert Misses(us, !e, n) == [Read(!e), Wait(us)] + Misses(us, !e, n - 1);
  }

  /**
   * On fault-free pins `tm_bus_dio_wait_ack` samples DIO until it reads the
   * expected level, at most five times, waiting after every miss. It
   * succeeds exactly when one of the first five samples has the expected
   * level, and then consumes the samples up to and including that one;
   * otherwise it fails with `Ack(code)` after five samples and five waits.
   */
  lemma WaitAckExact(w: Wire, us: nat, e: bool, code: nat)
    requires w.faults == {}
    ensures var j := Polls(w.input, e, 0);
      && (WaitAck(w, us, e, code).r.Ok? <==> exists i :: 0 <= i < 5 && Level(w.input, i) == e)
      && (forall i | 0 <= i < j :: Level(w.input, i) != e)
      && var s := WaitAck(w, us, e, code);
      && s.w.faults == {}
      && s.w.log == w.log + PollTrace(us, e, j, 0)
      && s.w.input == Drop(w.input, if j < 5 then j + 1 else 5)
      && s.r == if j < 5 then Ok(()) else Err(Ack(code))
  {
    PollsFirst(w.input, e, 0);
    PollFromExact(w, us, e, code, 0, w.input);
  }

  /** The events a step appended to the log drive no pin. */
  ghost predicate DrivesNothing(before: seq<Event>, after: seq<Event>)
  {
    |before| <= |after| && after[..|before|] == before &&
    forall n | |before| <= n < |after| :: !after[n].Set?
  }

  /**
   * Whatever the pins do, `tm_bus_dio_wait_ack` fails only with `Dio` (a
   * failed sample) or `Ack(code)`, logs at most ten events (five samples
   * and five waits) and drives no pin.
   */
  ghost predicate PollBounded(w: Wire, s: Step<()>, code: nat, k: nat)
  {
    && (s.r.Err? ==> s.r.error == Dio || s.r.error == Ack(code))
    && |s.w.log| <= |w.log| + 2 * (5 - k)
    && DrivesNothing(w.log, s.w.log)
    && s.w.faults == w.faults
  }

  lemma {:induction false} PollFromBounded(w: Wire, us: nat, e: bool, code: nat, k: nat)
    requires k <= 5
    ensures PollBounded(w, PollFrom(w, us, e, code, k), code, k)
    decreases 5 - k
  {
    if k < 5 {
      var p := PollStep(w, us, e, code, k);
      if p.Some? {
        PollFromBounded(p.value, us, e, code, k + 1);
        var t := PollFrom(p.value, us, e, code, k + 1);
        DrivesNothingTrans(w.log, p.value.log, t.w.log);
      }
    }
  }

  lemma DrivesNothingTrans(a: seq<Event>, b: seq<Event>, c: seq<Event>)
    requires DrivesNothing(a, b) && DrivesNothing(b, c)
    ensures DrivesNothing(a, c)
  {
    assert c[..|b|][..|a|] == c[..|a|];
    forall n | |a| <= n < |c|
      ensures !c[n].Set?
    {
      if n < |b| {
        assert c[n] == c[..|b|][n];
      }
    }
  }

  /** Poll k either ends the wait (`None`), or misses and leaves the remaining polls to run from state p. */
  lemma PollStep(w: Wire, us: nat, e: bool, code: nat, k: nat) returns (p: Option<Wire>)
    requires k < 5
    ensures p.None? ==> PollBounded(w, PollFrom(w, us, e, code, k), code, k)
    ensures p.Some? ==>
      && PollFrom(w, us, e, code, k) == PollFrom(p.value, us, e, code, k + 1)
      && |p.value.log| == |w.log| + 2 && DrivesNothing(w.log, p.value.log)
      && p.value.faults == w.faults
  {
    var s := Sample(w, Dio);
    if s.r.Ok? && s.r.value != e {
      p := Some(Pause(s.w, us));
    } else {
      p := None;
    }
  }

  lemma WaitAckBounded(w: Wire, us: nat, e: bool, code: nat)
    ensures var s := WaitAck(w, us, e, code);
      && (s.r.Err? ==> s.r.error in {Dio, Ack(code)})
      && |s.w.log| <= |w.log| + 10
      && DrivesNothing(w.log, s.w.log)
      && s.w.faults == w.faults
  {
    PollFromBounded(w, us, e, code, 0);
  }

  // ---------------------------------------------------------------------
  // The 2-wire acknowledge

  lemma AckFall8Unfold(w: Wire, us: nat, code: nat)
    requires w.faults == {}
    ensures AckFall8(w, us, code) ==
      WaitAck(w.(log := w.log + [Set(DioLine, true), Set(ClkLine, false), Wait(us)]), us, false, code + 1)
  {
    var b := Drive(Drive(w, DioLine, true, Dio).w, ClkLine, false, Clk);
    assert b.r.Ok?;
    assert Pause(b.w, us).log == w.log + [Set(DioLine, true), Set(ClkLine, false), Wait(us)];
  }

  lemma AckRise9Unfold(w: Wire, us: nat, code: nat)
    requires w.faults == {}
    ensures AckRise9(w, us, code) ==
      WaitAck(w.(log := w.log + [Set(ClkLine, true), Wait(us)]), us, false, code + 2)
  {
    var d := Drive(w, ClkLine, true, Clk);
    assert d.r.Ok?;
    assert Pause(d.w, us).log == w.log + [Set(ClkLine, true), Wait(us)];
  }

  lemma AckFall9Unfold(w: Wire, us: nat, code: nat, verifyLast: bool)
    requires w.faults == {}
    ensures var g := w.(log := w.log + [Set(ClkLine, false), Wait(us)]);
      AckFall9(w, us, code, verifyLast) ==
        if verifyLast then WaitAck(g, us, true, code + 3) else Step(g, Ok(()))
  {
    var f := Drive(w, ClkLine, false, Clk);
    assert f.r.Ok?;
    assert Pause(f.w, us).log == w.log + [Set(ClkLine, false), Wait(us)];
  }

  /**
   * `tm_bus_2wire_ack` fails only with a pin error or with one of its three
   * phase codes, code + 1 (DIO not pulled low at the eighth falling edge),
   * code + 2 (DIO not low at the ninth rising edge) or code + 3 (DIO not
   * released at the ninth falling edge), and code + 3 only when that last
   * check is asked for.
   */
  lemma AckCodes(w: Wire, us: nat, code: nat, verifyLast: bool)
    ensures var s := Ack2(w, us, code, verifyLast);
      s.r.Err? ==>
        || s.r.error in {Clk, Dio}
        || (s.r.error.Ack? && code + 1 <= s.r.error.code <= code + 3
            && (s.r.error.code == code + 3 ==> verifyLast))
  {
    var a := Drive(w, DioLine, true, Dio);
    var b := Drive(a.w, ClkLine, false, Clk);
    WaitAckBounded(Pause(b.w, us), us, false, code + 1);
    var p := AckFall8(w, us, code);
    if p.r.Ok? {
      var d := Drive(p.w, ClkLine, true, Clk);
      WaitAckBounded(Pause(d.w, us), us, false, code + 2);
      var q := AckRise9(p.w, us, code);
      if q.r.Ok? {
        var f := Drive(q.w, ClkLine, false, Clk);
        WaitAckBounded(Pause(f.w, us), us, true, code + 3);
      }
    }
  }

  /** The events of an acknowledge that succeeds at the first sample of each check. */
  function AckTrace(us: nat, verifyLast: bool): seq<Event>
  {
    [Set(DioLine, true), Set(ClkLine, false), Wait(us), Read(false),
     Set(ClkLine, true), Wait(us), Read(false),
     Set(ClkLine, false), Wait(us)] + (if verifyLast then [Read(true)] else [])
  }

  /** The number of DIO samples an acknowledge that succeeds at once takes. */
  function AckSamples(verifyLast: bool): nat
  {
    if verifyLast then 3 else 2
  }

  /** A poll that sees the expected level at its first sample. */
  lemma WaitAckAtOnce(w: Wire, us: nat, e: bool, code: nat)
    requires w.faults == {} && Level(w.input, 0) == e
    ensures WaitAck(w, us, e, code) ==
      Step(w.(log := w.log + [Read(e)], input := Drop(w.input, 1)), Ok(()))
  {
    WaitAckExact(w, us, e, code);
    assert Polls(w.input, e, 0) == 0;
    assert PollTrace(us, e, 0, 0) == [Read(e)];
  }

  /**
   * The acknowledge handshake: on fault-free pins, when the chip holds DIO
   * low for the eighth falling and ninth rising clock edges and (if it is
   * checked) releases it for the ninth falling edge, `tm_bus_2wire_ack`
   * succeeds, runs the ninth clock cycle and consumes those samples.
   */
  lemma AckHandshake(w: Wire, us: nat, code: nat, verifyLast: bool)
    requires w.faults == {}
    requires !Level(w.input, 0) && !Level(w.input, 1)
    requires verifyLast ==> Level(w.input, 2)
    ensures Ack2(w, us, code, verifyLast) ==
      Step(w.(log := w.log + AckTrace(us, verifyLast), input := Drop(w.input, AckSamples(verifyLast))), Ok(()))
  {
    AckFall8Unfold(w, us, code);
    var w1 := w.(log := w.log + [Set(DioLine, true), Set(ClkLine, false), Wait(us)]);
    WaitAckAtOnce(w1, us, false, code + 1);
    var p := AckFall8(w, us, code);
    DropDrop(w.input, 1);
    AckRise9Unfold(p.w, us, code);
    var w2 := p.w.(log := p.w.log + [Set(ClkLine, true), Wait(us)]);
    WaitAckAtOnce(w2, us, false, code + 2);
    var q := AckRise9(p.w, us, code);
    AckFall9Unfold(q.w, us, code, verifyLast);
    var g := q.w.(log := q.w.log + [Set(ClkLine, false), Wait(us)]);
    if verifyLast {
      DropDrop(w.input, 2);
      WaitAckAtOnce(g, us, true, code + 3);
    }
    var t := AckTrace(us, verifyLast);
    assert Ack2(w, us, code, verifyLast).w.log == w.log + t;
  }

  /** A chip that never pulls DIO low (or is absent) fails the first acknowledge check. */
  lemma AckNoResponse(w: Wire, us: nat, code: nat, verifyLast: bool)
    requires w.faults == {}
    requires forall j | 0 <= j < 5 :: Level(w.input, j)
    ensures Ack2(w, us, code, verifyLast).r == Err(Ack(code + 1))
    ensures Ack2(w, us, code, verifyLast) ==
      WaitAck(w.(log := w.log + [Set(DioLine, true), Set(ClkLine, false), Wait(us)]), us, false, code + 1)
  {
    AckFall8Unfold(w, us, code);
    var w1 := w.(log := w.log + [Set(DioLine, true), Set(ClkLine, false), Wait(us)]);
    WaitAckExact(w1, us, false, code + 1);
  }

  /**
   * A chip that keeps DIO low after the ninth rising edge fails the
   * acknowledge with code + 3 when the release is checked, and passes it
   * when it is not.
   */
  lemma AckHeldLow(w: Wire, us: nat, code: nat, verifyLast: bool)
    requires w.faults == {}
    requires forall j | 0 <= j < 7 :: !Level(w.input, j)
    ensures Ack2(w, us, code, verifyLast).r == if verifyLast then Err(Ack(code + 3)) else Ok(())
  {
    AckFall8Unfold(w, us, code);
    var w1 := w.(log := w.log + [Set(DioLine, true), Set(ClkLine, false), Wait(us)]);
    WaitAckAtOnce(w1, us, false, code + 1);
    var p := AckFall8(w, us, code);
    DropDrop(w.input, 1);
    AckRise9Unfold(p.w, us, code);
    var w2 := p.w.(log := p.w.log + [Set(ClkLine, true), Wait(us)]);
    WaitAckAtOnce(w2, us, false, code + 2);
    var q := AckRise9(p.w, us, code);
    AckFall9Unfold(q.w, us, code, verifyLast);
    var g := q.w.(log := q.w.log + [Set(ClkLine, false), Wait(us)]);
    if verifyLast {
      DropDrop(w.input, 2);
      assert forall j | 0 <= j < 5 :: !Level(g.input, j) by {
        forall j | 0 <= j < 5 ensures !Level(g.input, j) {
          assert Level(g.input, j) == Level(w.input, 2 + j);
        }
      }
      WaitAckExact(g, us, true, code + 3);
    }
  }

  /**
   * A chip that pulls DIO low for the eighth falling edge but lets it go
   * before the ninth rising edge fails the acknowledge at its second check,
   * with code + 2, whether or not the release is checked afterwards.
   */
  lemma AckEarlyRelease(w: Wire, us: nat, code: nat, verifyLast: bool)
    requires w.faults == {}
    requires !Level(w.input, 0) && forall j | 1 <= j < 6 :: Level(w.input, j)
    ensures Ack2(w, us, code, verifyLast).r == Err(Ack(code + 2))
  {
    AckFall8Unfold(w, us, code);
    var w1 := w.(log := w.log + [Set(DioLine, true), Set(ClkLine, false), Wait(us)]);
    WaitAckAtOnce(w1, us, false, code + 1);
    var p := AckFall8(w, us, code);
    DropDrop(w.input, 1);
    AckRise9Unfold(p.w, us, code);
    var w2 := p.w.(log := p.w.log + [Set(ClkLine, true), Wait(us)]);
    assert forall j | 0 <= j < 5 :: Level(w2.input, j) by {
      forall j | 0 <= j < 5 ensures Level(w2.input, j) {
        assert Level(w2.input, j) == Level(w.input, 1 + j);
      }
    }
    WaitAckExact(w2, us, false, code + 2);
  }

  // ---------------------------------------------------------------------
  // Bytes with acknowledge

  /** The DIO levels of a chip that acknowledges a byte at once. */
  function AckLevels(verifyLast: bool): (levels: seq<bool>)
    ensures |levels| == AckSamples(verifyLast)
  {
    [false, false] + if verifyLast then [true] else []
  }

  lemma AckLevelsHandshake(w: Wire, us: nat, code: nat, verifyLast: bool, rest: seq<bool>)
    requires w.faults == {} && w.input == AckLevels(verifyLast) + rest
    ensures Ack2(w, us, code, verifyLast) ==
      Step(w.(log := w.log + AckTrace(us, verifyLast), input := rest), Ok(()))
  {
    assert Level(w.input, 0) == false && Level(w.input, 1) == false;
    assert verifyLast ==> Level(w.input, 2);
    AckHandshake(w, us, code, verifyLast);
    assert w.input[AckSamples(verifyLast)..] == rest;
  }

  /**
   * `tm_bus_2wire_send_byte_ack` with a chip that acknowledges at once, on
   * fault-free pins: the 48 events of the byte, the ninth clock cycle, and
   * the acknowledge samples; DIO's release is checked for every byte but a
   * key-scan read command.
   */
  lemma SendByteAckHappy(w: Wire, us: nat, b: bv8, code: nat, rest: seq<bool>)
    requires w.faults == {} && w.input == AckLevels(VerifyLast(b)) + rest
    ensures SendByteAck(w, us, b, code) ==
      Step(w.(log := w.log + SendTrace(us, b) + AckTrace(us, VerifyLast(b)), input := rest), Ok(()))
  {
    SendByteAborts(w, us, b);
    var s := SendByte(w, us, b);
    AckLevelsHandshake(s.w, us, code, VerifyLast(b), rest);
  }

  /**
   * After the key-scan read command the chip keeps driving DIO low, to send
   * the key byte. The release check of the ninth falling edge is skipped
   * exactly for bytes that carry the read-command bits 0x42, so such a chip
   * passes the acknowledge of exactly those bytes; every other byte fails it
   * with code + 3.
   */
  lemma SendByteAckHeldLow(w: Wire, us: nat, b: bv8, code: nat)
    requires w.faults == {}
    requires forall j | 0 <= j < 7 :: !Level(w.input, j)
    ensures SendByteAck(w, us, b, code).r ==
      if b & COM_DATA_READ == COM_DATA_READ then Ok(()) else Err(Ack(code + 3))
  {
    SendByteAborts(w, us, b);
    AckHeldLow(SendByte(w, us, b).w, us, code, VerifyLast(b));
  }

  /** `tm_bus_2wire_send_byte_ack` fails only with a pin error or one of the acknowledge codes of its byte. */
  lemma SendByteAckCodes(w: Wire, us: nat, b: bv8, code: nat)
    ensures var s := SendByteAck(w, us, b, code);
      s.r.Err? ==>
        || s.r.error in {Clk, Dio}
        || (s.r.error.Ack? && code + 1 <= s.r.error.code <= code + 3
            && (s.r.error.code == code + 3 ==> VerifyLast(b)))
  {
    SendByteAborts(w, us, b);
    AckCodes(SendByte(w, us, b).w, us, code, VerifyLast(b));
  }

  /**
   * `tm_bus_2wire_read_byte_ack` with a chip that puts b on DIO most
   * significant bit first and then acknowledges: the result is b.
   */
  lemma ReadByteAckRoundTrip(w: Wire, us: nat, b: bv8, code: nat, rest: seq<bool>)
    requires w.faults == {} && w.input == MsbLevels(b) + AckLevels(true) + rest
    ensures ReadByteAck(w, us, code).r == Ok(b)
    ensures ReadByteAck(w, us, code).w.input == rest
  {
    ReadByteRoundTrip(w, us, b, AckLevels(true) + rest);
    AckLevelsHandshake(ReadByte(w, us).w, us, code, true, rest);
  }

  /**
   * `tm_bus_2wire_read_byte_ack` returns a value only when both the read and
   * its acknowledge succeed; it fails only with a pin error or with an
   * acknowledge code, and when the acknowledge fails its error is reported
   * even if the read failed first.
   */
  lemma ReadByteAckErrors(w: Wire, us: nat, code: nat)
    ensures var s := ReadByteAck(w, us, code);
      var rd := ReadByte(w, us);
      var a := Ack2(rd.w, us, code, true);
      && (s.r.Ok? <==> rd.r.Ok? && a.r.Ok?)
      && (s.r.Ok? ==> s.r.value == rd.r.value)
      && (a.r.Err? ==> s.r == Err(a.r.error))
      && (s.r.Err? ==> s.r.error in {Clk, Dio} || (s.r.error.Ack? && code + 1 <= s.r.error.code <= code + 3))
  {
    ReadFromErrors(w, us, 0, 0);
    AckCodes(ReadByte(w, us).w, us, code, true);
  }

  lemma {:induction false} ReadFromErrors(w: Wire, us: nat, acc: bv8, i: nat)
    requires i <= 8
    ensures ReadFrom(w, us, acc, i).r.Err? ==> ReadFrom(w, us, acc, i).r.error in {Clk, Dio}
    decreases 8 - i
  {
    if i < 8 {
      var a := Drive(w, ClkLine, false, Clk);
      var b := Drive(Pause(a.w, us), ClkLine, true, Clk);
      var c := Sample(b.w, Dio);
      if a.r.Ok? && b.r.Ok? && c.r.Ok? {
        var acc' := if c.r.value then acc | ShiftRight(0x80, i) else acc;
        assert ReadFrom(w, us, acc, i) == ReadFrom(Pause(c.w, us), us, acc', i + 1);
        ReadFromErrors(Pause(c.w, us), us, acc', i + 1);
      }
    }
  }

  // ---------------------------------------------------------------------
  // Start and stop

  /** The level a line was last driven to in `log`, if it was driven at all. */
  function LastDrive(log: seq<Event>, line: Line): Option<bool>
  {
    if |log| == 0 then None
    else if log[|log| - 1].Set? && log[|log| - 1].line == line then Some(log[|log| - 1].high)
    else LastDrive(log[..|log| - 1], line)
  }

  lemma LastDriveAppend(log: seq<Event>, e: Event, line: Line)
    ensures LastDrive(log + [e], line) ==
      if e.Set? && e.line == line then Some(e.high) else LastDrive(log, line)
  {
    assert (log + [e])[..|log|] == log;
  }

  lemma {:induction false} LastDriveKept(before: seq<Event>, after: seq<Event>, line: Line)
    requires DrivesNothing(before, after)
    ensures LastDrive(after, line) == LastDrive(before, line)
    decreases |after|
  {
    if |after| > |before| {
      var a' := after[..|after| - 1];
      assert a'[..|before|] == after[..|before|];
      LastDriveKept(before, a', line);
    } else {
      assert after == before;
    }
  }

  /** The events of a start that does not fail. */
  function StartTrace(us: nat): seq<Event>
  {
    [Set(ClkLine, true), Set(DioLine, false), Wait(us)]
  }

  /** The events of a stop that does not fail, with the chip releasing DIO at once. */
  function StopTrace(us: nat): seq<Event>
  {
    [Set(DioLine, false), Wait(us), Set(ClkLine, true), Wait(us), Set(DioLine, true), Read(true), Wait(us)]
  }

  lemma StartFaultFree(w: Wire, us: nat)
    requires w.faults == {}
    ensures Start(w, us) == Step(w.(log := w.log + StartTrace(us)), Ok(()))
  {
    var b := Drive(Drive(w, ClkLine, true, Clk).w, DioLine, false, Dio);
    assert Pause(b.w, us).log == w.log + StartTrace(us);
  }

  /** The drives of a stop, before it checks DIO. */
  lemma StopDrives(w: Wire, us: nat) returns (c: Wire)
    requires w.faults == {}
    ensures c == w.(log := w.log + [Set(DioLine, false), Wait(us), Set(ClkLine, true), Wait(us), Set(DioLine, true)])
    ensures var d := WaitAck(c, us, true, 255);
      Stop(w, us) == if d.r.Err? then d else Step(Pause(d.w, us), Ok(()))
    ensures LastDrive(c.log, DioLine) == Some(true) && LastDrive(c.log, ClkLine) == Some(true)
  {
    var a := Drive(w, DioLine, false, Dio);
    var b := Drive(Pause(a.w, us), ClkLine, true, Clk);
    var c' := Drive(Pause(b.w, us), DioLine, true, Dio);
    c := c'.w;
    var l4 := w.log + [Set(DioLine, false), Wait(us), Set(ClkLine, true), Wait(us)];
    var l3 := w.log + [Set(DioLine, false), Wait(us), Set(ClkLine, true)];
    assert c.log == l4 + [Set(DioLine, true)];
    assert l4 == l3 + [Wait(us)];
    LastDriveAppend(l4, Set(DioLine, true), ClkLine);
    LastDriveAppend(l3, Wait(us), ClkLine);
    LastDriveAppend(w.log + [Set(DioLine, false), Wait(us)], Set(ClkLine, true), ClkLine);
  }

  /**
   * On fault-free pins a stop always leaves CLK and DIO released high (the
   * idle bus), whether or not the chip lets DIO rise; it fails only with
   * code 255, when DIO does not read high.
   */
  lemma StopReleases(w: Wire, us: nat)
    requires w.faults == {}
    ensures var s := Stop(w, us);
      && LastDrive(s.w.log, DioLine) == Some(true)
      && LastDrive(s.w.log, ClkLine) == Some(true)
      && (s.r.Err? ==> s.r.error == Ack(255))
  {
    var c := StopDrives(w, us);
    WaitAckBounded(c, us, true, 255);
    var d := WaitAck(c, us, true, 255);
    LastDriveKept(c.log, d.w.log, DioLine);
    LastDriveKept(c.log, d.w.log, ClkLine);
    LastDriveAppend(d.w.log, Wait(us), DioLine);
    LastDriveAppend(d.w.log, Wait(us), ClkLine);
  }

  /** Stop with a chip that has released DIO. */
  lemma StopReleased(w: Wire, us: nat)
    requires w.faults == {} && Level(w.input, 0)
    ensures Stop(w, us) == Step(w.(log := w.log + StopTrace(us), input := Drop(w.input, 1)), Ok(()))
  {
    var c := StopDrives(w, us);
    WaitAckAtOnce(c, us, true, 255);
    assert c.log + [Read(true)] + [Wait(us)] == w.log + StopTrace(us);
  }

  /** Whatever the pins do, a stop fails only with a pin error or code 255. */
  lemma StopCodes(w: Wire, us: nat)
    ensures Stop(w, us).r.Err? ==> Stop(w, us).r.error in {Clk, Dio, Ack(255)}
  {
    var a := Drive(w, DioLine, false, Dio);
    var b := Drive(Pause(a.w, us), ClkLine, true, Clk);
    var c := Drive(Pause(b.w, us), DioLine, true, Dio);
    WaitAckBounded(c.w, us, true, 255);
  }

  // ---------------------------------------------------------------------
  // 2-wire frames

  lemma CodeDigits(m: nat, c: nat)
    requires 10 * m + 1 <= c <= 10 * m + 3
    ensures c / 10 == m && 1 <= c % 10 <= 3
  {
    var j := c - 10 * m;
    assert c == 10 * m + j && 1 <= j <= 3;
  }

  /** An acknowledge code of a 2-wire frame of n bytes: tens digit the byte (from 1), units digit the phase. */
  predicate ByteAckCode(c: nat, n: nat)
  {
    1 <= c / 10 <= n && 1 <= c % 10 <= 3
  }

  /** Bytes k..j-1 of a 2-wire frame, each with its acknowledge, up to the first failure. */
  function SendPrefix2(w: Wire, us: nat, bytes: seq<bv8>, k: nat, j: nat): Step<()>
    requires k <= j <= |bytes|
    decreases j - k
  {
    if k == j then Step(w, Ok(())) else
    var s := SendByteAck(w, us, bytes[k], 10 * (k + 1));
    if s.r.Err? then s else SendPrefix2(s.w, us, bytes, k + 1, j)
  }

  /**
   * The loop from byte k failed at byte j: bytes k..j-1 all went through,
   * and the loop ended exactly where bytes k..j end, so no later byte
   * touched the bus.
   */
  ghost predicate FailsAt2(w: Wire, us: nat, bytes: seq<bv8>, k: nat, j: nat)
    requires k <= j < |bytes|
  {
    && SendPrefix2(w, us, bytes, k, j).r.Ok?
    && SendLoop2(w, us, bytes, k) == SendPrefix2(w, us, bytes, k, j + 1)
    && SendLoop2(w, us, bytes, k).r.Err?
  }

  /**
   * The send loop of `tm_send_bytes_2wire` fails only with a pin error or an
   * acknowledge code 10 * n + p; it stops at the first byte that fails, and
   * an acknowledge code names that byte: n is its position counted from 1.
   */
  lemma SendLoop2Codes(w: Wire, us: nat, bytes: seq<bv8>, k: nat)
    requires k < |bytes|
    ensures var s := SendLoop2(w, us, bytes, k);
      s.r.Err? ==> s.r.error in {Clk, Dio} || (s.r.error.Ack? && k < s.r.error.code / 10 && ByteAckCode(s.r.error.code, |bytes|))
    ensures var s := SendLoop2(w, us, bytes, k);
      s.r.Err? ==> exists j :: k <= j < |bytes| && FailsAt2(w, us, bytes, k, j) && (s.r.error.Ack? ==> s.r.error.code / 10 == j + 1)
  {
    SendLoop2CodeRange(w, us, bytes, k);
    var j := SendLoop2Culprit(w, us, bytes, k);
  }

  lemma {:induction false} SendLoop2CodeRange(w: Wire, us: nat, bytes: seq<bv8>, k: nat)
    requires k < |bytes|
    ensures var s := SendLoop2(w, us, bytes, k);
      s.r.Err? ==> s.r.error in {Clk, Dio} || (s.r.error.Ack? && k < s.r.error.code / 10 && ByteAckCode(s.r.error.code, |bytes|))
    decreases |bytes| - k
  {
    var s := SendByteAck(w, us, bytes[k], 10 * (k + 1));
    SendByteAckCodes(w, us, bytes[k], 10 * (k + 1));
    if s.r.Err? {
      if s.r.error.Ack? {
        CodeDigits(k + 1, s.r.error.code);
      }
    } else if k + 1 < |bytes| {
      SendLoop2CodeRange(s.w, us, bytes, k + 1);
    }
  }

  /** The byte j at which the 2-wire loop from byte k fails, and the byte an acknowledge code names. */
  lemma {:induction false} SendLoop2Culprit(w: Wire, us: nat, bytes: seq<bv8>, k: nat) returns (j: nat)
    requires k < |bytes|
    ensures var s := SendLoop2(w, us, bytes, k);
      s.r.Err? ==>
        && k <= j < |bytes|
        && FailsAt2(w, us, bytes, k, j)
        && (s.r.error.Ack? ==> s.r.error.code / 10 == j + 1)
    decreases |bytes| - k
  {
    var s := SendByteAck(w, us, bytes[k], 10 * (k + 1));
    if s.r.Err? {
      FailsHere2(w, us, bytes, k);
      j := k;
    } else if k + 1 == |bytes| {
      assert SendLoop2(w, us, bytes, k) == s;
      j := k;
    } else {
      j := SendLoop2Culprit(s.w, us, bytes, k + 1);
      var t := SendLoop2(s.w, us, bytes, k + 1);
      assert SendLoop2(w, us, bytes, k) == t;
      if t.r.Err? {
        PrefixStep2(w, us, bytes, k, j);
      }
    }
  }

  /** A loop whose first byte fails fails at that byte, with that byte's code. */
  lemma FailsHere2(w: Wire, us: nat, bytes: seq<bv8>, k: nat)
    requires k < |bytes| && SendByteAck(w, us, bytes[k], 10 * (k + 1)).r.Err?
    ensures FailsAt2(w, us, bytes, k, k)
    ensures var s := SendLoop2(w, us, bytes, k);
      s.r.error.Ack? ==> s.r.error.code / 10 == k + 1
  {
    SendByteAckCodes(w, us, bytes[k], 10 * (k + 1));
    var s := SendByteAck(w, us, bytes[k], 10 * (k + 1));
    if s.r.error.Ack? {
      CodeDigits(k + 1, s.r.error.code);
    }
  }

  /** One acknowledged byte moves the prefix on by one. */
  lemma PrefixStep2(w: Wire, us: nat, bytes: seq<bv8>, k: nat, j: nat)
    requires k < j < |bytes|
    requires SendByteAck(w, us, bytes[k], 10 * (k + 1)).r.Ok?
    ensures var s := SendByteAck(w, us, bytes[k], 10 * (k + 1));
      FailsAt2(s.w, us, bytes, k + 1, j) ==> FailsAt2(w, us, bytes, k, j)
  {
  }

  /**
   * `tm_send_bytes_2wire` fails only with a pin error, `Input` (no bytes),
   * code 255 (the stop), or the acknowledge code 10 * n + p of byte n
   * (counted from 1) and phase p in 1..3.
   */
  lemma SendFrame2Codes(w: Wire, us: nat, bytes: seq<bv8>)
    requires |bytes| <= 24
    ensures var s := SendFrame2(w, us, bytes);
      s.r.Err? ==> s.r.error in {Clk, Dio, Input, Ack(255)} || (s.r.error.Ack? && ByteAckCode(s.r.error.code, |bytes|))
    ensures var s := SendFrame2(w, us, bytes);
      var st := Start(w, us);
      s.r.Err? && s.r.error.Ack? && s.r.error.code != 255 ==>
        && st.r.Ok? && |bytes| > 0
        && exists j :: 0 <= j < |bytes| && FailsAt2(st.w, us, bytes, 0, j) && s.r.error.code / 10 == j + 1
  {
    var st := Start(w, us);
    if st.r.Ok? {
      if |bytes| > 0 {
        SendLoop2Codes(st.w, us, bytes, 0);
      }
      StopCodes(SendBody2(st.w, us, bytes).w, us);
    }
  }

  /** A frame with no bytes is refused with `Input`, once the start has succeeded; the stop still runs. */
  lemma SendFrame2Empty(w: Wire, us: nat)
    requires Start(w, us).r.Ok?
    ensures SendFrame2(w, us, []).r == Err(Input)
    ensures SendFrame2(w, us, []) == Step(Stop(Start(w, us).w, us).w, Err(Input))
  {
  }

  /**
   * On fault-free pins `tm_send_bytes_2wire` always ends with the stop
   * condition, leaving CLK and DIO released high, even when a byte is not
   * acknowledged.
   */
  lemma SendFrame2Idle(w: Wire, us: nat, bytes: seq<bv8>)
    requires w.faults == {} && |bytes| <= 24
    ensures LastDrive(SendFrame2(w, us, bytes).w.log, DioLine) == Some(true)
    ensures LastDrive(SendFrame2(w, us, bytes).w.log, ClkLine) == Some(true)
  {
    StartFaultFree(w, us);
    var send := SendBody2(Start(w, us).w, us, bytes);
    StopReleases(send.w, us);
  }

  /**
   * Error priority of `tm_send_bytes_2wire`: once the start succeeded the
   * stop always runs after the bytes; the frame succeeds exactly when both
   * the bytes and the stop do, and a byte error is reported in preference
   * to a stop error.
   */
  lemma SendFrame2Priority(w: Wire, us: nat, bytes: seq<bv8>)
    requires |bytes| <= 24 && Start(w, us).r.Ok?
    ensures var send := SendBody2(Start(w, us).w, us, bytes);
      var stop := Stop(send.w, us);
      var s := SendFrame2(w, us, bytes);
      && s.w == stop.w
      && (s.r.Ok? <==> send.r.Ok? && stop.r.Ok?)
      && (send.r.Err? ==> s.r == send.r)
      && (send.r.Ok? ==> s.r == stop.r)
  {
  }

  /** The DIO levels of a chip that acknowledges every byte of a frame at once. */
  function ChipAcks(bytes: seq<bv8>): seq<bool>
  {
    if bytes == [] then [] else AckLevels(VerifyLast(bytes[0])) + ChipAcks(bytes[1..])
  }

  /** The events of the bytes of a frame that every byte's acknowledge passes at once. */
  function BytesTrace(us: nat, bytes: seq<bv8>): seq<Event>
  {
    if bytes == [] then [] else SendTrace(us, bytes[0]) + AckTrace(us, VerifyLast(bytes[0])) + BytesTrace(us, bytes[1..])
  }

  lemma {:induction false} SendLoop2Happy(w: Wire, us: nat, bytes: seq<bv8>, k: nat)
    requires k < |bytes| && w.faults == {} && w.input == ChipAcks(bytes[k..])
    ensures SendLoop2(w, us, bytes, k) == Step(w.(log := w.log + BytesTrace(us, bytes[k..]), input := []), Ok(()))
    decreases |bytes| - k
  {
    var t := SendLoop2First(w, us, bytes, k);
    var s := SendByteAck(w, us, bytes[k], 10 * (k + 1));
    if k + 1 < |bytes| {
      SendLoop2Happy(s.w, us, bytes, k + 1);
      HappyTraceJoin(w.log, s.w.log, t, BytesTrace(us, bytes[k + 1..]), BytesTrace(us, bytes[k..]));
    } else {
      assert w.log + BytesTrace(us, bytes[k..]) == w.log + t;
    }
  }

  lemma HappyTraceJoin(log: seq<Event>, mid: seq<Event>, t: seq<Event>, rest: seq<Event>, all: seq<Event>)
    requires mid == log + t && all == t + rest
    ensures mid + rest == log + all
  {
  }

  /** The first byte of `SendLoop2Happy`'s loop. */
  lemma SendLoop2First(w: Wire, us: nat, bytes: seq<bv8>, k: nat) returns (t: seq<Event>)
    requires k < |bytes| && w.faults == {} && w.input == ChipAcks(bytes[k..])
    ensures t == SendTrace(us, bytes[k]) + AckTrace(us, VerifyLast(bytes[k]))
    ensures BytesTrace(us, bytes[k..]) == t + BytesTrace(us, bytes[k + 1..])
    ensures var s := SendByteAck(w, us, bytes[k], 10 * (k + 1));
      && s == Step(w.(log := w.log + t, input := ChipAcks(bytes[k + 1..])), Ok(()))
      && SendLoop2(w, us, bytes, k) == if k + 1 == |bytes| then s else SendLoop2(s.w, us, bytes, k + 1)
    ensures k + 1 == |bytes| ==> BytesTrace(us, bytes[k + 1..]) == [] && ChipAcks(bytes[k + 1..]) == []
  {
    var b := bytes[k];
    assert bytes[k..][1..] == bytes[k + 1..];
    assert w.input == AckLevels(VerifyLast(b)) + ChipAcks(bytes[k + 1..]);
    SendByteAckHappy(w, us, b, 10 * (k + 1), ChipAcks(bytes[k + 1..]));
    t := SendTrace(us, b) + AckTrace(us, VerifyLast(b));
    assert BytesTrace(us, bytes[k..]) == t + BytesTrace(us, bytes[k + 1..]);
    if k + 1 == |bytes| {
      assert bytes[k + 1..] == [];
    }
  }

  /**
   * A whole 2-wire frame on fault-free pins, with a chip that acknowledges
   * every byte and then releases DIO: start, every byte followed by its
   * acknowledge clock, stop; the result is success.
   */
  lemma SendFrame2Happy(w: Wire, us: nat, bytes: seq<bv8>)
    requires w.faults == {} && 1 <= |bytes| <= 24 && w.input == ChipAcks(bytes)
    ensures SendFrame2(w, us, bytes) ==
      Step(w.(log := w.log + StartTrace(us) + BytesTrace(us, bytes) + StopTrace(us), input := []), Ok(()))
  {
    StartFaultFree(w, us);
    var st := Start(w, us);
    assert bytes[0..] == bytes;
    SendLoop2Happy(st.w, us, bytes, 0);
    var send := SendBody2(st.w, us, bytes);
    StopReleased(send.w, us);
  }

  /** The events of an acknowledge that no chip answers: the eighth falling edge, then five high samples. */
  function NoAckTrace(us: nat): seq<Event>
  {
    [Set(DioLine, true), Set(ClkLine, false), Wait(us)] + Misses(us, true, 5)
  }

  /** A byte that nobody acknowledges, on fault-free pins: the byte is sent, then the first check fails. */
  lemma SendByteAckSilent(w: Wire, us: nat, b: bv8, code: nat)
    requires w.faults == {} && w.input == []
    ensures SendByteAck(w, us, b, code) == Step(w.(log := w.log + SendTrace(us, b) + NoAckTrace(us)), Err(Ack(code + 1)))
  {
    var v := SendByteFaultFree(w, us, b);
    AckSilent(v, us, code, VerifyLast(b));
  }

  /** With nobody driving DIO the acknowledge logs the clock fall and five misses. */
  lemma AckSilent(w: Wire, us: nat, code: nat, verifyLast: bool)
    requires w.faults == {} && w.input == []
    ensures Ack2(w, us, code, verifyLast) == Step(w.(log := w.log + NoAckTrace(us)), Err(Ack(code + 1)))
  {
    AckNoResponse(w, us, code, verifyLast);
    var w1 := w.(log := w.log + [Set(DioLine, true), Set(ClkLine, false), Wait(us)]);
    WaitAckSilent(w1, us, code + 1);
    assert w1.log + Misses(us, true, 5) == w.log + NoAckTrace(us);
  }

  /** On fault-free pins a byte send logs its whole trace. */
  lemma SendByteFaultFree(w: Wire, us: nat, b: bv8) returns (v: Wire)
    requires w.faults == {}
    ensures v == w.(log := w.log + SendTrace(us, b))
    ensures SendByte(w, us, b) == Step(v, Ok(()))
  {
    SendByteAborts(w, us, b);
    v := w.(log := w.log + SendTrace(us, b));
  }

  /** Five polls for a low DIO with nobody driving it. */
  lemma WaitAckSilent(w: Wire, us: nat, code: nat)
    requires w.faults == {} && w.input == []
    ensures WaitAck(w, us, false, code) == Step(w.(log := w.log + Misses(us, true, 5)), Err(Ack(code)))
  {
    assert Drop(w.input, 0) == w.input;
    PollFromExact(w, us, false, code, 0, w.input);
    assert Polls(w.input, false, 0) == 5;
    assert Drop(w.input, 5) == [];
  }

  lemma {:induction false} SendLoop2Silent(w: Wire, us: nat, bytes: seq<bv8>, k: nat, m: nat)
    requires k <= m < |bytes| && w.faults == {} && w.input == ChipAcks(bytes[k..m])
    ensures SendLoop2(w, us, bytes, k) ==
      Step(w.(log := w.log + BytesTrace(us, bytes[k..m]) + SendTrace(us, bytes[m]) + NoAckTrace(us), input := []),
           Err(Ack(10 * (m + 1) + 1)))
    decreases m - k
  {
    if k == m {
      assert bytes[k..m] == [];
      SendByteAckSilent(w, us, bytes[k], 10 * (k + 1));
      assert w.log + BytesTrace(us, bytes[k..m]) == w.log;
    } else {
      var t, v := SilentFirst(w, us, bytes, k, m);
      SendLoop2Silent(v, us, bytes, k + 1, m);
      SilentJoin(w.log, t, BytesTrace(us, bytes[k + 1..m]), BytesTrace(us, bytes[k..m]), SendTrace(us, bytes[m]), NoAckTrace(us));
    }
  }

  /** The first, acknowledged, byte of `SendLoop2Silent`'s loop. */
  lemma SilentFirst(w: Wire, us: nat, bytes: seq<bv8>, k: nat, m: nat) returns (t: seq<Event>, v: Wire)
    requires k < m < |bytes| && w.faults == {} && w.input == ChipAcks(bytes[k..m])
    ensures BytesTrace(us, bytes[k..m]) == t + BytesTrace(us, bytes[k + 1..m])
    ensures v == w.(log := w.log + t, input := ChipAcks(bytes[k + 1..m]))
    ensures SendLoop2(w, us, bytes, k) == SendLoop2(v, us, bytes, k + 1)
  {
    var b := bytes[k];
    assert bytes[k..m][0] == b && bytes[k..m][1..] == bytes[k + 1..m];
    t := SendTrace(us, b) + AckTrace(us, VerifyLast(b));
    assert ChipAcks(bytes[k..m]) == AckLevels(VerifyLast(b)) + ChipAcks(bytes[k + 1..m]);
    SendByteAckHappy(w, us, b, 10 * (k + 1), ChipAcks(bytes[k + 1..m]));
    v := SendByteAck(w, us, b, 10 * (k + 1)).w;
  }

  lemma SilentJoin(log: seq<Event>, t: seq<Event>, rest: seq<Event>, all: seq<Event>, a: seq<Event>, b: seq<Event>)
    requires all == t + rest
    ensures log + t + rest + a + b == log + all + a + b
  {
    assert log + t + rest == log + all;
  }

  /**
   * A chip that acknowledges bytes 0..m-1 of a frame and then answers
   * nothing more, on fault-free pins: the frame fails with the code of byte
   * m + 1 (counted from 1) at the eighth falling edge, no later byte is
   * sent, and the stop still runs, leaving the bus idle.
   */
  lemma SendFrame2Silent(w: Wire, us: nat, bytes: seq<bv8>, m: nat)
    requires w.faults == {} && m < |bytes| <= 24 && w.input == ChipAcks(bytes[..m])
    ensures SendFrame2(w, us, bytes) ==
      Step(w.(log := w.log + StartTrace(us) + BytesTrace(us, bytes[..m]) + SendTrace(us, bytes[m]) + NoAckTrace(us) + StopTrace(us),
              input := []),
           Err(Ack(10 * (m + 1) + 1)))
  {
    StartFaultFree(w, us);
    var st := Start(w, us);
    assert bytes[0..m] == bytes[..m];
    SendLoop2Silent(st.w, us, bytes, 0, m);
    var send := SendBody2(st.w, us, bytes);
    StopReleased(send.w, us);
  }

  // ---------------------------------------------------------------------
  // 2-wire key read

  /**
   * `tm_read_byte_2wire` fails only with a pin error or with one of the
   * codes 231, 232 (command acknowledge), 241, 242, 243 (key byte
   * acknowledge) or 255 (stop): never 233, since the release of DIO is not
   * checked after the read command.
   */
  lemma ReadKey2Codes(w: Wire, us: nat)
    ensures var s := ReadKey2(w, us);
      s.r.Err? ==>
        || s.r.error in {Clk, Dio}
        || (s.r.error.Ack? && (231 <= s.r.error.code <= 232 || 241 <= s.r.error.code <= 243 || s.r.error.code == 255))
  {
    var st := Start(w, us);
    if st.r.Ok? {
      assert !VerifyLast(COM_DATA_READ);
      SendByteAckCodes(st.w, us, COM_DATA_READ, 230);
      var cmd := SendByteAck(st.w, us, COM_DATA_READ, 230);
      if cmd.r.Ok? {
        ReadKey2TailCodes(cmd.w, us);
      }
    }
  }

  /** The codes of the part of `tm_read_byte_2wire` after the command byte. */
  lemma ReadKey2TailCodes(w: Wire, us: nat)
    ensures var rd := ReadByteAck(w, us, 240);
      var stop := Stop(rd.w, us);
      && (rd.r.Err? ==> rd.r.error in {Clk, Dio} || (rd.r.error.Ack? && 241 <= rd.r.error.code <= 243))
      && (stop.r.Err? ==> stop.r.error in {Clk, Dio, Ack(255)})
  {
    ReadByteAckErrors(w, us, 240);
    StopCodes(ReadByteAck(w, us, 240).w, us);
  }

  /**
   * Error priority of `tm_read_byte_2wire`: a failed command byte (whose
   * release check is skipped) is returned at once, without a stop; once the
   * command byte is acknowledged the stop always runs after the key byte;
   * the read succeeds exactly when the key byte and the stop do, a key byte
   * error is reported in preference to a stop error, and a stop error only
   * when the key byte was read.
   */
  lemma ReadKey2Priority(w: Wire, us: nat)
    requires Start(w, us).r.Ok?
    ensures var cmd := SendByteAck(Start(w, us).w, us, COM_DATA_READ, 230);
      && !VerifyLast(COM_DATA_READ)
      && (cmd.r.Err? ==> ReadKey2(w, us) == Step(cmd.w, Err(cmd.r.error)))
    ensures var cmd := SendByteAck(Start(w, us).w, us, COM_DATA_READ, 230);
      var rd := ReadByteAck(cmd.w, us, 240);
      var stop := Stop(rd.w, us);
      var s := ReadKey2(w, us);
      cmd.r.Ok? ==>
        && s.w == stop.w
        && (s.r.Ok? <==> rd.r.Ok? && stop.r.Ok?)
        && (rd.r.Err? ==> s.r == Err(rd.r.error))
        && (rd.r.Ok? && stop.r.Err? ==> s.r == Err(stop.r.error))
        && (s.r.Ok? ==> s.r == rd.r)
  {
  }

  /**
   * A key read on fault-free pins with a chip that acknowledges the command,
   * sends the key code most significant bit first, acknowledges it and
   * releases DIO: the result is the key code, and the bus is left idle.
   */
  lemma ReadKey2RoundTrip(w: Wire, us: nat, key: bv8)
    requires w.faults == {} && w.input == AckLevels(false) + MsbLevels(key) + AckLevels(true)
    ensures ReadKey2(w, us).r == Ok(key)
    ensures LastDrive(ReadKey2(w, us).w.log, DioLine) == Some(true)
    ensures LastDrive(ReadKey2(w, us).w.log, ClkLine) == Some(true)
  {
    var c := ReadKey2Front(w, us, key);
    ReadKeyTail2RoundTrip(c, us, key);
  }

  /** The start and the acknowledged read command of `ReadKey2RoundTrip`. */
  lemma ReadKey2Front(w: Wire, us: nat, key: bv8) returns (c: Wire)
    requires w.faults == {} && w.input == AckLevels(false) + MsbLevels(key) + AckLevels(true)
    ensures c.faults == {} && c.input == MsbLevels(key) + AckLevels(true)
    ensures ReadKey2(w, us) == ReadKeyTail2(c, us)
  {
    StartFaultFree(w, us);
    var st := Start(w, us);
    assert !VerifyLast(COM_DATA_READ);
    SendByteAckHappy(st.w, us, COM_DATA_READ, 230, MsbLevels(key) + AckLevels(true));
    c := SendByteAck(st.w, us, COM_DATA_READ, 230).w;
  }

  lemma ReadKeyTail2RoundTrip(c: Wire, us: nat, key: bv8)
    requires c.faults == {} && c.input == MsbLevels(key) + AckLevels(true)
    ensures ReadKeyTail2(c, us).r == Ok(key)
    ensures LastDrive(ReadKeyTail2(c, us).w.log, DioLine) == Some(true)
    ensures LastDrive(ReadKeyTail2(c, us).w.log, ClkLine) == Some(true)
  {
    assert c.input == MsbLevels(key) + AckLevels(true) + [];
    ReadByteAckRoundTrip(c, us, key, 240, []);
    var rd := ReadByteAck(c, us, 240);
    StopReleased(rd.w, us);
    StopReleases(rd.w, us);
  }

  /**
   * A key read whose command byte is not acknowledged (no chip pulls DIO
   * low) fails with code 231 and returns at once, without the stop
   * condition: CLK is left low.
   */
  lemma ReadKey2NoChip(w: Wire, us: nat)
    requires w.faults == {} && w.input == []
    ensures ReadKey2(w, us).r == Err(Ack(231))
    ensures LastDrive(ReadKey2(w, us).w.log, ClkLine) == Some(false)
  {
    StartFaultFree(w, us);
    ReadCommandNoChip(Start(w, us).w, us);
  }

  /** With nobody on the bus, the read command fails at the eighth falling edge, with CLK left low. */
  lemma ReadCommandNoChip(v: Wire, us: nat)
    requires v.faults == {} && v.input == []
    ensures var cmd := SendByteAck(v, us, COM_DATA_READ, 230);
      cmd.r == Err(Ack(231)) && LastDrive(cmd.w.log, ClkLine) == Some(false)
  {
    SendByteAborts(v, us, COM_DATA_READ);
    var sb := SendByte(v, us, COM_DATA_READ);
    AckNoResponse(sb.w, us, 230, false);
    assert SendByteAck(v, us, COM_DATA_READ, 230) == Ack2(sb.w, us, 230, false);
    Fall8LeavesClkLow(sb.w, us, 231);
  }

  /** Waiting for the acknowledge after the eighth falling edge leaves CLK low. */
  lemma Fall8LeavesClkLow(x: Wire, us: nat, code: nat)
    ensures var w1 := x.(log := x.log + [Set(DioLine, true), Set(ClkLine, false), Wait(us)]);
      LastDrive(WaitAck(w1, us, false, code).w.log, ClkLine) == Some(false)
  {
    var l := x.log + [Set(DioLine, true), Set(ClkLine, false)];
    var w1 := x.(log := l + [Wait(us)]);
    assert w1.log == x.log + [Set(DioLine, true), Set(ClkLine, false), Wait(us)];
    WaitAckBounded(w1, us, false, code);
    LastDriveKept(w1.log, WaitAck(w1, us, false, code).w.log, ClkLine);
    LastDriveAppend(l, Wait(us), ClkLine);
    LastDriveAppend(x.log + [Set(DioLine, true)], Set(ClkLine, false), ClkLine);
  }

  // ---------------------------------------------------------------------
  // 3-wire frames

  /** The events of the 3-wire release: STB, CLK and DIO driven high. */
  function ReleaseTrace(): seq<Event>
  {
    [Set(StbLine, true), Set(ClkLine, true), Set(DioLine, true)]
  }

  /** `log` ends with the 3-wire release. */
  predicate EndsReleased(log: seq<Event>)
  {
    |log| >= 3 && log[|log| - 3..] == ReleaseTrace()
  }

  /** The release either fails with `Stb` or logs its three drives. */
  lemma Release3Outcome(w: Wire)
    ensures var rel := Release3(w);
      && rel.w.input == w.input && rel.w.faults == w.faults
      && (rel.r.Err? ==> rel.r.error == Stb)
      && (rel.r.Ok? ==> rel.w.log == w.log + ReleaseTrace() && EndsReleased(rel.w.log))
      && (w.faults == {} ==> rel.r.Ok?)
  {
    var rel := Release3(w);
    if rel.r.Ok? {
      assert rel.w.log == w.log + ReleaseTrace();
      assert rel.w.log[|rel.w.log| - 3..] == ReleaseTrace();
    }
  }

  /**
   * `tm_send_bytes_3wire` reports every failure to raise STB, or to release
   * the lines afterwards, as `Stb`, and that error replaces the result of
   * the send; any other outcome means the frame ended with the release of
   * STB, CLK and DIO. No other error than a pin error or `Input` occurs.
   */
  lemma SendFrame3Release(w: Wire, us: nat, bytes: seq<bv8>)
    ensures var s := SendFrame3(w, us, bytes);
      && (s.r.Err? ==> s.r.error in {Stb, Clk, Dio, Input})
      && (s.r.Ok? || s.r.error != Stb ==> EndsReleased(s.w.log))
  {
    var lo := Drive(Pause(w, us), StbLine, false, Stb);
    if lo.r.Ok? {
      var send := SendBody3(Pause(lo.w, us), us, bytes);
      if |bytes| > 0 {
        SendLoop3Errors(Pause(lo.w, us), us, bytes, 0);
      }
      Release3Outcome(Pause(send.w, us));
    }
  }

  lemma {:induction false} SendLoop3Errors(w: Wire, us: nat, bytes: seq<bv8>, k: nat)
    requires k < |bytes|
    ensures SendLoop3(w, us, bytes, k).r.Err? ==> SendLoop3(w, us, bytes, k).r.error in {Clk, Dio}
    decreases |bytes| - k
  {
    SendByteAborts(w, us, bytes[k]);
    var s := SendByte(w, us, bytes[k]);
    if s.r.Ok? && k + 1 < |bytes| {
      SendLoop3Errors(s.w, us, bytes, k + 1);
    }
  }

  /**
   * Error priority of `tm_send_bytes_3wire`: once STB is low the bytes are
   * sent and the release always runs; a failed release is reported (as
   * `Stb`) in place of the send result, and a release that succeeds returns
   * the send result, which is `Input` for an empty slice.
   */
  lemma SendFrame3Priority(w: Wire, us: nat, bytes: seq<bv8>)
    ensures var lo := Drive(Pause(w, us), StbLine, false, Stb);
      var s := SendFrame3(w, us, bytes);
      lo.r.Err? ==> s == lo && s.r == Err(Stb)
    ensures var lo := Drive(Pause(w, us), StbLine, false, Stb);
      var send := SendBody3(Pause(lo.w, us), us, bytes);
      var rel := Release3(Pause(send.w, us));
      var s := SendFrame3(w, us, bytes);
      lo.r.Ok? ==>
        && s.w == rel.w
        && (rel.r.Err? ==> s.r == Err(Stb))
        && (rel.r.Ok? ==> s.r == send.r)
        && (bytes == [] ==> send == Step(Pause(lo.w, us), Err(Input)))
  {
    var lo := Drive(Pause(w, us), StbLine, false, Stb);
    if lo.r.Ok? {
      var send := SendBody3(Pause(lo.w, us), us, bytes);
      Release3Outcome(Pause(send.w, us));
    }
  }

  /**
   * The 3-wire send loop stops at the first byte that fails: the log holds
   * the full traces of the bytes before it, then part of that byte's trace
   * cut short by the failed drive, and nothing of any later byte.
   */
  lemma SendLoop3Stops(w: Wire, us: nat, bytes: seq<bv8>, k: nat)
    requires k < |bytes|
    ensures var s := SendLoop3(w, us, bytes, k);
      s.r.Err? ==> exists j :: k <= j < |bytes| && AbortedIn(w.log + Bytes3Trace(us, bytes[k..j]), s.w.log, SendTrace(us, bytes[j]))
  {
    var j := SendLoop3Culprit(w, us, bytes, k);
  }

  /** The byte j at which the 3-wire loop from byte k fails. */
  lemma {:induction false} SendLoop3Culprit(w: Wire, us: nat, bytes: seq<bv8>, k: nat) returns (j: nat)
    requires k < |bytes|
    ensures var s := SendLoop3(w, us, bytes, k);
      s.r.Err? ==> k <= j < |bytes| && AbortedIn(w.log + Bytes3Trace(us, bytes[k..j]), s.w.log, SendTrace(us, bytes[j]))
    decreases |bytes| - k
  {
    SendByteAborts(w, us, bytes[k]);
    var s := SendByte(w, us, bytes[k]);
    j := k;
    if s.r.Err? {
      assert bytes[k..k] == [];
      assert w.log + Bytes3Trace(us, bytes[k..k]) == w.log;
      assert SendLoop3(w, us, bytes, k) == s;
    } else if k + 1 < |bytes| {
      j := SendLoop3Culprit(s.w, us, bytes, k + 1);
      var t := SendLoop3(s.w, us, bytes, k + 1);
      assert SendLoop3(w, us, bytes, k) == t;
      if t.r.Err? {
        Bytes3Step(w.log, us, bytes, k, j);
      }
    } else {
      assert SendLoop3(w, us, bytes, k) == s;
    }
  }

  lemma Bytes3Step(log: seq<Event>, us: nat, bytes: seq<bv8>, k: nat, j: nat)
    requires k < j <= |bytes|
    ensures log + SendTrace(us, bytes[k]) + Bytes3Trace(us, bytes[k + 1..j]) == log + Bytes3Trace(us, bytes[k..j])
  {
    assert bytes[k..j][0] == bytes[k] && bytes[k..j][1..] == bytes[k + 1..j];
    assert Bytes3Trace(us, bytes[k..j]) == SendTrace(us, bytes[k]) + Bytes3Trace(us, bytes[k + 1..j]);
  }

  /** The send traces of `bytes`, one after another. */
  function Bytes3Trace(us: nat, bytes: seq<bv8>): seq<Event>
  {
    if bytes == [] then [] else SendTrace(us, bytes[0]) + Bytes3Trace(us, bytes[1..])
  }

  lemma {:induction false} SendLoop3FaultFree(w: Wire, us: nat, bytes: seq<bv8>, k: nat)
    requires k < |bytes| && w.faults == {}
    ensures SendLoop3(w, us, bytes, k) == Step(w.(log := w.log + Bytes3Trace(us, bytes[k..])), Ok(()))
    decreases |bytes| - k
  {
    SendByteAborts(w, us, bytes[k]);
    var s := SendByte(w, us, bytes[k]);
    assert bytes[k..][1..] == bytes[k + 1..];
    assert Bytes3Trace(us, bytes[k..]) == SendTrace(us, bytes[k]) + Bytes3Trace(us, bytes[k + 1..]);
    if k + 1 < |bytes| {
      SendLoop3FaultFree(s.w, us, bytes, k + 1);
      HappyTraceJoin(w.log, s.w.log, SendTrace(us, bytes[k]), Bytes3Trace(us, bytes[k + 1..]), Bytes3Trace(us, bytes[k..]));
    } else {
      assert bytes[k + 1..] == [];
      assert w.log + Bytes3Trace(us, bytes[k..]) == w.log + SendTrace(us, bytes[k]);
    }
  }

  /**
   * A 3-wire frame on fault-free pins: STB low, the bytes least significant
   * bit first with no acknowledge, then the release; nothing is sampled. It
   * succeeds unless there are no bytes.
   */
  lemma SendFrame3FaultFree(w: Wire, us: nat, bytes: seq<bv8>)
    requires w.faults == {}
    ensures SendFrame3(w, us, bytes) ==
      Step(w.(log := w.log + [Wait(us), Set(StbLine, false), Wait(us)] + Bytes3Trace(us, bytes) + [Wait(us)] + ReleaseTrace()),
           if bytes == [] then Err(Input) else Ok(()))
  {
    var lo := Drive(Pause(w, us), StbLine, false, Stb);
    var p := Pause(lo.w, us);
    assert p.log == w.log + [Wait(us), Set(StbLine, false), Wait(us)];
    if bytes != [] {
      assert bytes[0..] == bytes;
      SendLoop3FaultFree(p, us, bytes, 0);
    }
    var send := SendBody3(p, us, bytes);
    assert send.w.log == p.log + Bytes3Trace(us, bytes);
    Release3Outcome(Pause(send.w, us));
  }

  // ---------------------------------------------------------------------
  // 3-wire key read

  /** A count outside 1..4 is refused with `Input` before any pin is touched. */
  lemma ReadKeys3BadCount(w: Wire, us: nat, count: nat)
    requires count == 0 || count > 4
    ensures ReadKeys3(w, us, count) == Step(w, Err(Input))
  {
  }

  /** One read of the 3-wire read loop, with the read's outcome named. */
  lemma ReadLoop3Unfold(w: Wire, us: nat, resp: seq<bv8>, i: nat, count: nat, rd: Step<bv8>)
    requires |resp| == 4 && i < count <= 4 && rd == ReadByte(w, us)
    ensures ReadLoop3(w, us, resp, i, count) ==
      if rd.r.Err? then Fill(rd.w, resp, Some(rd.r.error))
      else ReadLoop3(rd.w, us, resp[i := rd.r.value], i + 1, count)
  {
  }

  lemma {:induction false} ReadLoop3Keeps(w: Wire, us: nat, resp: seq<bv8>, i: nat, count: nat)
    requires |resp| == 4 && i <= count <= 4
    ensures forall j | 0 <= j < 4 && !(i <= j < count) :: ReadLoop3(w, us, resp, i, count).resp[j] == resp[j]
    ensures var f := ReadLoop3(w, us, resp, i, count); f.err.Some? ==> f.err.value in {Clk, Dio}
    decreases count - i
  {
    if i < count {
      var rd := ReadByte(w, us);
      ReadLoop3Unfold(w, us, resp, i, count, rd);
      ReadFromErrors(w, us, 0, 0);
      if rd.r.Ok? {
        var f := ReadLoop3(rd.w, us, resp[i := rd.r.value], i + 1, count);
        ReadLoop3Keeps(rd.w, us, resp[i := rd.r.value], i + 1, count);
        forall j | 0 <= j < 4 && !(i <= j < count)
          ensures f.resp[j] == resp[j]
        {
          assert f.resp[j] == resp[i := rd.r.value][j];
        }
      }
    }
  }

  /**
   * `tm_read_bytes_3wire` accepts counts 1..4 only; its response always has
   * four bytes, and the bytes after the first `count` stay zero. Unless the
   * error is `Stb` (a failed STB or release drive) or `Input`, the lines
   * were released at the end.
   */
  lemma ReadKeys3Shape(w: Wire, us: nat, count: nat)
    ensures var s := ReadKeys3(w, us, count);
      && (s.r.Ok? ==> 1 <= count <= 4 && |s.r.value| == 4 && forall j | count <= j < 4 :: s.r.value[j] == 0)
      && (s.r.Err? ==> s.r.error in {Stb, Clk, Dio, Input})
      && (s.r.Ok? || s.r.error !in {Stb, Input} ==> EndsReleased(s.w.log))
  {
    if 1 <= count <= 4 {
      var lo := Drive(Pause(w, us), StbLine, false, Stb);
      if lo.r.Ok? {
        var init := SendByte(Pause(lo.w, us), us, COM_DATA_READ);
        SendByteAborts(Pause(lo.w, us), us, COM_DATA_READ);
        var hi := Drive(init.w, DioLine, true, Stb);
        if hi.r.Ok? && init.r.Ok? {
          ReadLoop3Keeps(Pause(hi.w, us), us, [0, 0, 0, 0], 0, count);
        }
        var f :=
          if init.r.Err? then Fill(hi.w, [0, 0, 0, 0], Some(init.r.error))
          else ReadLoop3(Pause(hi.w, us), us, [0, 0, 0, 0], 0, count);
        Release3Outcome(f.w);
      }
    }
  }

  /**
   * The error priority of `tm_read_bytes_3wire` once the count is accepted: a
   * failed STB drive, or a failed DIO release after the command, returns `Stb`
   * at once; otherwise the release always runs, its failure reports `Stb` in
   * place of anything else, and after a good release a command or read error
   * is returned. `Ok` therefore means every read succeeded.
   */
  lemma ReadKeys3Priority(w: Wire, us: nat, count: nat)
    ensures var lo := Drive(Pause(w, us), StbLine, false, Stb);
      var s := ReadKeys3(w, us, count);
      1 <= count <= 4 && lo.r.Err? ==> s == Step(lo.w, Err(Stb))
    ensures var lo := Drive(Pause(w, us), StbLine, false, Stb);
      var init := SendByte(Pause(lo.w, us), us, COM_DATA_READ);
      var hi := Drive(init.w, DioLine, true, Stb);
      var s := ReadKeys3(w, us, count);
      1 <= count <= 4 && lo.r.Ok? && hi.r.Err? ==> s == Step(hi.w, Err(Stb))
    ensures var lo := Drive(Pause(w, us), StbLine, false, Stb);
      var init := SendByte(Pause(lo.w, us), us, COM_DATA_READ);
      var hi := Drive(init.w, DioLine, true, Stb);
      var s := ReadKeys3(w, us, count);
      1 <= count <= 4 && lo.r.Ok? && hi.r.Ok? ==>
        var f :=
          if init.r.Err? then Fill(hi.w, [0, 0, 0, 0], Some(init.r.error))
          else ReadLoop3(Pause(hi.w, us), us, [0, 0, 0, 0], 0, count);
        var rel := Release3(f.w);
        && s.w == rel.w
        && (init.r.Err? ==> f.err == Some(init.r.error))
        && (rel.r.Err? ==> s.r == Err(Stb))
        && (rel.r.Ok? && f.err.Some? ==> s.r == Err(f.err.value))
        && (rel.r.Ok? && f.err.None? ==> s.r == Ok(f.resp))
        && (s.r.Ok? ==> f.err.None?)
  {
    if 1 <= count <= 4 {
      var lo := Drive(Pause(w, us), StbLine, false, Stb);
      if lo.r.Ok? {
        var init := SendByte(Pause(lo.w, us), us, COM_DATA_READ);
        var hi := Drive(init.w, DioLine, true, Stb);
        var f :=
          if init.r.Err? then Fill(hi.w, [0, 0, 0, 0], Some(init.r.error))
          else ReadLoop3(Pause(hi.w, us), us, [0, 0, 0, 0], 0, count);
        Release3Outcome(f.w);
      }
    }
  }

  /** The DIO levels of a chip that sends `keys`, each most significant bit first. */
  function KeyLevels(keys: seq<bv8>): seq<bool>
  {
    if keys == [] then [] else MsbLevels(keys[0]) + KeyLevels(keys[1..])
  }

  lemma {:induction false} ReadLoop3RoundTrip(w: Wire, us: nat, resp: seq<bv8>, i: nat, keys: seq<bv8>)
    requires |resp| == 4 && i <= |keys| <= 4 && w.faults == {} && w.input == KeyLevels(keys[i..])
    ensures var f := ReadLoop3(w, us, resp, i, |keys|);
      && f.err.None?
      && forall j | 0 <= j < 4 :: f.resp[j] == if i <= j < |keys| then keys[j] else resp[j]
    decreases |keys| - i
  {
    if i < |keys| {
      assert keys[i..][1..] == keys[i + 1..];
      assert w.input == MsbLevels(keys[i]) + KeyLevels(keys[i + 1..]);
      ReadByteRoundTrip(w, us, keys[i], KeyLevels(keys[i + 1..]));
      var rd := ReadByte(w, us);
      ReadLoop3RoundTrip(rd.w, us, resp[i := keys[i]], i + 1, keys);
    }
  }

  /**
   * A 3-wire key read on fault-free pins with a chip that sends `keys` (one
   * to four bytes): the response holds the keys followed by zeros, and the
   * lines are released.
   */
  lemma ReadKeys3RoundTrip(w: Wire, us: nat, keys: seq<bv8>)
    requires w.faults == {} && 1 <= |keys| <= 4 && w.input == KeyLevels(keys)
    ensures var s := ReadKeys3(w, us, |keys|);
      && s.r.Ok? && |s.r.value| == 4
      && (forall j | 0 <= j < 4 :: s.r.value[j] == if j < |keys| then keys[j] else 0)
      && EndsReleased(s.w.log)
  {
    var p := ReadKeys3Front(w, us, |keys|);
    ReadLoop3Keys(p, us, keys);
    Release3Outcome(ReadLoop3(p, us, [0, 0, 0, 0], 0, |keys|).w);
  }

  lemma ReadLoop3Keys(p: Wire, us: nat, keys: seq<bv8>)
    requires p.faults == {} && 1 <= |keys| <= 4 && p.input == KeyLevels(keys)
    ensures var f := ReadLoop3(p, us, [0, 0, 0, 0], 0, |keys|);
      && f.err.None? && f.w.faults == {}
      && forall j | 0 <= j < 4 :: f.resp[j] == if j < |keys| then keys[j] else 0
  {
    assert keys[0..] == keys;
    var zeros: seq<bv8> := [0, 0, 0, 0];
    ReadLoop3RoundTrip(p, us, zeros, 0, keys);
    var f := ReadLoop3(p, us, zeros, 0, |keys|);
    forall j | 0 <= j < 4
      ensures f.resp[j] == if j < |keys| then keys[j] else 0
    {
      assert zeros[j] == 0;
    }
  }

  /** On fault-free pins the key-scan command of a 3-wire read succeeds, and the read loop starts from p. */
  lemma ReadKeys3Front(w: Wire, us: nat, count: nat) returns (p: Wire)
    requires w.faults == {} && 1 <= count <= 4
    ensures p.faults == {} && p.input == w.input
    ensures var f := ReadLoop3(p, us, [0, 0, 0, 0], 0, count);
      var rel := Release3(f.w);
      ReadKeys3(w, us, count) ==
        if rel.r.Err? then Step(rel.w, Err(rel.r.error))
        else if f.err.Some? then Step(rel.w, Err(f.err.value))
        else Step(rel.w, Ok(f.resp))
  {
    var lo := Drive(Pause(w, us), StbLine, false, Stb);
    SendByteAborts(Pause(lo.w, us), us, COM_DATA_READ);
    var init := SendByte(Pause(lo.w, us), us, COM_DATA_READ);
    var hi := Drive(init.w, DioLine, true, Stb);
    p := Pause(hi.w, us);
  }
}
