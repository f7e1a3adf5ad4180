/**
 * The pins of the bus, abstracted into a scripted bus model.
 *
 * Every drive of CLK, DIO or STB, every sample of DIO and every delay is
 * appended to an event log, in order. DIO samples return scripted levels;
 * once the script is used up DIO reads high, as the pull-up resistor leaves
 * an undriven line. A pin operation can be told to fail: the operation whose
 * log index is in `faults` fails, and logs `Failed` instead of its effect.
 * Delays never fail and take no time.
 */
module Wire {
  /** The three signal lines. */
  datatype Line = ClkLine | DioLine | StbLine

  /** One entry of the bus log. */
  datatype Event =
    | Set(line: Line, high: bool)   // a line driven high or low
    | Read(high: bool)              // DIO sampled, with the level seen
    | Wait(us: nat)                 // a call of the delay closure
    | Failed(line: Line)            // a pin operation on `line` that failed

  /** The driver's error type `TmError`. */
  datatype TmError =
    | Dio
    | Ack(code: nat)   // acknowledge failure, tagged with a phase code
    | Clk
    | Stb
    | Input            // invalid caller input

  datatype Result<T> = Ok(value: T) | Err(error: TmError)

  /** The whole observable state of the bus model, as a value. */
  datatype Wire = Wire(log: seq<Event>, input: seq<bool>, faults: set<nat>)

  /** A state after an operation, with the operation's result. */
  datatype Step<T> = Step(w: Wire, r: Result<T>)

  /** The k-th scripted DIO level; high past the end of the script. */
  function Level(input: seq<bool>, k: nat): bool
  {
    if k < |input| then input[k] else true
  }

  /** The script left after k samples. */
  function Drop(input: seq<bool>, k: nat): (rest: seq<bool>)
    ensures forall j: nat :: Level(rest, j) == Level(input, k + j)
  {
    if k <= |input| then input[k..] else []
  }

  /** Drives `line` to `high`; a failure is reported as `e`. */
  function Drive(w: Wire, line: Line, high: bool, e: TmError): Step<()>
  {
    if |w.log| in w.faults then Step(w.(log := w.log + [Failed(line)]), Err(e))
    else Step(w.(log := w.log + [Set(line, high)]), Ok(()))
  }

  /** Samples DIO; a failure is reported as `e`. */
  function Sample(w: Wire, e: TmError): Step<bool>
  {
    if |w.log| in w.faults then Step(w.(log := w.log + [Failed(DioLine)]), Err(e))
    else
      var level := Level(w.input, 0);
      Step(w.(log := w.log + [Read(level)], input := Drop(w.input, 1)), Ok(level))
  }

  /** One call of the delay closure. */
  function Pause(w: Wire, us: nat): Wire
  {
    w.(log := w.log + [Wait(us)])
  }

  /** The bus model object that stands for the DIO, CLK and STB pin handles and the delay closure. */
  class Pins {
    var log: seq<Event>
    var input: seq<bool>
    const faults: set<nat>

    function State(): Wire
      reads this
    {
      Wire(log, input, faults)
    }

    constructor (script: seq<bool>, faults: set<nat>)
      ensures State() == Wire([], script, faults)
    {
      log := [];
      input := script;
      this.faults := faults;
    }

    /** `set_high`/`set_low` on a pin, with the caller's `map_err`. */
    method SetLine(line: Line, high: bool, e: TmError) returns (r: Result<()>)
      modifies this
      ensures Step(State(), r) == Drive(old(State()), line, high, e)
    {
      if |log| in faults {
        log := log + [Failed(line)];
        r := Err(e);
      } else {
        log := log + [Set(line, high)];
        r := Ok(());
      }
    }

    /** `is_high` on DIO, with the caller's `map_err`. */
    method IsHigh(e: TmError) returns (r: Result<bool>)
      modifies this
      ensures Step(State(), r) == Sample(old(State()), e)
    {
      if |log| in faults {
        log := log + [Failed(DioLine)];
        r := Err(e);
      } else {
        var level := Level(input, 0);
        log := log + [Read(level)];
        input := Drop(input, 1);
        r := Ok(level);
      }
    }

    /** The delay closure `delay_us(us)`. */
    method Delay(us: nat)
      modifies this
      ensures State() == Pause(old(State()), us)
    {
      log := log + [Wait(us)];
    }
  }
}
