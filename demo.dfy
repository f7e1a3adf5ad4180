/**
 * The demonstration loop (`demo.rs`): every step shows the next frame of a
 * cycling slide of all characters the crate defines, followed by a
 * spinner on the last display, and sends the frame to the chip.
 */
module Demo {
  import opened Wire
  import opened Common
  import opened Chars
  import opened Protocol
  import opened Fx
  import Driver

  /** Every character the crate defines, digits first. */
  const CHARS: seq<bv8> := [
    CHAR_0, CHAR_1, CHAR_2, CHAR_3, CHAR_4, CHAR_5, CHAR_6, CHAR_7, CHAR_8, CHAR_9,
    CHAR_A, CHAR_LOWER_A, CHAR_LOWER_B, CHAR_C, CHAR_LOWER_C, CHAR_LOWER_D, CHAR_E,
    CHAR_LOWER_E, CHAR_F, CHAR_G, CHAR_H, CHAR_LOWER_H, CHAR_I, CHAR_LOWER_I, CHAR_J,
    CHAR_L, CHAR_LOWER_L, CHAR_N, CHAR_LOWER_N, CHAR_O, CHAR_LOWER_O, CHAR_P,
    CHAR_LOWER_Q, CHAR_R, CHAR_LOWER_R, CHAR_S, CHAR_LOWER_T, CHAR_U, CHAR_LOWER_U,
    CHAR_LOWER_Y, CHAR_CYR_E, CHAR_CYR_B, CHAR_DEGREE, CHAR_MINUS, CHAR_UNDERSCORE,
    CHAR_BRACKET_LEFT, CHAR_BRACKET_RIGHT]

  /** The spinner's starting pattern: a zero without its top and bottom segments. */
  const SPIN_MASK: bv8 := (CHAR_0 & !SEG_1) & !SEG_4

  /** The slide window: all displays but the last, which holds the spinner, and at least one. */
  function SlideWidth(displays: nat): nat
  {
    if displays <= 1 then 1 else displays - 1
  }

  /** The bytes one demo step shows: the slide frame, then the spinner byte when there is more than one display. */
  function DemoFrame(displays: nat, count: nat, offset: nat): seq<bv8>
    requires offset < 6
  {
    SlideFrame(count, SlideWidth(displays), CHARS)
      + (if displays > 1 then [SpinFrame(MaskOf(SPIN_MASK), true, offset)] else [])
  }

  /**
   * The slide of the demo never runs out: with at most 209 displays its
   * step count stays below 255, so `next_state` never unwraps a missing
   * frame, and the slide count returns to 0 every `SlideWidth + 47` steps.
   */
  lemma DemoNeverStops(displays: nat, count: nat)
    requires displays <= 209 && count <= SlideWidth(displays) + |CHARS| - 1
    ensures !SlideStops(Cycle, count, SlideWidth(displays), CHARS)
    ensures SlideCount(Cycle, count, SlideWidth(displays), CHARS) <= SlideWidth(displays) + |CHARS| - 1
    ensures SlideCount(Cycle, count, SlideWidth(displays), CHARS) ==
      if count == SlideWidth(displays) + |CHARS| - 1 then 0 else count + 1
  {
  }

  /**
   * A demo frame fills the displays exactly at the first step and once the
   * characters have filled the window; while they enter it is longer. It
   * always fits a 2-wire frame of 24 bytes (address command included) when
   * there are at most 12 displays.
   */
  lemma DemoFrameLength(displays: nat, count: nat, offset: nat)
    requires offset < 6
    ensures var n := |DemoFrame(displays, count, offset)|;
      && (count == 0 || count >= SlideWidth(displays) ==> n == if displays <= 1 then 1 else displays)
      && (displays <= 12 ==> 1 + n <= 24)
  {
    SlideFrameLength(count, SlideWidth(displays), CHARS);
  }

  class Demo {
    const spin: Spinner
    const slide: Slide
    const displays: nat
    var iter: nat

    ghost predicate Valid()
      reads this, spin, slide
    {
      && spin.Valid() && spin.cw && spin.mask == MaskOf(SPIN_MASK)
      && slide.Valid() && slide.tp == Cycle && slide.word == CHARS
      && slide.width == SlideWidth(displays)
      && slide.count <= slide.width + |CHARS| - 1
    }

    /** The bytes the next step will show. */
    ghost function Frame(): seq<bv8>
      reads this, spin, slide
      requires Valid()
    {
      DemoFrame(displays, slide.count, spin.offset)
    }

    /** `Demo::new`: a clockwise spinner and a cycling slide of every character, both at their first step. */
    constructor (displays: nat)
      requires displays <= 255
      ensures Valid() && fresh(spin) && fresh(slide)
      ensures this.displays == displays && iter == 0 && slide.count == 0 && spin.offset == 0
    {
      var d := if displays <= 1 then 1 else displays - 1;
      spin := new Spinner(SPIN_MASK, true);
      slide := new Slide(Cycle, d, CHARS);
      this.displays := displays;
      iter := 0;
    }

    /**
     * `Demo::next_state`: the current frame; the slide moves on one step,
     * and the spinner one step when it is shown. The slide must still have a
     * frame, as the source unwraps it (always so with at most 209 displays,
     * by `DemoNeverStops`).
     */
    method NextState() returns (result: seq<bv8>)
      requires Valid() && slide.count < 255
      modifies spin, slide
      ensures Valid()
      ensures result == old(Frame())
      ensures slide.count == SlideCount(Cycle, old(slide.count), slide.width, CHARS)
      ensures spin.offset == if displays > 1 then (old(spin.offset) + 1) % 6 else old(spin.offset)
    {
      var frame := slide.Next();
      result := frame.value;
      if displays > 1 {
        var s := spin.Next();
        result := result + [s.value];
      }
    }

    /** `Demo::next_2wire`: sends the address command and the next frame over the 2-wire bus; the result is ignored. */
    method Next2Wire(pins: Pins, us: nat)
      requires Valid() && slide.count < 255 && 1 + |Frame()| <= 24
      modifies this, spin, slide, pins
      ensures Valid() && iter == old(iter) + 1
      ensures slide.count == SlideCount(Cycle, old(slide.count), slide.width, CHARS)
      ensures spin.offset == if displays > 1 then (old(spin.offset) + 1) % 6 else old(spin.offset)
      ensures pins.State() == SendFrame2(old(pins.State()), us, [COM_ADDRESS] + old(Frame())).w
    {
      var out := NextState();
      var bytes := [COM_ADDRESS] + out;
      var _ := Driver.TmSendBytes2Wire(pins, us, bytes);
      iter := iter + 1;
    }

    /** `Demo::next_3wire`: sends the address command and the next frame over the 3-wire bus; the result is ignored. */
    method Next3Wire(pins: Pins, us: nat)
      requires Valid() && slide.count < 255
      modifies this, spin, slide, pins
      ensures Valid() && iter == old(iter) + 1
      ensures slide.count == SlideCount(Cycle, old(slide.count), slide.width, CHARS)
      ensures spin.offset == if displays > 1 then (old(spin.offset) + 1) % 6 else old(spin.offset)
      ensures pins.State() == SendFrame3(old(pins.State()), us, [COM_ADDRESS] + old(Frame())).w
    {
      var out := NextState();
      var bytes := [COM_ADDRESS] + out;
      var _ := Driver.TmSendBytes3Wire(pins, us, bytes);
      iter := iter + 1;
    }
  }
}
