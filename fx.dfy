/**
 * Display animations (`fx.rs`): a spinner that rotates a pattern of the
 * six outer segments of one digit, and a slide that scrolls a word through
 * a window of display positions.
 */
module Fx {
  import opened Common
  import opened Chars
  import opened Protocol
  import ProtocolProofs

  /** The six outer segments, in order round the digit. */
  const CIRCLE: seq<bv8> := [SEG_1, SEG_2, SEG_3, SEG_4, SEG_5, SEG_6]

  // ---------------------------------------------------------------------
  // Spinner

  /** Which segments of `initial` the spinner starts with lit: segment s exactly when bit s is set. */
  function MaskOf(initial: bv8): (mask: seq<bool>)
    ensures |mask| == 6
    ensures forall s | 0 <= s < 6 :: mask[s] == Bit(initial, s)
  {
    seq(6, s requires 0 <= s < 6 => CIRCLE[s] & initial != 0)
  }

  /** The mask position shown at segment i when the spinner is at offset k. */
  function Source(cw: bool, k: nat, i: nat): (j: nat)
    requires k < 6 && i < 6
    ensures j < 6
  {
    if cw then (6 + i - k) % 6 else (i + k) % 6
  }

  /** The mask as shown at offset k: position i holds the mask entry that segment i displays. */
  function Rotated(mask: seq<bool>, cw: bool, k: nat): (r: seq<bool>)
    requires |mask| == 6 && k < 6
    ensures |r| == 6
  {
    seq(6, i requires 0 <= i < 6 => mask[Source(cw, k, i)])
  }

  /** The segments 0..i-1 of `lit` that are set, as a byte. */
  function Segs(lit: seq<bool>, i: nat): bv8
    requires |lit| == 6 && i <= 6
  {
    if i == 0 then 0 else Segs(lit, i - 1) | (if lit[i - 1] then CIRCLE[i - 1] else 0)
  }

  /** The byte a spinner at offset k shows. */
  function SpinFrame(mask: seq<bool>, cw: bool, k: nat): bv8
    requires |mask| == 6 && k < 6
  {
    Segs(Rotated(mask, cw, k), 6)
  }

  lemma BitOfOrCircle(x: bv8, i: nat, j: nat)
    requires i < 6 && j < 8
    ensures Bit(x | CIRCLE[i], j) == (Bit(x, j) || i == j)
  {
  }

  lemma {:induction false} SegsBits(lit: seq<bool>, i: nat, j: nat)
    requires |lit| == 6 && i <= 6 && j < 8
    ensures Bit(Segs(lit, i), j) == (j < i && lit[j])
  {
    if i > 0 {
      SegsBits(lit, i - 1, j);
      if lit[i - 1] {
        BitOfOrCircle(Segs(lit, i - 1), i - 1, j);
      }
    }
  }

  /**
   * Segment i of a spinner frame is lit exactly when the mask entry the
   * rotation brings to it is set; the two top bits are never set.
   */
  lemma SpinFrameBits(mask: seq<bool>, cw: bool, k: nat, i: nat)
    requires |mask| == 6 && k < 6 && i < 8
    ensures Bit(SpinFrame(mask, cw, k), i) == (i < 6 && mask[Source(cw, k, i)])
    ensures SpinFrame(mask, cw, k) & 0xC0 == 0
  {
    SegsBits(Rotated(mask, cw, k), 6, i);
    SegsBits(Rotated(mask, cw, k), 6, 6);
    SegsBits(Rotated(mask, cw, k), 6, 7);
    var f := SpinFrame(mask, cw, k);
    assert !Bit(f, 6) && !Bit(f, 7);
  }

  /** The rotation of the mask is a cyclic shift of it. */
  lemma RotatedIsShift(mask: seq<bool>, cw: bool, k: nat)
    requires |mask| == 6 && k < 6
    ensures var r := if cw then (6 - k) % 6 else k;
      Rotated(mask, cw, k) == mask[r..] + mask[..r]
  {
  }

  /**
   * A spinner frame lights as many segments as the mask holds: the six
   * segment bits of the frame are a rotation of the mask.
   */
  lemma SpinFrameCount(mask: seq<bool>, cw: bool, k: nat)
    requires |mask| == 6 && k < 6
    ensures var bits := seq(6, i requires 0 <= i < 6 => Bit(SpinFrame(mask, cw, k), i));
      multiset(bits) == multiset(mask)
  {
    var bits := seq(6, i requires 0 <= i < 6 => Bit(SpinFrame(mask, cw, k), i));
    forall i | 0 <= i < 6
      ensures bits[i] == Rotated(mask, cw, k)[i]
    {
      SpinFrameBits(mask, cw, k, i);
    }
    assert bits == Rotated(mask, cw, k);
    RotatedIsShift(mask, cw, k);
    var r := if cw then (6 - k) % 6 else k;
    assert mask == mask[..r] + mask[r..];
  }

  /** A clockwise spinner at offset k shows what a counter-clockwise one shows at offset (6 - k) % 6. */
  lemma SpinDirection(mask: seq<bool>, k: nat)
    requires |mask| == 6 && k < 6
    ensures SpinFrame(mask, true, k) == SpinFrame(mask, false, (6 - k) % 6)
  {
    assert Rotated(mask, true, k) == Rotated(mask, false, (6 - k) % 6);
  }

  /** The first frame of a new spinner, in either direction, is its initial mask without the top two bits. */
  lemma SpinFirstFrame(initial: bv8, cw: bool)
    ensures SpinFrame(MaskOf(initial), cw, 0) == initial & 0x3F
  {
    var f := SpinFrame(MaskOf(initial), cw, 0);
    forall i | 0 <= i < 8
      ensures Bit(f, i) == Bit(initial & 0x3F, i)
    {
      SpinFrameBits(MaskOf(initial), cw, 0, i);
      LowBits(initial, i);
    }
    ProtocolProofs.BitsDetermineByte(f, initial & 0x3F);
  }

  lemma LowBits(b: bv8, i: nat)
    requires i < 8
    ensures Bit(b & 0x3F, i) == (i < 6 && Bit(b, i))
  {
  }

  /** The offset of a spinner after n frames from offset 0. */
  function OffsetAfter(n: nat): (k: nat)
    ensures k < 6
  {
    if n == 0 then 0 else (OffsetAfter(n - 1) + 1) % 6
  }

  /** Spinner frames repeat with period 6: after n frames the offset is n mod 6. */
  lemma SpinPeriod(n: nat)
    ensures OffsetAfter(n) == n % 6
    ensures OffsetAfter(n + 6) == OffsetAfter(n)
  {
    OffsetAfterMod(n);
    OffsetAfterMod(n + 6);
  }

  lemma {:induction false} OffsetAfterMod(n: nat)
    ensures OffsetAfter(n) == n % 6
  {
    if n > 0 {
      OffsetAfterMod(n - 1);
    }
  }

  class Spinner {
    var offset: nat
    const cw: bool
    const mask: seq<bool>

    ghost predicate Valid()
      reads this
    {
      offset < 6 && |mask| == 6
    }

    /** `Spinner::new`: segment s lit exactly when bit s of `initial` is set; bits 6 and 7 are ignored. */
    constructor (initial: bv8, clockwise: bool)
      ensures Valid() && offset == 0 && cw == clockwise && mask == MaskOf(initial)
    {
      ghost var m := MaskOf(initial);
      var init := new bool[6](_ => false);
      for s := 0 to 6
        invariant forall t | 0 <= t < 6 :: init[t] == (t < s && m[t])
      {
        assert m[s] == (CIRCLE[s] & initial != 0);
        if CIRCLE[s] & initial != 0 {
          init[s] := true;
        }
      }
      assert init[..] == m;
      offset := 0;
      cw := clockwise;
      mask := init[..];
    }

    /** `Spinner::next`: always a frame; the offset moves on by one, modulo 6. */
    method Next() returns (r: Option<bv8>)
      requires Valid()
      modifies this
      ensures Valid()
      ensures r == Some(SpinFrame(mask, cw, old(offset)))
      ensures offset == (old(offset) + 1) % 6
    {
      var res: bv8 := 0;
      var lit := Rotated(mask, cw, offset);
      for i := 0 to 6
        invariant res == Segs(lit, i)
      {
        var ii := if cw then (6 + i - offset) % 6 else (i + offset) % 6;
        assert ii == Source(cw, offset, i) && lit[i] == mask[ii];
        if mask[ii] {
          res := res | CIRCLE[i];
        }
      }
      offset := (offset + 1) % 6;
      return Some(res);
    }
  }

  // ---------------------------------------------------------------------
  // Slide

  /** When a slide stops: at the first character leaving the window, after the last one, or never. */
  datatype SlideType = StopAtFirstChar | StopAfterLastChar | Cycle

  function Min(a: nat, b: nat): nat
  {
    if a < b then a else b
  }

  function Zeros(n: nat): (z: seq<bv8>)
    ensures |z| == n && forall i | 0 <= i < n :: z[i] == 0
  {
    seq(n, _ => 0)
  }

  /** How many characters of the word have left the window: the step count beyond the width. */
  function OffIn(count: nat, width: nat): nat
  {
    if count > width then count - width else 0
  }

  /** Whether `Slide::next` returns no frame at step `count`. */
  predicate SlideStops(tp: SlideType, count: nat, width: nat, word: seq<bv8>)
  {
    || count == 255
    || (tp == StopAtFirstChar && OffIn(count, width) > 0)
    || (tp == StopAfterLastChar && OffIn(count, width) >= |word|)
  }

  /**
   * The frame `Slide::next` builds at step `count`: blanks for the
   * positions the word has not reached yet, then the part of the word from
   * `OffIn` up to position `width` of the word, then blanks up to the width.
   */
  function SlideFrame(count: nat, width: nat, word: seq<bv8>): seq<bv8>
  {
    var lead := if width > count then width - count else 0;
    var offIn := OffIn(count, width);
    var lenIn := if offIn > width then 0 else width - offIn;
    var shown := if lead < width && offIn < |word| then word[offIn..Min(offIn + lenIn, |word|)] else [];
    var out := Zeros(lead) + shown;
    if |out| < width then out + Zeros(width - |out|) else out
  }

  /** The step count after a frame: one more, or back to 0 in a cycle once the last character has entered. */
  function SlideCount(tp: SlideType, count: nat, width: nat, word: seq<bv8>): nat
  {
    if OffIn(count, width) + 1 >= |word| && tp == Cycle then 0 else count + 1
  }

  /**
   * Frame length: never shorter than the window, exactly the window at the
   * first step and once the word has fully entered, and longer while the
   * word enters (the blanks ahead of it plus up to `width` characters).
   */
  lemma SlideFrameLength(count: nat, width: nat, word: seq<bv8>)
    ensures var f := SlideFrame(count, width, word);
      && |f| >= width
      && (count == 0 || count >= width ==> |f| == width)
      && (0 < count < width ==> |f| == width - count + (if count < Min(width, |word|) then Min(width, |word|) else count))
      && |f| <= 2 * width
  {
  }

  /** The first frame is blank. */
  lemma SlideFrameFirst(width: nat, word: seq<bv8>)
    ensures SlideFrame(0, width, word) == Zeros(width)
  {
  }

  /**
   * While the word enters (0 < count < width) a frame is `width - count`
   * blanks, then the first `Min(width, |word|)` characters of the word.
   */
  lemma SlideFrameEntering(count: nat, width: nat, word: seq<bv8>)
    requires 0 < count < width
    ensures var f := SlideFrame(count, width, word);
      && (forall j | 0 <= j < width - count :: f[j] == 0)
      && (forall j | 0 <= j < Min(width, |word|) :: f[width - count + j] == word[j])
  {
  }

  /**
   * Once count >= width, position j of the window shows character
   * `OffIn + j` of the word when that character is before both the end of
   * the word and position `width` of it, and a blank otherwise.
   */
  lemma SlideFrameWindow(count: nat, width: nat, word: seq<bv8>, j: nat)
    requires count >= width && j < width
    ensures SlideFrame(count, width, word)[j] ==
      if OffIn(count, width) + j < Min(width, |word|) then word[OffIn(count, width) + j] else 0
  {
    var offIn := OffIn(count, width);
    var f := SlideFrame(count, width, word);
    if offIn < Min(width, |word|) {
      var shown := word[offIn..Min(width, |word|)];
      assert f == shown + Zeros(width - |shown|);
    } else {
      assert f == Zeros(width);
    }
  }

  /** The step count after n calls of `Slide::next` from step `count`; a call that returns no frame changes nothing. */
  function SlideAfter(tp: SlideType, width: nat, word: seq<bv8>, count: nat, n: nat): nat
    decreases n
  {
    if n == 0 then count
    else SlideAfter(tp, width, word, if SlideStops(tp, count, width, word) then count else SlideCount(tp, count, width, word), n - 1)
  }

  /** Once a slide returns no frame, every later call returns none either. */
  lemma {:induction false} SlideStopsForever(tp: SlideType, width: nat, word: seq<bv8>, count: nat, n: nat)
    requires SlideStops(tp, count, width, word)
    ensures SlideAfter(tp, width, word, count, n) == count
  {
    if n > 0 {
      SlideStopsForever(tp, width, word, count, n - 1);
    }
  }

  lemma {:induction false} SlideAfterSplit(tp: SlideType, width: nat, word: seq<bv8>, count: nat, a: nat, b: nat)
    ensures SlideAfter(tp, width, word, count, a + b) == SlideAfter(tp, width, word, SlideAfter(tp, width, word, count, a), b)
    decreases a
  {
    if a > 0 {
      var next := if SlideStops(tp, count, width, word) then count else SlideCount(tp, count, width, word);
      SlideAfterSplit(tp, width, word, next, a - 1, b);
    }
  }

  /** Steps c..c+n-1 all give frames and count up, as long as no reset or stop is due before `limit`. */
  lemma {:induction false} SlideCountsUp(tp: SlideType, width: nat, word: seq<bv8>, c: nat, n: nat, limit: nat)
    requires c + n <= limit
    requires forall k | c <= k < limit :: !SlideStops(tp, k, width, word) && SlideCount(tp, k, width, word) == k + 1
    ensures SlideAfter(tp, width, word, c, n) == c + n
    decreases n
  {
    if n > 0 {
      SlideCountsUp(tp, width, word, c + 1, n - 1, limit);
    }
  }

  /** A `StopAtFirstChar` slide shows `width + 1` frames, then stops. */
  lemma SlideStopAtFirstChar(width: nat, word: seq<bv8>, n: nat)
    requires width < 255
    ensures SlideAfter(StopAtFirstChar, width, word, 0, n) == Min(n, width + 1)
    ensures SlideStops(StopAtFirstChar, width + 1, width, word)
  {
    SlideCountsUp(StopAtFirstChar, width, word, 0, Min(n, width + 1), width + 1);
    if n > width + 1 {
      SlideAfterSplit(StopAtFirstChar, width, word, 0, width + 1, n - (width + 1));
      SlideStopsForever(StopAtFirstChar, width, word, width + 1, n - (width + 1));
    }
  }

  /** A `StopAfterLastChar` slide of a non-empty word shows `width + |word|` frames, then stops. */
  lemma SlideStopAfterLastChar(width: nat, word: seq<bv8>, n: nat)
    requires |word| > 0 && width + |word| <= 255
    ensures SlideAfter(StopAfterLastChar, width, word, 0, n) == Min(n, width + |word|)
    ensures SlideStops(StopAfterLastChar, width + |word|, width, word)
  {
    var p := width + |word|;
    SlideCountsUp(StopAfterLastChar, width, word, 0, Min(n, p), p);
    if n > p {
      SlideAfterSplit(StopAfterLastChar, width, word, 0, p, n - p);
      SlideStopsForever(StopAfterLastChar, width, word, p, n - p);
    }
  }

  /**
   * A `Cycle` slide of a word of at least two characters never stops while
   * `width + |word| <= 255`, and its step count comes back to 0 after
   * `width + |word|` frames: the frames repeat with that period.
   */
  lemma SlideCyclePeriod(width: nat, word: seq<bv8>, n: nat)
    requires |word| >= 2 && width + |word| <= 255
    ensures n < width + |word| ==> SlideAfter(Cycle, width, word, 0, n) == n
    ensures n < width + |word| ==> !SlideStops(Cycle, n, width, word)
    ensures SlideAfter(Cycle, width, word, 0, width + |word|) == 0
    ensures SlideAfter(Cycle, width, word, 0, n + width + |word|) == SlideAfter(Cycle, width, word, 0, n)
  {
    var p := width + |word|;
    SlideCountsUp(Cycle, width, word, 0, p - 1, p - 1);
    if n < p {
      SlideCountsUp(Cycle, width, word, 0, n, p - 1);
    }
    SlideAfterSplit(Cycle, width, word, 0, p - 1, 1);
    assert SlideAfter(Cycle, width, word, p - 1, 1) == SlideAfter(Cycle, width, word, 0, 0);
    SlideAfterSplit(Cycle, width, word, 0, p, n);
  }

  /**
   * A `Cycle` slide of a word of at most one character goes back to step 0
   * after every frame: it never stops, and every frame it shows is blank, so
   * the character itself never appears.
   */
  lemma {:induction false} SlideCycleShort(width: nat, word: seq<bv8>, n: nat)
    requires |word| <= 1
    ensures SlideAfter(Cycle, width, word, 0, n) == 0
    ensures !SlideStops(Cycle, SlideAfter(Cycle, width, word, 0, n), width, word)
    ensures SlideFrame(SlideAfter(Cycle, width, word, 0, n), width, word) == Zeros(width)
    decreases n
  {
    assert SlideCount(Cycle, 0, width, word) == 0;
    if n > 0 {
      SlideCycleShort(width, word, n - 1);
    }
    SlideFrameFirst(width, word);
  }

  /** Pushes n blanks onto `out`. */
  method PushZeros(out: seq<bv8>, n: nat) returns (res: seq<bv8>)
    ensures res == out + Zeros(n)
  {
    res := out;
    for k := 0 to n
      invariant res == out + Zeros(k)
    {
      res := res + [0];
    }
  }

  /** Pushes the characters of `word` at positions offIn .. offIn + lenIn - 1 onto `out`, in order. */
  method PushWindow(out: seq<bv8>, word: seq<bv8>, offIn: nat, lenIn: nat) returns (res: seq<bv8>)
    ensures res == out + word[Min(offIn, |word|)..Min(offIn + lenIn, |word|)]
  {
    res := out;
    for i := 0 to |word|
      invariant res == out + word[Min(offIn, i)..Min(offIn + lenIn, i)]
    {
      if i < offIn || i >= offIn + lenIn {
        continue;
      }
      res := res + [word[i]];
    }
  }

  class Slide {
    const tp: SlideType
    var count: nat
    const width: nat
    const word: seq<bv8>

    ghost predicate Valid()
      reads this
    {
      count <= 255 && width <= 255
    }

    /** `Slide::new`: a copy of the word, at step 0. */
    constructor (slideType: SlideType, displays: nat, bytes: seq<bv8>)
      requires displays <= 255
      ensures Valid() && tp == slideType && count == 0 && width == displays && word == bytes
    {
      var w: seq<bv8> := [];
      for i := 0 to |bytes|
        invariant w == bytes[..i]
      {
        w := w + [bytes[i]];
      }
      tp := slideType;
      count := 0;
      width := displays;
      word := w;
    }

    /** `Slide::next`. */
    method Next() returns (r: Option<seq<bv8>>)
      requires Valid()
      modifies this
      ensures Valid()
      ensures r == if SlideStops(tp, old(count), width, word) then None else Some(SlideFrame(old(count), width, word))
      ensures count == if r.None? then old(count) else SlideCount(tp, old(count), width, word)
    {
      if count == 255 {
        return None;
      }
      var out: seq<bv8> := [];
      var offOut: int := width - count;
      if offOut > 0 {
        out := PushZeros(out, offOut);
      }
      var offIn: nat := if offOut < 0 then -offOut else 0;
      if offIn > 0 && tp == StopAtFirstChar {
        return None;
      }
      var lenIn: nat := if offIn > width then 0 else width - offIn;
      if offIn >= |word| && tp == StopAfterLastChar {
        return None;
      }
      ghost var lead := if width > count then width - count else 0;
      assert out == Zeros(lead);
      if |out| < width && offIn < |word| {
        out := PushWindow(out, word, offIn, lenIn);
      }
      assert out == Zeros(lead) + (if lead < width && offIn < |word| then word[offIn..Min(offIn + lenIn, |word|)] else []);
      if |out| < width {
        out := PushZeros(out, width - |out|);
      }
      count := count + 1;
      if offIn + 1 >= |word| && tp == Cycle {
        count := 0;
      }
      return Some(out);
    }
  }
}
