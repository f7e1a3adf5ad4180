/**
 * Seven-segment byte buffers and integer formatting (`utils.rs`).
 *
 * `IntConvertResult` is an 11-byte array whose contents are the bytes from
 * `offset` to the end; bytes are added in front by moving the offset down,
 * and at the back by shifting the contents one place towards the front.
 */
module Utils {
  import opened Common
  import opened Chars

  /** Capacity of an integer conversion buffer: a sign and ten digits. */
  const INT_CONVERT_MAX_SIZE: nat := 11

  // ---------------------------------------------------------------------
  // Decimal digits and their segment patterns

  type Digit = d: nat | d < 10

  /** The decimal digits of n, most significant first; none for 0. */
  function DecimalDigits(n: nat): (ds: seq<Digit>)
    ensures n > 0 ==> |ds| > 0 && ds[0] != 0
  {
    if n == 0 then [] else DecimalDigits(n / 10) + [n % 10]
  }

  /** The number the digits ds spell, most significant first. */
  function DigitsValue(ds: seq<Digit>): nat
  {
    if ds == [] then 0 else DigitsValue(ds[..|ds| - 1]) * 10 + ds[|ds| - 1]
  }

  /** Reading back the digits of n gives n. */
  lemma {:induction false} DecimalDigitsValue(n: nat)
    ensures DigitsValue(DecimalDigits(n)) == n
  {
    if n > 0 {
      var ds := DecimalDigits(n);
      assert ds[..|ds| - 1] == DecimalDigits(n / 10);
      DecimalDigitsValue(n / 10);
    }
  }

  /** A number below 10^k has at most k digits. */
  lemma {:induction false} DecimalDigitsLength(n: nat, k: nat, bound: nat)
    requires bound == Pow10(k) && n < bound
    ensures |DecimalDigits(n)| <= k
  {
    if n > 0 {
      assert k > 0;
      DecimalDigitsLength(n / 10, k - 1, Pow10(k - 1));
    }
  }

  function Pow10(k: nat): (p: nat)
    ensures p >= 1
  {
    if k == 0 then 1 else 10 * Pow10(k - 1)
  }

  /** The segment patterns of the digits ds. */
  function Segments(ds: seq<Digit>): (s: seq<bv8>)
    ensures |s| == |ds|
    ensures forall i | 0 <= i < |ds| :: s[i] == DIGITS[ds[i]]
  {
    seq(|ds|, i requires 0 <= i < |ds| => DIGITS[ds[i]])
  }

  lemma SegmentsAppend(a: seq<Digit>, b: seq<Digit>)
    ensures Segments(a + b) == Segments(a) + Segments(b)
  {
  }

  /**
   * What `int_to_bytes` shows for value: the patterns of the decimal digits
   * of |value|, most significant first, after a minus sign when value is
   * negative; a single zero for 0.
   */
  function IntSegments(value: int): (s: seq<bv8>)
  {
    if value == 0 then [DIGITS[0]]
    else if value < 0 then [CHAR_MINUS] + Segments(DecimalDigits(-value))
    else Segments(DecimalDigits(value))
  }

  /** The digit whose pattern is seg, if any. */
  function DigitOf(seg: bv8): Option<Digit>
  {
    if seg == DIGITS[0] then Some(0)
    else if seg == DIGITS[1] then Some(1)
    else if seg == DIGITS[2] then Some(2)
    else if seg == DIGITS[3] then Some(3)
    else if seg == DIGITS[4] then Some(4)
    else if seg == DIGITS[5] then Some(5)
    else if seg == DIGITS[6] then Some(6)
    else if seg == DIGITS[7] then Some(7)
    else if seg == DIGITS[8] then Some(8)
    else if seg == DIGITS[9] then Some(9)
    else None
  }

  /** The ten digit patterns are distinct, and none is the minus sign. */
  lemma DigitOfDigits(d: Digit)
    ensures DigitOf(DIGITS[d]) == Some(d)
    ensures DIGITS[d] != CHAR_MINUS
  {
  }

  /** The digits whose patterns are segs, if every byte is a digit pattern. */
  function DigitsOf(segs: seq<bv8>): Option<seq<Digit>>
  {
    if segs == [] then Some([])
    else match (DigitsOf(segs[..|segs| - 1]), DigitOf(segs[|segs| - 1]))
      case (Some(ds), Some(d)) => Some(ds + [d])
      case _ => None
  }

  lemma {:induction false} DigitsOfSegments(ds: seq<Digit>)
    ensures DigitsOf(Segments(ds)) == Some(ds)
  {
    if ds != [] {
      var s := Segments(ds);
      assert s[..|s| - 1] == Segments(ds[..|ds| - 1]);
      DigitsOfSegments(ds[..|ds| - 1]);
      DigitOfDigits(ds[|ds| - 1]);
      assert ds[..|ds| - 1] + [ds[|ds| - 1]] == ds;
    }
  }

  /** Reads a number back from a display: an optional minus sign, then digit patterns. */
  function ParseSegments(s: seq<bv8>): Option<int>
  {
    if s == [] then None else
    var negative := s[0] == CHAR_MINUS;
    match DigitsOf(if negative then s[1..] else s)
    case Some(ds) =>
      if ds == [] then None
      else if negative then Some(-(DigitsValue(ds) as int))
      else Some(DigitsValue(ds))
    case None => None
  }

  /**
   * The display `int_to_bytes` produces reads back as the value: the sign
   * and every digit are recoverable. It never has more than 11 bytes.
   */
  lemma IntSegmentsRoundTrip(value: int)
    requires -0x8000_0000 < value < 0x8000_0000
    ensures ParseSegments(IntSegments(value)) == Some(value)
    ensures 1 <= |IntSegments(value)| <= INT_CONVERT_MAX_SIZE
    ensures IntSegments(value)[0] == CHAR_MINUS <==> value < 0
  {
    if value == 0 {
      ZeroSegments();
    } else {
      var a: nat := if value < 0 then -value else value;
      DecimalDigitsLength(a, 10, Pow10(10));
      PositiveSegments(a);
      if value < 0 {
        ParseNegative(Segments(DecimalDigits(a)), DecimalDigits(a));
      }
    }
  }

  /** A lone zero pattern reads back as 0. */
  lemma ZeroSegments()
    ensures ParseSegments([DIGITS[0]]) == Some(0)
  {
    DigitOfDigits(0);
    var zero: seq<Digit> := [0];
    assert DigitsOf([DIGITS[0]]) == Some(zero) by {
      assert [DIGITS[0]][..0] == [];
      assert DigitsOf([]) == Some([]);
      assert [] + zero == zero;
    }
    assert DigitsValue(zero) == 0 by {
      assert zero[..0] == [];
    }
  }

  /** A minus sign followed by the patterns of non-empty digits ds reads back as minus their value. */
  lemma ParseNegative(body: seq<bv8>, ds: seq<Digit>)
    requires DigitsOf(body) == Some(ds) && ds != []
    ensures ParseSegments([CHAR_MINUS] + body) == Some(-(DigitsValue(ds) as int))
  {
    var s := [CHAR_MINUS] + body;
    assert s[1..] == body;
  }

  /** The digit patterns of a positive number read back as that number; the first is not a minus sign. */
  lemma PositiveSegments(a: nat)
    requires a > 0
    ensures var s := Segments(DecimalDigits(a));
      && |s| > 0 && s[0] != CHAR_MINUS
      && DigitsOf(s) == Some(DecimalDigits(a))
      && DigitsValue(DecimalDigits(a)) == a
  {
    DecimalDigitsValue(a);
    DigitsOfSegments(DecimalDigits(a));
    DigitOfDigits(DecimalDigits(a)[0]);
  }

  // ---------------------------------------------------------------------
  // IntConvertResult

  class IntConvertResult {
    var offset: nat
    const bytes: array<bv8>

    ghost predicate Valid()
      reads this
    {
      bytes.Length == INT_CONVERT_MAX_SIZE && offset <= INT_CONVERT_MAX_SIZE
    }

    /** `deref`: the bytes from the offset to the end of the array. */
    function View(): (v: seq<bv8>)
      requires Valid()
      reads this, bytes
      ensures |v| == INT_CONVERT_MAX_SIZE - offset
    {
      bytes[offset..]
    }

    /** `len`: the number of bytes held. */
    function Len(): (n: nat)
      requires Valid()
      reads this, bytes
      ensures n == |View()| && n <= INT_CONVERT_MAX_SIZE
    {
      INT_CONVERT_MAX_SIZE - offset
    }

    /** `is_empty`. */
    function IsEmpty(): (e: bool)
      requires Valid()
      reads this, bytes
      ensures e <==> View() == []
    {
      Len() == 0
    }

    /**
     * `last`: the final array byte, which is the last byte held when the
     * buffer is not empty.
     */
    function Last(): (b: bv8)
      requires Valid()
      reads this, bytes
      ensures View() != [] ==> b == View()[|View()| - 1]
    {
      bytes[INT_CONVERT_MAX_SIZE - 1]
    }

    /** `new`: an empty buffer of zero bytes. */
    constructor ()
      ensures Valid() && View() == [] && fresh(bytes)
      ensures bytes[..] == seq(INT_CONVERT_MAX_SIZE, _ => 0)
    {
      offset := INT_CONVERT_MAX_SIZE;
      bytes := new bv8[INT_CONVERT_MAX_SIZE](_ => 0);
    }

    /** `set_last`: overwrites the final array byte, that is the last byte held, if any. */
    method SetLast(b: bv8)
      requires Valid()
      modifies bytes
      ensures Valid() && offset == old(offset)
      ensures bytes[..] == old(bytes[..])[INT_CONVERT_MAX_SIZE - 1 := b]
      ensures View() == if old(View()) == [] then [] else old(View())[..|old(View())| - 1] + [b]
    {
      bytes[INT_CONVERT_MAX_SIZE - 1] := b;
    }

    /** `add_first`: puts b in front of the contents; a full buffer is left as it is. */
    method AddFirst(b: bv8)
      requires Valid()
      modifies this, bytes
      ensures Valid()
      ensures offset == if old(offset) == 0 then 0 else old(offset) - 1
      ensures bytes[..offset] == old(bytes[..])[..offset]
      ensures View() == if old(offset) == 0 then old(View()) else [b] + old(View())
    {
      if offset == 0 {
        return;
      }
      offset := offset - 1;
      bytes[offset] := b;
    }

    /**
     * `add_last`: moves the contents one place towards the front and puts b
     * at the end; a full buffer is left as it is.
     */
    method AddLast(b: bv8)
      requires Valid()
      modifies this, bytes
      ensures Valid()
      ensures offset == if old(offset) == 0 then 0 else old(offset) - 1
      ensures bytes[..offset] == old(bytes[..])[..offset]
      ensures View() == if old(offset) == 0 then old(View()) else old(View()) + [b]
    {
      if offset == 0 {
        return;
      }
      offset := offset - 1;
      var i := offset;
      while i < INT_CONVERT_MAX_SIZE - 1
        invariant offset == old(offset) - 1 && offset <= i <= INT_CONVERT_MAX_SIZE - 1
        invariant bytes[..offset] == old(bytes[..])[..offset]
        invariant bytes[offset..i] == old(bytes[..])[offset + 1..i + 1]
        invariant bytes[i..] == old(bytes[..])[i..]
      {
        bytes[i] := bytes[i + 1];
        i := i + 1;
      }
      ghost var moved := bytes[offset..INT_CONVERT_MAX_SIZE - 1];
      assert moved == old(bytes[..])[offset + 1..];
      bytes[INT_CONVERT_MAX_SIZE - 1] := b;
      assert bytes[offset..INT_CONVERT_MAX_SIZE - 1] == moved;
      assert View() == moved + [b];
      assert old(View()) == old(bytes[..])[offset + 1..];
    }

    /**
     * `remove_last`: moves the contents but the last byte one place towards
     * the end; an empty buffer is left as it is.
     */
    method RemoveLast()
      requires Valid()
      modifies this, bytes
      ensures Valid()
      ensures offset == if old(offset) == INT_CONVERT_MAX_SIZE then old(offset) else old(offset) + 1
      ensures bytes[..offset] == old(bytes[..])[..offset]
      ensures View() == if old(View()) == [] then [] else old(View())[..|old(View())| - 1]
    {
      if IsEmpty() {
        return;
      }
      if Len() > 1 {
        var i := INT_CONVERT_MAX_SIZE - 1;
        while i > offset
          invariant offset == old(offset) && offset <= i <= INT_CONVERT_MAX_SIZE - 1
          invariant bytes[..i + 1] == old(bytes[..i + 1])
          invariant bytes[i + 1..] == old(bytes[i..INT_CONVERT_MAX_SIZE - 1])
        {
          bytes[i] := bytes[i - 1];
          i := i - 1;
        }
      }
      offset := offset + 1;
    }
  }

  /**
   * `int_to_bytes`: the digits of |value| are put in front one by one,
   * least significant first, then the minus sign; 0 shows as one zero.
   */
  method IntToBytes(value: int) returns (result: IntConvertResult)
    requires -0x8000_0000 < value < 0x8000_0000
    ensures fresh(result) && fresh(result.bytes) && result.Valid()
    ensures result.View() == IntSegments(value)
  {
    result := new IntConvertResult();
    var a: nat := if value < 0 then -value else value;
    DecimalDigitsLength(a, 10, Pow10(10));
    var v := a;
    while v > 0
      invariant fresh(result) && fresh(result.bytes) && result.Valid()
      invariant Segments(DecimalDigits(v)) + result.View() == Segments(DecimalDigits(a))
      invariant |DecimalDigits(v)| + |result.View()| <= 10
      decreases v
    {
      ghost var before := result.View();
      DigitStep(v);
      result.AddFirst(DIGITS[v % 10]);
      assert Segments(DecimalDigits(v / 10)) + result.View() == Segments(DecimalDigits(v)) + before;
      v := v / 10;
    }
    assert result.View() == Segments(DecimalDigits(a));
    if value < 0 {
      result.AddFirst(CHAR_MINUS);
    }
    if result.IsEmpty() {
      result.AddFirst(DIGITS[0]);
    }
  }

  /** The last digit of v comes off first. */
  lemma DigitStep(v: nat)
    requires v > 0
    ensures Segments(DecimalDigits(v)) == Segments(DecimalDigits(v / 10)) + [DIGITS[v % 10]]
    ensures |DecimalDigits(v)| == |DecimalDigits(v / 10)| + 1
  {
    SegmentsAppend(DecimalDigits(v / 10), [v % 10]);
  }

  // ---------------------------------------------------------------------
  // DoubleConvertResult

  /** Twice the capacity of an integer buffer: a whole part and a fraction. */
  const DOUBLE_CONVERT_MAX_SIZE: nat := INT_CONVERT_MAX_SIZE * 2

  class DoubleConvertResult {
    const offset: nat
    const bytes: array<bv8>

    ghost predicate Valid()
      reads this
    {
      bytes.Length == DOUBLE_CONVERT_MAX_SIZE && offset <= DOUBLE_CONVERT_MAX_SIZE
    }

    /** `deref`: the bytes from the offset to the end of the array. */
    function View(): (v: seq<bv8>)
      requires Valid()
      reads this, bytes
      ensures |v| == DOUBLE_CONVERT_MAX_SIZE - offset
    {
      bytes[offset..]
    }

    /**
     * `new`: head followed by tail, placed at the end of the array; if they
     * do not fit together, the result is empty.
     */
    constructor (head: seq<bv8>, tail: seq<bv8>)
      ensures Valid() && fresh(bytes)
      ensures View() == if |head| + |tail| <= DOUBLE_CONVERT_MAX_SIZE then head + tail else []
    {
      var off := DOUBLE_CONVERT_MAX_SIZE;
      var a := new bv8[DOUBLE_CONVERT_MAX_SIZE](_ => 0);
      var len := |head| + |tail|;
      if len <= DOUBLE_CONVERT_MAX_SIZE {
        off := off - len;
        var idx := off;
        for i := 0 to |head|
          invariant idx == off + i
          invariant a[off..idx] == head[..i]
        {
          a[idx] := head[i];
          idx := idx + 1;
        }
        for i := 0 to |tail|
          invariant idx == off + |head| + i
          invariant a[off..idx] == head + tail[..i]
        {
          a[idx] := tail[i];
          idx := idx + 1;
        }
        assert idx == DOUBLE_CONVERT_MAX_SIZE;
        assert tail[..|tail|] == tail;
      }
      offset := off;
      bytes := a;
    }
  }

  // ---------------------------------------------------------------------
  // double_bytes

  /** The bytes at even positions of s: what `double_bytes` interleaved zeros with. */
  function EvenBytes(s: seq<bv8>): (e: seq<bv8>)
    ensures |e| == (|s| + 1) / 2
  {
    seq((|s| + 1) / 2, i requires 0 <= i < (|s| + 1) / 2 => s[2 * i])
  }

  /**
   * `double_bytes`: every input byte followed by a zero byte, as the TM1638
   * takes two bytes per display position.
   */
  method DoubleBytes(input: seq<bv8>) returns (out: seq<bv8>)
    ensures |out| == 2 * |input|
    ensures forall i | 0 <= i < |input| :: out[2 * i] == input[i] && out[2 * i + 1] == 0
    ensures EvenBytes(out) == input
  {
    out := [];
    for i := 0 to |input|
      invariant |out| == 2 * i
      invariant forall j | 0 <= j < i :: out[2 * j] == input[j] && out[2 * j + 1] == 0
    {
      out := out + [input[i]];
      out := out + [0];
    }
    EvenBytesOfDoubled(out, input);
  }

  /** Taking the even positions of a doubled sequence gives back the original. */
  lemma EvenBytesOfDoubled(out: seq<bv8>, input: seq<bv8>)
    requires |out| == 2 * |input|
    requires forall i | 0 <= i < |input| :: out[2 * i] == input[i]
    ensures EvenBytes(out) == input
  {
    assert forall j | 0 <= j < |input| :: EvenBytes(out)[j] == input[j];
  }
}
