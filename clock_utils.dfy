/** The display helpers of the front end (src/utils/clockUtils.ts): the
    `MM:SS` and `M:SS` renderings of a time and the colour and label of the
    clock's status. Numbers are integers; `toString` is the decimal
    rendering with a leading `-` for negatives. */
module ClockUtils {
  import opened Js

  // ---------------------------------------------------------------------
  // Decimal rendering and its inverse
  // ---------------------------------------------------------------------

  predicate IsDigit(ch: char) {
    '0' <= ch <= '9'
  }

  predicate AllDigits(s: string) {
    forall k :: 0 <= k < |s| ==> IsDigit(s[k])
  }

  function DigitChar(d: nat): (ch: char)
    requires d < 10
    ensures IsDigit(ch) && ch as int - '0' as int == d
  {
    (d + '0' as int) as char
  }

  function DigitValue(ch: char): (d: nat)
    requires IsDigit(ch)
    ensures d < 10
  {
    ch as int - '0' as int
  }

  /** `n.toString()` for a non-negative integer: decimal, no leading zero
      except for 0 itself. */
  function NatToString(n: nat): (s: string)
    ensures s != [] && AllDigits(s)
    ensures s[0] == '0' ==> n == 0
    ensures n < 10 ==> |s| == 1
    ensures n < 100 ==> |s| <= 2
    decreases n
  {
    if n < 10 then [DigitChar(n)] else NatToString(n / 10) + [DigitChar(n % 10)]
  }

  /** `i.toString()` for an integer. */
  function IntToString(i: int): (s: string)
    ensures i >= 0 ==> s == NatToString(i)
    ensures i < 0 ==> s == ['-'] + NatToString(-i)
  {
    if i < 0 then ['-'] + NatToString(-i) else NatToString(i)
  }

  /** The value of a string of decimal digits, most significant first. */
  function DigitsValue(s: string): nat
    requires AllDigits(s)
  {
    if s == [] then 0 else DigitsValue(s[..|s| - 1]) * 10 + DigitValue(s[|s| - 1])
  }

  /** `count` copies of `ch`. */
  function Repeat(ch: char, count: nat): (s: string)
    ensures |s| == count && forall k :: 0 <= k < |s| ==> s[k] == ch
  {
    if count == 0 then [] else [ch] + Repeat(ch, count - 1)
  }

  /** `s.padStart(width, fill)` for a one-character fill: fill characters
      put in front until the string is `width` long; a longer string is
      left alone. */
  function PadStart(s: string, width: nat, fill: char): (r: string)
    ensures |r| == if |s| >= width then |s| else width
    ensures r[|r| - |s|..] == s
    ensures forall k :: 0 <= k < |r| - |s| ==> r[k] == fill
  {
    if |s| >= width then s else Repeat(fill, width - |s|) + s
  }

  // ---------------------------------------------------------------------
  // formatTime and formatDuration (clockUtils.ts:2-10)
  // ---------------------------------------------------------------------

  /** Two parts with a colon between them. */
  function WithColon(left: string, right: string): (text: string)
    ensures |text| == |left| + 1 + |right| && text[|left|] == ':'
    ensures text[..|left|] == left && text[|left| + 1..] == right
  {
    left + [':'] + right
  }

  /** `formatTime(minutes, seconds)`: each part at least two characters,
      zero-padded, separated by a colon. */
  function FormatTime(minutes: int, seconds: int): (text: string)
    ensures |text| >= 5
    ensures 0 <= minutes < 100 && 0 <= seconds < 100 ==> |text| == 5 && text[2] == ':'
  {
    TwoDigits(minutes);
    TwoDigits(seconds);
    WithColon(PadStart(IntToString(minutes), 2, '0'), PadStart(IntToString(seconds), 2, '0'))
  }

  /** A number in 0..99 padded to two places takes exactly two. */
  lemma TwoDigits(i: int)
    ensures 0 <= i < 100 ==> |PadStart(IntToString(i), 2, '0')| == 2
  {
    if 0 <= i < 100 {
      assert |NatToString(i)| <= 2;
    }
  }

  /** `formatDuration(totalSeconds)`: whole minutes (floored), a colon and
      the seconds remainder padded to two characters. */
  function FormatDuration(totalSeconds: int): (text: string)
    ensures totalSeconds >= 0 ==>
      && |text| >= 4 && text[|text| - 3] == ':'
      && text[..|text| - 3] == NatToString(totalSeconds / 60)
  {
    TwoDigits(Rem(totalSeconds, 60));
    WithColon(IntToString(FloorDiv(totalSeconds, 60)), PadStart(IntToString(Rem(totalSeconds, 60)), 2, '0'))
  }

  /** Reads a `digits:digits` text back: the inverse the two formats are
      proved against. */
  function ParseClock(text: string): (r: Option<(nat, nat)>)
    ensures r.Some? ==> ':' in text
  {
    if ':' !in text then None
    else
      var i := IndexOf(text, ':');
      var left := text[..i];
      var right := text[i + 1..];
      if left != [] && right != [] && AllDigits(left) && AllDigits(right)
      then Some((DigitsValue(left), DigitsValue(right)))
      else None
  }

  /** Reading back the decimal rendering gives the number. */
  lemma {:induction false} NatToStringValue(n: nat)
    ensures DigitsValue(NatToString(n)) == n
    decreases n
  {
    if n >= 10 {
      NatToStringValue(n / 10);
      var s := NatToString(n);
      assert s[..|s| - 1] == NatToString(n / 10);
    }
  }

  /** Leading zeros do not change the value of a digit string. */
  lemma {:induction false} LeadingZeros(k: nat, s: string)
    requires AllDigits(s)
    ensures AllDigits(Repeat('0', k) + s)
    ensures DigitsValue(Repeat('0', k) + s) == DigitsValue(s)
    decreases |s|
  {
    var z := Repeat('0', k);
    if s == [] {
      assert z + s == z;
      AllZeros(k);
    } else {
      var init := s[..|s| - 1];
      LeadingZeros(k, init);
      assert (z + s)[..|z + s| - 1] == z + init;
    }
  }

  lemma {:induction false} AllZeros(k: nat)
    ensures DigitsValue(Repeat('0', k)) == 0
    decreases k
  {
    if k > 0 {
      AllZeros(k - 1);
      var z := Repeat('0', k);
      assert z[..k - 1] == Repeat('0', k - 1) by {
        RepeatTail(k);
      }
    }
  }

  lemma RepeatTail(k: nat)
    requires k > 0
    ensures Repeat('0', k)[..k - 1] == Repeat('0', k - 1)
  {
  }

  /** Zero-padding a rendered number keeps its value. */
  lemma PaddedValue(n: nat, width: nat)
    ensures var p := PadStart(NatToString(n), width, '0');
      p != [] && AllDigits(p) && DigitsValue(p) == n
  {
    var s := NatToString(n);
    NatToStringValue(n);
    if |s| < width {
      LeadingZeros(width - |s|, s);
    }
  }

  /** `formatTime` can be read back: the minutes before the colon, the
      seconds after it. */
  lemma FormatTimeRoundTrip(minutes: nat, seconds: nat)
    ensures ParseClock(FormatTime(minutes, seconds)) == Some((minutes, seconds))
  {
    var left := PadStart(NatToString(minutes), 2, '0');
    var right := PadStart(NatToString(seconds), 2, '0');
    PaddedValue(minutes, 2);
    PaddedValue(seconds, 2);
    SplitAtColon(left, right);
  }

  /** `formatDuration` of a non-negative duration reads back as whole
      minutes and a seconds part below 60 that add up to the duration. */
  lemma FormatDurationRoundTrip(totalSeconds: nat)
    ensures var r := ParseClock(FormatDuration(totalSeconds));
      r.Some? && r.value.1 < 60 && r.value.0 * 60 + r.value.1 == totalSeconds
    ensures ParseClock(FormatDuration(totalSeconds)) == Some((totalSeconds / 60, totalSeconds % 60))
  {
    var m := FloorDiv(totalSeconds, 60);
    var s := Rem(totalSeconds, 60);
    assert m >= 0;
    var left := NatToString(m);
    var right := PadStart(NatToString(s), 2, '0');
    NatToStringValue(m);
    PaddedValue(s, 2);
    SplitAtColon(left, right);
  }

  /** Joining two digit strings with a colon is undone by `ParseClock`. */
  lemma SplitAtColon(left: string, right: string)
    requires left != [] && right != [] && AllDigits(left) && AllDigits(right)
    ensures ParseClock(left + [':'] + right) == Some((DigitsValue(left), DigitsValue(right)))
  {
    var text := left + [':'] + right;
    assert ':' in text by { assert text[|left|] == ':'; }
    var i := IndexOf(text, ':');
    assert forall k :: 0 <= k < |left| ==> text[k] == left[k] && text[k] != ':';
    assert i == |left|;
    assert text[..i] == left;
    assert text[i + 1..] == right;
  }

  /** Digits are not colons. */
  lemma DigitsHaveNoColon(s: string)
    requires AllDigits(s)
    ensures ':' !in s
  {
    forall k | 0 <= k < |s|
      ensures s[k] != ':'
    {
      assert IsDigit(s[k]);
    }
  }

  /** A rendered number, padded or not, holds no colon. */
  lemma RenderedHasNoColon(i: int, width: nat)
    ensures ':' !in IntToString(i) && ':' !in PadStart(IntToString(i), width, '0')
  {
    var digits := NatToString(if i < 0 then -i else i);
    DigitsHaveNoColon(digits);
    var s := IntToString(i);
    assert s == digits || s == ['-'] + digits;
    assert ':' !in s;
    if |s| < width {
      var zeros := Repeat('0', width - |s|);
      assert ':' !in zeros;
      assert PadStart(s, width, '0') == zeros + s;
    }
  }

  /** Two colon-free parts joined by `WithColon` hold exactly one colon. */
  lemma OneColon(left: string, right: string)
    requires ':' !in left && ':' !in right
    ensures multiset(WithColon(left, right))[':'] == 1
  {
    assert WithColon(left, right) == left + [':'] + right;
  }

  /** `formatTime` separates the two parts with exactly one colon, whatever
      the numbers. */
  lemma FormatTimeOneColon(minutes: int, seconds: int)
    ensures multiset(FormatTime(minutes, seconds))[':'] == 1
  {
    RenderedHasNoColon(minutes, 2);
    RenderedHasNoColon(seconds, 2);
    OneColon(PadStart(IntToString(minutes), 2, '0'), PadStart(IntToString(seconds), 2, '0'));
  }

  /** `formatDuration` separates the two parts with exactly one colon,
      whatever the duration. */
  lemma FormatDurationOneColon(totalSeconds: int)
    ensures multiset(FormatDuration(totalSeconds))[':'] == 1
  {
    RenderedHasNoColon(FloorDiv(totalSeconds, 60), 0);
    RenderedHasNoColon(Rem(totalSeconds, 60), 2);
    OneColon(IntToString(FloorDiv(totalSeconds, 60)), PadStart(IntToString(Rem(totalSeconds, 60)), 2, '0'));
  }

  // ---------------------------------------------------------------------
  // Status colour and label (clockUtils.ts:12-22)
  // ---------------------------------------------------------------------

  /** `getStatusColor`: red when stopped, whatever the pause flag; yellow
      when running and paused; green when running. */
  function GetStatusColor(isRunning: bool, isPaused: bool): (color: string)
    ensures color == "red" <==> !isRunning
    ensures color == "yellow" <==> isRunning && isPaused
    ensures color == "green" <==> isRunning && !isPaused
  {
    if !isRunning then "red"
    else if isPaused then "yellow"
    else "green"
  }

  /** `getStatusText`: the pause flag wins over the running flag. */
  function GetStatusText(isRunning: bool, isPaused: bool): (text: string)
    ensures text == "PAUSED" <==> isPaused
    ensures text == "RUNNING" <==> isRunning && !isPaused
    ensures text == "READY" <==> !isRunning && !isPaused
  {
    if isPaused then "PAUSED"
    else if isRunning then "RUNNING"
    else "READY"
  }

  /** Colour and label tell the same story (green with RUNNING, yellow with
      PAUSED, red with READY) exactly when the clock is not paused while
      stopped; a paused stopped clock shows red and PAUSED. */
  lemma StatusAgreement(isRunning: bool, isPaused: bool)
    ensures var color := GetStatusColor(isRunning, isPaused);
      var text := GetStatusText(isRunning, isPaused);
      ((color == "green" <==> text == "RUNNING") && (color == "yellow" <==> text == "PAUSED")
        && (color == "red" <==> text == "READY"))
      <==> !(isPaused && !isRunning)
  {
  }
}
