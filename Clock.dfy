/**
 * Clock text of the app: the statistics display of the time spent (formatTime),
 * the reading-timer display (formatTimerTime) and the greeting chosen from the
 * hour of the day. Seconds are JavaScript integers: `Math.floor(x / n)` is floor
 * division and `%` keeps the sign of its left operand.
 */
module Clock {
  import opened Wrappers
  import opened Numerals

  /** The quotient of JavaScript's division truncated toward zero, for b > 0. */
  function TruncQuot(a: int, b: int): int
    requires b > 0
  {
    if a >= 0 then a / b else -((-a) / b)
  }

  /**
   * JavaScript's `a % b` for b > 0: the remainder of truncating division. It completes the
   * truncated quotient to `a`, lies in (-b, b) and has the sign of `a`.
   */
  function JsRem(a: int, b: int): (r: int)
    requires b > 0
    ensures a == TruncQuot(a, b) * b + r
    ensures a >= 0 ==> 0 <= r < b && r == a % b
    ensures a < 0 ==> -b < r <= 0
  {
    if a >= 0 then a % b else -((-a) % b)
  }

  /** Where JavaScript's `%` and the Euclidean one part: -1 % 60 is -1 in JavaScript and 59 in Dafny. */
  lemma JsRemNegative()
    ensures JsRem(-1, 60) == -1 && -1 % 60 == 59
  {
  }

  /** The (hours, minutes, seconds) fields that both clock formats compute from a number of seconds. */
  function ClockFields(seconds: int): (int, int, int)
  {
    (seconds / 3600, JsRem(seconds, 3600) / 60, JsRem(seconds, 60))
  }

  /** `n.toString().padStart(2, '0')`. */
  function Pad2(n: int): string
  {
    PadStart(IntToString(n), 2, '0')
  }

  /** formatTime: "h:mm:ss" when the hours field is positive, "m:ss" otherwise (minutes not padded). */
  function FormatTime(seconds: int): string
  {
    var (hrs, mins, secs) := ClockFields(seconds);
    if hrs > 0 then IntToString(hrs) + ":" + Pad2(mins) + ":" + Pad2(secs)
    else IntToString(mins) + ":" + Pad2(secs)
  }

  /** formatTimerTime: "HH:MM:SS", every field padded to at least two digits. */
  function FormatTimerTime(seconds: int): string
  {
    var (hrs, mins, secs) := ClockFields(seconds);
    Pad2(hrs) + ":" + Pad2(mins) + ":" + Pad2(secs)
  }

  /** For a non-negative count the three fields recombine to it, with minutes and seconds below 60. */
  lemma ClockFieldsSplit(seconds: int)
    requires seconds >= 0
    ensures var (h, m, s) := ClockFields(seconds);
      h >= 0 && 0 <= m < 60 && 0 <= s < 60 && h * 3600 + m * 60 + s == seconds
  {
    var h, r := seconds / 3600, seconds % 3600;
    var m, s := r / 60, r % 60;
    assert seconds == h * 3600 + r;
    assert r == m * 60 + s;
    assert seconds == (h * 60 + m) * 60 + s;
    assert seconds % 60 == s;
  }

  // ---------------------------------------------------------------------------
  // Reading a clock string back
  // ---------------------------------------------------------------------------

  /** `s.split(':')`: the colon-separated fields of s. */
  function SplitColon(s: string): (fields: seq<string>)
    ensures |fields| >= 1
  {
    if s == [] then [[]]
    else if s[0] == ':' then [[]] + SplitColon(s[1..])
    else var rest := SplitColon(s[1..]); [[s[0]] + rest[0]] + rest[1..]
  }

  predicate NoColon(s: string) { forall i :: 0 <= i < |s| ==> s[i] != ':' }

  lemma {:induction false} SplitColonSingle(a: string)
    requires NoColon(a)
    ensures SplitColon(a) == [a]
  {
    if a != [] {
      SplitColonSingle(a[1..]);
      assert [a[0]] + a[1..] == a;
    }
  }

  lemma {:induction false} SplitColonCons(a: string, b: string)
    requires NoColon(a)
    ensures SplitColon(a + ":" + b) == [a] + SplitColon(b)
  {
    if a == [] {
      assert a + ":" + b == [':'] + b;
    } else {
      var s := a + ":" + b;
      assert s[0] == a[0] && s[1..] == a[1..] + ":" + b;
      SplitColonCons(a[1..], b);
      assert [a[0]] + a[1..] == a;
    }
  }

  predicate IsNumeral(s: string) { s != [] && AllDigits(s) }

  /**
   * A reader for clock strings: "m:ss" or "h:mm:ss", every field a decimal numeral,
   * minutes and seconds after the leading field below 60; the result is the number of seconds.
   */
  function ParseClock(s: string): Option<nat>
  {
    ClockValue(SplitColon(s))
  }

  /** The number of seconds that a sequence of clock fields stands for. */
  function ClockValue(f: seq<string>): Option<nat>
  {
    if |f| == 2 && IsNumeral(f[0]) && IsNumeral(f[1]) && DecValue(f[1]) < 60 then
      Some(DecValue(f[0]) * 60 + DecValue(f[1]))
    else if |f| == 3 && IsNumeral(f[0]) && IsNumeral(f[1]) && IsNumeral(f[2])
            && DecValue(f[1]) < 60 && DecValue(f[2]) < 60 then
      Some(DecValue(f[0]) * 3600 + DecValue(f[1]) * 60 + DecValue(f[2]))
    else None
  }

  lemma ClockValueThree(a: string, b: string, c: string, h: nat, m: nat, s: nat)
    requires IsNumeral(a) && IsNumeral(b) && IsNumeral(c)
    requires DecValue(a) == h && DecValue(b) == m && DecValue(c) == s && m < 60 && s < 60
    ensures ClockValue([a, b, c]) == Some(h * 3600 + m * 60 + s)
  {
  }

  lemma ClockValueTwo(a: string, b: string, m: nat, s: nat)
    requires IsNumeral(a) && IsNumeral(b) && DecValue(a) == m && DecValue(b) == s && s < 60
    ensures ClockValue([a, b]) == Some(m * 60 + s)
  {
  }

  lemma NumeralNoColon(s: string)
    requires AllDigits(s)
    ensures NoColon(s)
  {
    forall i | 0 <= i < |s| ensures s[i] != ':' { assert IsDigit(s[i]); }
  }

  /** A padded field of a non-negative value is a numeral of that value. */
  lemma Pad2Numeral(n: int)
    requires n >= 0
    ensures IsNumeral(Pad2(n)) && NoColon(Pad2(n)) && DecValue(Pad2(n)) == n
  {
    PadZerosValue(NatToString(n), 2);
    NatToStringValue(n);
    NumeralNoColon(Pad2(n));
  }

  /** A padded field has at least two characters, exactly two below 100. */
  lemma Pad2Length(n: int)
    requires n >= 0
    ensures |Pad2(n)| >= 2 && (n < 100 ==> |Pad2(n)| == 2)
  {
    if n >= 10 && n < 100 {
      assert NatToString(n) == NatToString(n / 10) + [DigitChar(n % 10)];
    }
  }

  lemma PlainNumeral(n: int)
    requires n >= 0
    ensures IsNumeral(IntToString(n)) && NoColon(IntToString(n)) && DecValue(IntToString(n)) == n
  {
    NatToStringValue(n);
    NumeralNoColon(IntToString(n));
  }

  lemma {:induction false} SplitThree(a: string, b: string, c: string)
    requires NoColon(a) && NoColon(b) && NoColon(c)
    ensures SplitColon(a + ":" + b + ":" + c) == [a, b, c]
  {
    SplitColonSingle(c);
    SplitColonCons(b, c);
    assert a + ":" + b + ":" + c == a + ":" + (b + ":" + c);
    SplitColonCons(a, b + ":" + c);
  }

  lemma {:induction false} SplitTwo(a: string, b: string)
    requires NoColon(a) && NoColon(b)
    ensures SplitColon(a + ":" + b) == [a, b]
  {
    SplitColonSingle(b);
    SplitColonCons(a, b);
  }

  /** The fields that formatTime joins with colons. */
  function TimeFields(hrs: int, mins: int, secs: int): seq<string>
  {
    if hrs > 0 then [IntToString(hrs), Pad2(mins), Pad2(secs)] else [IntToString(mins), Pad2(secs)]
  }

  /** The fields that formatTimerTime joins with colons. */
  function TimerFields(hrs: int, mins: int, secs: int): seq<string>
  {
    [Pad2(hrs), Pad2(mins), Pad2(secs)]
  }

  lemma SplitFormatTime(seconds: int)
    requires seconds >= 0
    ensures var (h, m, s) := ClockFields(seconds); SplitColon(FormatTime(seconds)) == TimeFields(h, m, s)
  {
    var (h, m, s) := ClockFields(seconds);
    ClockFieldsSplit(seconds);
    Pad2Numeral(m);
    Pad2Numeral(s);
    PlainNumeral(h);
    PlainNumeral(m);
    if h > 0 {
      SplitThree(IntToString(h), Pad2(m), Pad2(s));
    } else {
      SplitTwo(IntToString(m), Pad2(s));
    }
  }

  lemma SplitFormatTimerTime(seconds: int)
    requires seconds >= 0
    ensures var (h, m, s) := ClockFields(seconds); SplitColon(FormatTimerTime(seconds)) == TimerFields(h, m, s)
  {
    var (h, m, s) := ClockFields(seconds);
    ClockFieldsSplit(seconds);
    Pad2Numeral(h);
    Pad2Numeral(m);
    Pad2Numeral(s);
    SplitThree(Pad2(h), Pad2(m), Pad2(s));
  }

  lemma TimeFieldsValue(h: int, m: int, s: int)
    requires h >= 0 && 0 <= m < 60 && 0 <= s < 60
    ensures ClockValue(TimeFields(h, m, s)) == Some(h * 3600 + m * 60 + s)
  {
    Pad2Numeral(m);
    Pad2Numeral(s);
    PlainNumeral(h);
    PlainNumeral(m);
    if h > 0 {
      ClockValueThree(IntToString(h), Pad2(m), Pad2(s), h, m, s);
    } else {
      ClockValueTwo(IntToString(m), Pad2(s), m, s);
    }
  }

  lemma TimerFieldsValue(h: int, m: int, s: int)
    requires h >= 0 && 0 <= m < 60 && 0 <= s < 60
    ensures ClockValue(TimerFields(h, m, s)) == Some(h * 3600 + m * 60 + s)
  {
    Pad2Numeral(h);
    Pad2Numeral(m);
    Pad2Numeral(s);
    ClockValueThree(Pad2(h), Pad2(m), Pad2(s), h, m, s);
  }

  lemma TimeFieldsShape(h: int, m: int, s: int)
    requires h >= 0 && 0 <= m < 60 && 0 <= s < 60
    ensures var f := TimeFields(h, m, s);
      && (|f| == 3 <==> h > 0) && (|f| == 2 <==> h == 0)
      && (h > 0 ==> |f[1]| == 2 && |f[2]| == 2 && f[0] == NatToString(h))
      && (h == 0 ==> f[0] == NatToString(m) && |f[1]| == 2)
  {
    Pad2Length(m);
    Pad2Length(s);
  }

  /**
   * formatTime shows the hours field exactly when the count reaches an hour; with hours shown,
   * minutes and seconds have exactly two digits; without, the minutes are written unpadded
   * and the seconds have two digits.
   */
  lemma FormatTimeShape(seconds: int)
    requires seconds >= 0
    ensures var f := SplitColon(FormatTime(seconds));
      && (|f| == 3 <==> seconds >= 3600)
      && (|f| == 2 <==> seconds < 3600)
      && (seconds >= 3600 ==> |f[1]| == 2 && |f[2]| == 2 && f[0] == NatToString(seconds / 3600))
      && (seconds < 3600 ==> f[0] == NatToString(seconds / 60) && |f[1]| == 2)
  {
    var (h, m, s) := ClockFields(seconds);
    ClockFieldsSplit(seconds);
    assert h > 0 <==> seconds >= 3600;
    assert seconds < 3600 ==> m == seconds / 60;
    SplitFormatTime(seconds);
    TimeFieldsShape(h, m, s);
  }

  /** Reading back what formatTime writes gives the number of seconds. */
  lemma FormatTimeRoundTrip(seconds: int)
    requires seconds >= 0
    ensures ParseClock(FormatTime(seconds)) == Some(seconds)
  {
    var (h, m, s) := ClockFields(seconds);
    ClockFieldsSplit(seconds);
    SplitFormatTime(seconds);
    TimeFieldsValue(h, m, s);
  }

  /**
   * formatTimerTime always writes three fields of at least two digits each, exactly two while
   * the count stays below 100 hours, and reading them back gives the number of seconds.
   */
  lemma FormatTimerTimeShape(seconds: int)
    requires seconds >= 0
    ensures var f := SplitColon(FormatTimerTime(seconds));
      && |f| == 3 && |f[0]| >= 2 && |f[1]| == 2 && |f[2]| == 2
      && (seconds < 360000 ==> |f[0]| == 2)
    ensures ParseClock(FormatTimerTime(seconds)) == Some(seconds)
  {
    var (h, m, s) := ClockFields(seconds);
    ClockFieldsSplit(seconds);
    Pad2Length(h);
    Pad2Length(m);
    Pad2Length(s);
    SplitFormatTimerTime(seconds);
    TimerFieldsValue(h, m, s);
  }

  /**
   * A negative count (a tick after the wall clock moved back) is written with signed fields,
   * as JavaScript does: -30 seconds shows as "-1:-30", which no clock reader takes back.
   */
  lemma FormatTimeNegative()
    ensures FormatTime(-30) == "-1:-30"
    ensures ParseClock(FormatTime(-30)) == None
  {
    assert ClockFields(-30) == (-1, -1, -30);
    assert NatToString(1) == "1" && NatToString(30) == "30";
    assert IntToString(-1) == "-1" && IntToString(-30) == "-30";
    assert Pad2(-30) == "-30";
    SplitTwo("-1", "-30");
    assert !IsNumeral("-1") by { assert !IsDigit('-'); }
  }

  // ---------------------------------------------------------------------------
  // Greeting
  // ---------------------------------------------------------------------------

  const DefaultGreeting := "Assalamu'alaikum"

  /** The greeting for an hour of the day, as updateDateTime picks it. */
  function Greeting(hour: int): (g: string)
    ensures g == "Good Morning" <==> 5 <= hour < 12
    ensures g == "Good Afternoon" <==> 12 <= hour < 18
    ensures g == "Good Evening" <==> 18 <= hour < 22
    ensures g == "Good Night" <==> hour < 5 || hour >= 22
  {
    if 5 <= hour < 12 then "Good Morning"
    else if 12 <= hour < 18 then "Good Afternoon"
    else if 18 <= hour < 22 then "Good Evening"
    else "Good Night"
  }

  /** The text shown in the greeting element. */
  function GreetingLine(hour: int): string
  {
    DefaultGreeting + " (" + Greeting(hour) + ")"
  }

  /** The initial greeting value is overwritten for every hour: the if-chain has a final else. */
  lemma GreetingNeverDefault(hour: int)
    ensures Greeting(hour) != DefaultGreeting
  {
  }
}
