/** `formatTime`: milliseconds shown as `HH:MM:SS`, with JavaScript's
    `Math.floor`, `%` and `padStart(2, '0')`, and a parser for the result. */
module TimeFormat {
  import opened Wrappers

  /** JavaScript `%`: the remainder takes the sign of the dividend. */
  function JsRem(a: int, b: int): (r: int)
    requires b > 0
    ensures a >= 0 ==> r == a % b
    ensures -b < r < b
  {
    if a >= 0 then a % b else -((-a) % b)
  }

  datatype Clock = Clock(h: int, m: int, s: int)

  lemma SplitSeconds(t: nat)
    ensures t == (t / 3600) * 3600 + ((t % 3600) / 60) * 60 + t % 60
    ensures (t % 3600) / 60 < 60
  {
    var q, r := t / 3600, t % 3600;
    assert t == q * 3600 + r;
    assert r == (r / 60) * 60 + r % 60;
    assert t % 60 == r % 60 by {
      assert t == (q * 60) * 60 + r;
    }
  }

  /** The hour, minute and second fields of `formatTime`. `Math.floor` of a
      quotient by a positive divisor is Dafny's `/`. For a non-negative time,
      minutes and seconds are below 60 and the fields add up to the whole
      seconds of `ms`. */
  function ClockOf(ms: int): (c: Clock)
    ensures ms >= 0 ==> 0 <= c.h && 0 <= c.m < 60 && 0 <= c.s < 60
    ensures ms >= 0 ==> c.h * 3600 + c.m * 60 + c.s == ms / 1000
  {
    var totalSeconds := ms / 1000;
    if totalSeconds >= 0 then SplitSeconds(totalSeconds); Clock(totalSeconds / 3600, JsRem(totalSeconds, 3600) / 60, JsRem(totalSeconds, 60))
    else Clock(totalSeconds / 3600, JsRem(totalSeconds, 3600) / 60, JsRem(totalSeconds, 60))
  }

  predicate IsDigit(c: char) {
    '0' <= c <= '9'
  }

  predicate AllDigits(s: string) {
    forall i :: 0 <= i < |s| ==> IsDigit(s[i])
  }

  function DigitChar(d: nat): (c: char)
    requires d < 10
    ensures IsDigit(c) && c as int - '0' as int == d
  {
    ('0' as int + d) as char
  }

  /** `Number.prototype.toString()` of a non-negative integer. */
  function NatToString(n: nat): (s: string)
    ensures 1 <= |s| && AllDigits(s)
    ensures n < 10 ==> |s| == 1
    ensures 10 <= n < 100 ==> |s| == 2
  {
    if n < 10 then [DigitChar(n)] else NatToString(n / 10) + [DigitChar(n % 10)]
  }

  /** `Number.prototype.toString()` of an integer. */
  function IntToString(i: int): string {
    if i < 0 then "-" + NatToString(-i) else NatToString(i)
  }

  /** `padStart(2, '0')` */
  function PadStart2(s: string): (r: string)
    ensures |r| == if |s| >= 2 then |s| else 2
  {
    if |s| >= 2 then s else seq(2 - |s|, _ => '0') + s
  }

  /** `formatTime`: hours, minutes and seconds, each padded to two characters. */
  function FormatTime(ms: int): (s: string)
    ensures |s| >= 8
    ensures ms >= 0 ==> s[|s| - 3] == ':' && s[|s| - 6] == ':'
  {
    var c := ClockOf(ms);
    var hh, mm, ss := PadStart2(IntToString(c.h)), PadStart2(IntToString(c.m)), PadStart2(IntToString(c.s));
    var r := hh + ":" + mm + ":" + ss;
    assert ms >= 0 ==> |mm| == 2 && |ss| == 2 && r[|hh| + 3] == ':' && r[|hh|] == ':';
    r
  }

  // ---------------------------------------------------------------------
  // Reading a displayed time back

  /** The value of a string of decimal digits. */
  function DigitsValue(s: string): nat
    requires AllDigits(s)
  {
    if s == [] then 0 else DigitsValue(s[..|s| - 1]) * 10 + (s[|s| - 1] as int - '0' as int)
  }

  function ParseField(s: string): Option<nat> {
    if |s| >= 1 && AllDigits(s) then Some(DigitsValue(s)) else None
  }

  /** The whole seconds an `H..H:MM:SS` display stands for. */
  function ParseClock(s: string): Option<int> {
    var n := |s|;
    if n < 8 || s[n - 6] != ':' || s[n - 3] != ':' then None
    else
      match (ParseField(s[..n - 6]), ParseField(s[n - 5..n - 3]), ParseField(s[n - 2..]))
      case (Some(h), Some(m), Some(sec)) => if m < 60 && sec < 60 then Some(h * 3600 + m * 60 + sec) else None
      case _ => None
  }

  lemma {:induction false} NatToStringValue(n: nat)
    ensures DigitsValue(NatToString(n)) == n
  {
    if n >= 10 {
      var s := NatToString(n);
      NatToStringValue(n / 10);
      assert s[..|s| - 1] == NatToString(n / 10);
    }
  }

  lemma {:induction false} LeadingZeroValue(s: string)
    requires AllDigits(s)
    ensures AllDigits("0" + s) && DigitsValue("0" + s) == DigitsValue(s)
  {
    if s != [] {
      var t := "0" + s;
      assert t[..|t| - 1] == "0" + s[..|s| - 1];
      LeadingZeroValue(s[..|s| - 1]);
    }
  }

  /** A non-negative field, padded: at least two digits, denoting the field. */
  lemma PaddedField(n: nat)
    ensures var f := PadStart2(IntToString(n));
      |f| >= 2 && AllDigits(f) && DigitsValue(f) == n && (n < 100 ==> |f| == 2)
  {
    var s := NatToString(n);
    NatToStringValue(n);
    if |s| < 2 {
      assert PadStart2(s) == "0" + s;
      LeadingZeroValue(s);
    }
  }

  /** For a non-negative time the display is `H..H:MM:SS`: hours at least
      two digits, minutes and seconds exactly two. */
  lemma FormatTimeShape(ms: int)
    requires ms >= 0
    ensures var c := ClockOf(ms);
      var hh, mm, ss := PadStart2(IntToString(c.h)), PadStart2(IntToString(c.m)), PadStart2(IntToString(c.s));
      && FormatTime(ms) == hh + ":" + mm + ":" + ss
      && |hh| >= 2 && |mm| == 2 && |ss| == 2
      && AllDigits(hh) && AllDigits(mm) && AllDigits(ss)
  {
    var c := ClockOf(ms);
    PaddedField(c.h);
    PaddedField(c.m);
    PaddedField(c.s);
  }

  /** Reading the display back gives the whole seconds of the input. */
  lemma FormatTimeRoundTrip(ms: int)
    requires ms >= 0
    ensures ParseClock(FormatTime(ms)) == Some(ms / 1000)
  {
    var c := ClockOf(ms);
    var hh, mm, ss := PadStart2(IntToString(c.h)), PadStart2(IntToString(c.m)), PadStart2(IntToString(c.s));
    FormatTimeShape(ms);
    PaddedField(c.h);
    PaddedField(c.m);
    PaddedField(c.s);
    var s := FormatTime(ms);
    var n := |s|;
    assert s[..n - 6] == hh;
    assert n == |hh| + 6;
    assert s == (hh + ":") + mm + (":" + ss);
    assert s[|hh| + 1..|hh| + 3] == mm;
    assert s[n - 2..] == ss;
  }

  /** The full 90-minute countdown reads 01:30:00. */
  lemma FullDurationDisplay()
    ensures FormatTime(90 * 60 * 1000) == "01:30:00"
  {
    assert ClockOf(90 * 60 * 1000) == Clock(1, 30, 0);
    assert NatToString(1) == "1";
    assert NatToString(30) == "30";
    assert NatToString(0) == "0";
  }
}
