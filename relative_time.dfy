/**
 * `RSSFeedReader.formatRelativeTime`: the elapsed time between a timestamp and
 * the clock, in whole minutes, bucketed into "Just now", minutes, hours or days.
 *
 * Date parsing and the clock are inputs: `nowMs` is the current time and
 * `thenMs` the parsed timestamp in milliseconds since the epoch, `None` when
 * the timestamp string is an Invalid Date.
 */
module RelativeTime {
  import opened Wrappers

  /** Elapsed whole minutes, or NaN when the timestamp did not parse. */
  datatype Elapsed = Minutes(minutes: int) | NaN

  datatype Unit = Minute | Hour | Day

  /** What the page shows, before it is spelled out as text. */
  datatype Label = JustNow | Ago(count: nat, unit: Unit) | NotANumber

  const MillisPerMinute: int := 60000

  function UnitMinutes(u: Unit): nat {
    match u
    case Minute => 1
    case Hour => 60
    case Day => 1440
  }

  /** Labels the page can show: a count is at least one. */
  predicate WellFormed(l: Label) {
    l.Ago? ==> l.count >= 1
  }

  /** `Math.floor((now - date) / 60000)`; Dafny's `/` by a positive divisor is the floor. */
  function ElapsedMinutes(nowMs: int, thenMs: Option<int>): (e: Elapsed)
    ensures e.NaN? <==> thenMs.None?
    ensures e.Minutes? ==>
      (thenMs.Some? && e.minutes * MillisPerMinute <= nowMs - thenMs.value < (e.minutes + 1) * MillisPerMinute)
  {
    match thenMs
    case None => NaN
    case Some(t) => Minutes((nowMs - t) / MillisPerMinute)
  }

  /**
   * The bucket of an elapsed time. The thresholds are 1, 60 and 1440 minutes;
   * the count is the elapsed time in whole units, rounded down. A NaN fails
   * every comparison and so reaches the last branch.
   */
  function Classify(e: Elapsed): (l: Label)
    ensures WellFormed(l)
    ensures l == NotANumber <==> e.NaN?
    ensures l == JustNow <==> e.Minutes? && e.minutes < 1
    ensures l.Ago? && l.unit == Minute <==> e.Minutes? && 1 <= e.minutes < 60
    ensures l.Ago? && l.unit == Hour <==> e.Minutes? && 60 <= e.minutes < 1440
    ensures l.Ago? && l.unit == Day <==> e.Minutes? && 1440 <= e.minutes
    ensures l.Ago? ==>
      (e.Minutes? && l.count * UnitMinutes(l.unit) <= e.minutes < (l.count + 1) * UnitMinutes(l.unit))
    ensures l.Ago? && l.unit == Minute ==> l.count == e.minutes
    ensures l.Ago? && l.unit == Hour ==> l.count <= 23
  {
    match e
    case NaN => NotANumber
    case Minutes(d) =>
      if d < 1 then JustNow
      else if d < 60 then Ago(d, Minute)
      else if d < 1440 then Ago(d / 60, Hour)
      else Ago(d / 1440, Day)
  }

  // ---------------------------------------------------------------------------
  // Decimal numerals: how a template literal spells a non-negative integer.

  predicate IsDigit(c: char) {
    '0' <= c <= '9'
  }

  predicate AllDigits(s: string) {
    forall i :: 0 <= i < |s| ==> IsDigit(s[i])
  }

  /** A numeral as JavaScript writes an integer: digits, no leading zero. */
  predicate IsNumeral(s: string) {
    |s| >= 1 && AllDigits(s) && (s[0] == '0' ==> |s| == 1)
  }

  function DigitValue(c: char): nat
    requires IsDigit(c)
  {
    c as int - '0' as int
  }

  function DigitChar(d: nat): (c: char)
    requires d < 10
    ensures IsDigit(c) && DigitValue(c) == d
  {
    ('0' as int + d) as char
  }

  /** The value of a string of digits, read most significant first. */
  function DigitsValue(s: string): nat
    requires AllDigits(s)
  {
    if s == [] then 0 else DigitsValue(s[..|s| - 1]) * 10 + DigitValue(s[|s| - 1])
  }

  /** The decimal numeral of `n`. */
  function NatToString(n: nat): (s: string)
    ensures IsNumeral(s) && DigitsValue(s) == n
    decreases n
  {
    if n < 10 then [DigitChar(n)]
    else
      var p := NatToString(n / 10);
      var s := p + [DigitChar(n % 10)];
      assert s[..|s| - 1] == p;
      ZeroLeadingDigit(p);
      s
  }

  /** A numeral that starts with 0 is "0". */
  lemma ZeroLeadingDigit(s: string)
    requires IsNumeral(s)
    ensures s[0] == '0' ==> DigitsValue(s) == 0
  {
    assert s[..|s| - 1] == [] ==> s == [s[0]];
  }

  lemma {:induction false} NonZeroLeadingDigit(s: string)
    requires IsNumeral(s) && s[0] != '0'
    ensures DigitsValue(s) >= 1
    decreases |s|
  {
    if |s| > 1 {
      var p := s[..|s| - 1];
      NonZeroLeadingDigit(p);
    }
  }

  /** Every numeral is the numeral of its own value. */
  lemma {:induction false} NumeralRoundTrip(s: string)
    requires IsNumeral(s)
    ensures NatToString(DigitsValue(s)) == s
    decreases |s|
  {
    var p, c := s[..|s| - 1], s[|s| - 1];
    if |s| == 1 {
      assert p == [];
      assert s == [c];
    } else {
      NonZeroLeadingDigit(p);
      NumeralRoundTrip(p);
      var v := DigitsValue(p);
      var n := v * 10 + DigitValue(c);
      assert n / 10 == v && n % 10 == DigitValue(c);
      assert DigitChar(DigitValue(c)) == c;
      assert s == p + [c];
    }
  }

  /** The length of the longest prefix of `s` made of digits. */
  function DigitRun(s: string): (k: nat)
    ensures k <= |s|
    ensures forall i :: 0 <= i < k ==> IsDigit(s[i])
    ensures k < |s| ==> !IsDigit(s[k])
  {
    if s == [] || !IsDigit(s[0]) then 0 else 1 + DigitRun(s[1..])
  }

  lemma DigitRunOfDigitsThenOther(d: string, t: string)
    requires AllDigits(d) && t != [] && !IsDigit(t[0])
    ensures DigitRun(d + t) == |d|
  {
    var s := d + t;
    assert forall i :: 0 <= i < |d| ==> s[i] == d[i];
    assert s[|d|] == t[0];
  }

  // ---------------------------------------------------------------------------
  // The displayed text.

  function UnitWord(u: Unit): string {
    match u
    case Minute => "minute"
    case Hour => "hour"
    case Day => "day"
  }

  /** The text after the number: the unit, a plural "s" when asked for, then "ago". */
  function Suffix(u: Unit, plural: bool): string {
    " " + UnitWord(u) + (if plural then "s" else "") + " ago"
  }

  predicate EndsWith(s: string, t: string) {
    |t| <= |s| && s[|s| - |t|..] == t
  }

  /**
   * The label as the page writes it. Only the JustNow label reads "Just now",
   * and the plural "s" goes with a count above one.
   */
  function Render(l: Label): (r: string)
    ensures r == "Just now" <==> l == JustNow
    ensures l.Ago? ==> (EndsWith(r, "s ago") <==> l.count > 1)
  {
    match l
    case JustNow => "Just now"
    case Ago(n, u) =>
      var d, w := NatToString(n), UnitWord(u);
      var r := d + Suffix(u, n > 1);
      assert r[0] == d[0] && IsDigit(r[0]);
      if n > 1 then
        assert r == d + " " + w + "s ago";
        r
      else
        assert r == d + " " + w + " ago";
        assert r[|r| - 5] == w[|w| - 1];
        r
    case NotANumber => "NaN" + Suffix(Day, false)
  }

  /** `formatRelativeTime`: the text is the rendering of the bucket of the elapsed time. */
  function FormatRelativeTime(nowMs: int, thenMs: Option<int>): (s: string)
    ensures ParseLabel(s) == Some(Classify(ElapsedMinutes(nowMs, thenMs)))
  {
    var l := Classify(ElapsedMinutes(nowMs, thenMs));
    ParseRender(l);
    Render(l)
  }

  // ---------------------------------------------------------------------------
  // Reading a label back from its text: the partner of Render.

  function ParseSuffix(t: string): (r: Option<(Unit, bool)>)
    ensures r.Some? ==> t == Suffix(r.value.0, r.value.1)
  {
    if t == Suffix(Minute, false) then Some((Minute, false))
    else if t == Suffix(Minute, true) then Some((Minute, true))
    else if t == Suffix(Hour, false) then Some((Hour, false))
    else if t == Suffix(Hour, true) then Some((Hour, true))
    else if t == Suffix(Day, false) then Some((Day, false))
    else if t == Suffix(Day, true) then Some((Day, true))
    else None
  }

  function ParseLabel(s: string): Option<Label> {
    if s == "Just now" then Some(JustNow)
    else if s == "NaN" + Suffix(Day, false) then Some(NotANumber)
    else
      var k := DigitRun(s);
      if k == 0 || s[0] == '0' then None
      else
        var n := DigitsValue(s[..k]);
        match ParseSuffix(s[k..])
        case None => None
        case Some((u, plural)) => if plural == (n > 1) then Some(Ago(n, u)) else None
  }

  lemma ParseSuffixOfSuffix(u: Unit, plural: bool)
    ensures ParseSuffix(Suffix(u, plural)) == Some((u, plural))
  {
    var t := Suffix(u, plural);
    match u
    case Minute =>
      if plural { assert t != Suffix(Minute, false) by { assert |t| != |Suffix(Minute, false)|; } }
    case Hour =>
      assert t != Suffix(Minute, false) && t != Suffix(Minute, true) by { assert t[1] == 'h'; }
      if plural { assert t != Suffix(Hour, false) by { assert |t| != |Suffix(Hour, false)|; } }
    case Day =>
      assert t[1] == 'd';
      assert t != Suffix(Minute, false) && t != Suffix(Minute, true);
      assert t != Suffix(Hour, false) && t != Suffix(Hour, true);
      if plural { assert t != Suffix(Day, false) by { assert |t| != |Suffix(Day, false)|; } }
  }

  /** Every label the page can show is read back from its text. */
  lemma ParseRender(l: Label)
    requires WellFormed(l)
    ensures ParseLabel(Render(l)) == Some(l)
  {
    match l
    case JustNow =>
    case NotANumber =>
      assert Render(l) != "Just now" by { assert Render(l)[0] == 'N'; }
    case Ago(n, u) =>
      var d, t := NatToString(n), Suffix(u, n > 1);
      var s := d + t;
      assert s[0] == d[0];
      assert s != "Just now" && s != "NaN" + Suffix(Day, false) by { assert IsDigit(s[0]); }
      assert t[0] == ' ';
      DigitRunOfDigitsThenOther(d, t);
      assert s[..|d|] == d && s[|d|..] == t;
      ZeroLeadingDigit(d);
      ParseSuffixOfSuffix(u, n > 1);
  }

  /** Text that reads back as a label is exactly that label's rendering. */
  lemma RenderParse(s: string, l: Label)
    requires ParseLabel(s) == Some(l)
    ensures WellFormed(l) && Render(l) == s
  {
    if s != "Just now" && s != "NaN" + Suffix(Day, false) {
      var k := DigitRun(s);
      var d := s[..k];
      assert IsNumeral(d);
      NumeralRoundTrip(d);
      NonZeroLeadingDigit(d);
      assert s == d + s[k..];
    }
  }

  /** The text and the label determine each other, so different labels never look alike. */
  lemma ParseLabelIff(s: string, l: Label)
    ensures ParseLabel(s) == Some(l) <==> WellFormed(l) && Render(l) == s
  {
    if ParseLabel(s) == Some(l) { RenderParse(s, l); }
    if WellFormed(l) && Render(l) == s { ParseRender(l); }
  }


  /** Ninety minutes ago reads "1 hour ago". */
  lemma NinetyMinutesIsOneHour(nowMs: int)
    ensures FormatRelativeTime(nowMs, Some(nowMs - 90 * MillisPerMinute)) == "1 hour ago"
  {
    assert NatToString(1) == "1";
  }
}
