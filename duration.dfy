/**
 * The duration codec: the time-span text printed by the Python command-line
 * tool, `[N days, |N day, ]h:mm:ss[.ffffff]`, turned into an ISO 8601
 * duration (`P[nD]T[nH][nM][nS]`).
 *
 * JavaScript numbers are replaced by what the conversions can produce:
 * `parseInt` gives an integer or NaN (None), `parseFloat` gives a finite
 * decimal (sign, whole part, fraction digits) or NaN (None). NaN fails every
 * comparison, so a NaN field neither triggers the sentinel nor the zero rule
 * and is never printed.
 */
module Duration {
  import opened Text

  // ---------------------------------------------------------------------------
  // Number.parseInt / Number.parseFloat

  /** The white space `parseInt` and `parseFloat` skip (its ASCII part). */
  predicate IsSpace(c: char)
  {
    c == ' ' || c == '\t' || c == '\n' || c == '\r' || c == '\U{B}' || c == '\U{C}'
  }

  function TrimStart(s: string): (t: string)
    ensures |t| <= |s| && t == s[|s| - |t|..]
    ensures t == [] || !IsSpace(t[0])
  {
    if s != [] && IsSpace(s[0]) then TrimStart(s[1..]) else s
  }

  /** The length of the run of digits that starts `s`. */
  function DigitRun(s: string): (n: nat)
    ensures n <= |s| && AllDigits(s[..n])
    ensures n < |s| ==> !IsDigit(s[n])
  {
    if s != [] && IsDigit(s[0]) then
      var n := 1 + DigitRun(s[1..]);
      assert s[..n] == [s[0]] + s[1..][..n - 1];
      n
    else 0
  }

  /** The text after an optional leading sign. */
  function Unsigned(t: string): string
  {
    if t != [] && (t[0] == '-' || t[0] == '+') then t[1..] else t
  }

  function IsNegative(t: string): bool
  {
    t != [] && t[0] == '-'
  }

  /** `Number.parseInt(s)` on decimal text: leading white space, an optional
      sign, then the longest run of decimal digits; None is NaN. */
  function ParseInt(s: string): Option<int>
  {
    var t := TrimStart(s);
    var u := Unsigned(t);
    var n := DigitRun(u);
    var value: int := if n == 0 then 0 else DigitsValue(u[..n]);
    if n == 0 then None
    else if IsNegative(t) then Some(-value)
    else Some(value)
  }

  /** A finite decimal number: its sign, its whole part and its fraction digits. */
  datatype Decimal = Decimal(negative: bool, whole: nat, fraction: string)

  /** `Number.parseFloat(s)` without exponents; None is NaN. */
  function ParseFloat(s: string): (r: Option<Decimal>)
    ensures r.Some? ==> AllDigits(r.value.fraction)
  {
    var t := TrimStart(s);
    var u := Unsigned(t);
    var n := DigitRun(u);
    var rest := u[n..];
    var f := if rest != [] && rest[0] == '.' then DigitRun(rest[1..]) else 0;
    if n == 0 && f == 0 then None
    else Some(Decimal(IsNegative(t), DigitsValue(u[..n]), if f == 0 then "" else rest[1..][..f]))
  }

  /** `x === 0` for a decimal (minus zero included). */
  predicate IsZero(d: Decimal)
  {
    d.whole == 0 && forall i :: 0 <= i < |d.fraction| ==> d.fraction[i] == '0'
  }

  /** `x > 0` for a decimal. */
  predicate IsPositive(d: Decimal)
  {
    !d.negative && !IsZero(d)
  }

  /** The fraction digits without trailing zeros. */
  function TrimZeros(f: string): (r: string)
    ensures |r| <= |f| && r == f[..|r|]
    ensures r == [] || r[|r| - 1] != '0'
    ensures forall i :: |r| <= i < |f| ==> f[i] == '0'
  {
    if f != [] && f[|f| - 1] == '0' then TrimZeros(f[..|f| - 1]) else f
  }

  /** How JavaScript prints a positive decimal: no leading or trailing zeros,
      a point only when there is a fraction. */
  function FormatDecimal(d: Decimal): string
    requires AllDigits(d.fraction)
  {
    var f := TrimZeros(d.fraction);
    NatToString(d.whole) + (if f == "" then "" else "." + f)
  }

  // ---------------------------------------------------------------------------
  // splitDaysPart

  /** The result of splitting off the day count. */
  datatype DaysSplit = DaysSplit(dayCount: Option<int>, timePart: string)

  /** The separators tried, in order. */
  const DaySeps: seq<string> := ["days, ", "day, "]

  /** Trying the separators `seps` in order: the first one found splits the text at
      its first occurrence; with none found the day count is 0 and the whole text
      is the time part. */
  function DaysPartFrom(s: string, seps: seq<string>): DaysSplit
  {
    if seps == [] then DaysSplit(Some(0), s)
    else
      var i := IndexOf(s, seps[0]);
      if i >= 0 then DaysSplit(ParseInt(s[..i]), s[i + |seps[0]|..])
      else DaysPartFrom(s, seps[1..])
  }

  function DaysPart(s: string): DaysSplit
  {
    DaysPartFrom(s, DaySeps)
  }

  /** The two separators spelt out. */
  lemma DaysPartCases(s: string)
    ensures IndexOf(s, "days, ") >= 0 ==>
      DaysPart(s) == DaysSplit(ParseInt(s[..IndexOf(s, "days, ")]), s[IndexOf(s, "days, ") + 6..])
    ensures IndexOf(s, "days, ") < 0 && IndexOf(s, "day, ") >= 0 ==>
      DaysPart(s) == DaysSplit(ParseInt(s[..IndexOf(s, "day, ")]), s[IndexOf(s, "day, ") + 5..])
    ensures IndexOf(s, "days, ") < 0 && IndexOf(s, "day, ") < 0 ==> DaysPart(s) == DaysSplit(Some(0), s)
  {
    assert DaySeps[0] == "days, " && DaySeps[1..] == ["day, "];
    if IndexOf(s, "days, ") < 0 {
      assert DaysPart(s) == DaysPartFrom(s, ["day, "]);
      assert ["day, "][1..] == [];
      if IndexOf(s, "day, ") < 0 {
        assert DaysPartFrom(s, ["day, "]) == DaysPartFrom(s, []);
      }
    }
  }

  /** `splitDaysPart`: a loop over the two separators with an early return. */
  method SplitDaysPart(duration: string) returns (r: DaysSplit)
    ensures r == DaysPart(duration)
  {
    var daySeps := DaySeps;
    for k := 0 to |daySeps|
      invariant DaysPartFrom(duration, daySeps[k..]) == DaysPart(duration)
    {
      var daySepIndex := IndexOf(duration, daySeps[k]);
      if daySepIndex >= 0 {
        return DaysSplit(ParseInt(duration[..daySepIndex]), duration[daySepIndex + |daySeps[k]|..]);
      }
      assert daySeps[k..][1..] == daySeps[k + 1..];
    }
    return DaysSplit(Some(0), duration);
  }

  // ---------------------------------------------------------------------------
  // toISO8601

  /** The four numbers read out of the text. */
  datatype Fields = Fields(days: Option<int>, hours: Option<int>, minutes: Option<int>, seconds: Option<Decimal>)

  /** Reading the text: the day prefix, then the time part split on ':' and read
      from the right: seconds, minutes (default 0), hours (default 0). */
  function FieldsOf(duration: string): Fields
  {
    var parts := DaysPart(duration);
    var timeParts := Reverse(Split(parts.timePart, ':'));
    Fields(parts.dayCount,
           if |timeParts| > 2 then ParseInt(timeParts[2]) else Some(0),
           if |timeParts| > 1 then ParseInt(timeParts[1]) else Some(0),
           ParseFloat(timeParts[0]))
  }

  /** Above this many days the tool is printing its "unset" maximum value. */
  const MaxDays: int := 10000000

  predicate IsSentinel(f: Fields)
  {
    f.days.Some? && f.days.value > MaxDays
  }

  predicate IsZeroDuration(f: Fields)
  {
    f.days == Some(0) && f.hours == Some(0) && f.minutes == Some(0) &&
    f.seconds.Some? && IsZero(f.seconds.value)
  }

  /** `<n><designator>` when the number is positive, else nothing. */
  function Component(n: Option<int>, designator: char): string
  {
    if n.Some? && n.value > 0 then NatToString(n.value) + [designator] else ""
  }

  function SecondsComponent(d: Option<Decimal>): string
  {
    if d.Some? && IsPositive(d.value) && AllDigits(d.value.fraction) then FormatDecimal(d.value) + "S" else ""
  }

  /** The ISO text of the four numbers, as `toISO8601` assembles it. */
  function IsoOf(f: Fields): Option<string>
  {
    if IsSentinel(f) then None
    else if IsZeroDuration(f) then Some("PT0S")
    else Some("P" + Component(f.days, 'D') + "T" + Component(f.hours, 'H') + Component(f.minutes, 'M') + SecondsComponent(f.seconds))
  }

  /** `toISO8601` as a function of its input. */
  function ToIso(duration: Option<string>): Option<string>
  {
    if duration == None || duration == Some("") then None else IsoOf(FieldsOf(duration.value))
  }

  /** `toISO8601`: the ISO text built piece by piece under the same rules. */
  method ToISO8601(duration: Option<string>) returns (r: Option<string>)
    ensures r == ToIso(duration)
  {
    if duration == None || duration == Some("") {
      return None;
    }
    var parts := SplitDaysPart(duration.value);
    var days := parts.dayCount;
    var timeParts := Reverse(Split(parts.timePart, ':'));
    var seconds := ParseFloat(timeParts[0]);
    var minutes := if |timeParts| > 1 then ParseInt(timeParts[1]) else Some(0);
    var hours := if |timeParts| > 2 then ParseInt(timeParts[2]) else Some(0);
    var f := Fields(days, hours, minutes, seconds);
    assert f == FieldsOf(duration.value);

    if IsSentinel(f) {
      return None;
    }
    if IsZeroDuration(f) {
      return Some("PT0S");
    }

    r := BuildIso(f);
  }

  /** The tail of `toISO8601`: the text appended component by component. */
  method BuildIso(f: Fields) returns (r: Option<string>)
    requires !IsSentinel(f) && !IsZeroDuration(f)
    requires f.seconds.Some? ==> AllDigits(f.seconds.value.fraction)
    ensures r == IsoOf(f)
  {
    var iso := "P";
    if f.days.Some? && f.days.value > 0 {
      iso := iso + (NatToString(f.days.value) + "D");
    }
    assert iso == "P" + Component(f.days, 'D');
    iso := iso + "T";
    ghost var built := iso;
    if f.hours.Some? && f.hours.value > 0 {
      iso := iso + (NatToString(f.hours.value) + "H");
    }
    assert iso == built + Component(f.hours, 'H');
    built := iso;
    if f.minutes.Some? && f.minutes.value > 0 {
      iso := iso + (NatToString(f.minutes.value) + "M");
    }
    assert iso == built + Component(f.minutes, 'M');
    built := iso;
    if f.seconds.Some? && IsPositive(f.seconds.value) {
      iso := iso + (FormatDecimal(f.seconds.value) + "S");
    }
    assert iso == built + SecondsComponent(f.seconds);
    return Some(iso);
  }

  // ---------------------------------------------------------------------------
  // Properties

  /** No value comes out exactly for an undefined or empty input and for the
      sentinel day count, whatever the time part. */
  lemma ToIsoUndefined(duration: Option<string>)
    ensures ToIso(duration) == None <==>
      duration == None || duration == Some("") || IsSentinel(FieldsOf(duration.value))
  {
  }

  /** All four numbers zero give exactly "PT0S". */
  lemma ToIsoZero(duration: string)
    requires duration != "" && IsZeroDuration(FieldsOf(duration))
    ensures ToIso(Some(duration)) == Some("PT0S")
  {
  }

  lemma ComponentHasNoT(n: Option<int>, designator: char)
    requires designator != 'T'
    ensures Count(Component(n, designator), 'T') == 0
  {
    if n.Some? && n.value > 0 {
      DigitsExclude(NatToString(n.value), 'T');
      CountAbsent(NatToString(n.value) + [designator], 'T');
    }
  }

  /** The digits of a fraction, after the point, contain no letter. */
  lemma FractionTailExcludes(fraction: string, c: char)
    requires AllDigits(fraction) && !IsDigit(c) && c != '.'
    ensures c !in (if fraction == "" then "" else "." + fraction)
  {
    DigitsExclude(fraction, c);
  }

  lemma SecondsComponentHasNoT(d: Option<Decimal>)
    ensures Count(SecondsComponent(d), 'T') == 0
  {
    if d.Some? && IsPositive(d.value) && AllDigits(d.value.fraction) {
      var v := d.value;
      var f := TrimZeros(v.fraction);
      assert AllDigits(f) by {
        forall i | 0 <= i < |f| ensures IsDigit(f[i]) { assert f[i] == v.fraction[i]; }
      }
      DigitsExclude(NatToString(v.whole), 'T');
      FractionTailExcludes(f, 'T');
      CountAbsent(FormatDecimal(v) + "S", 'T');
    }
  }

  /** Every defined result starts with 'P' and contains exactly one 'T'. */
  lemma IsoShape(f: Fields)
    requires IsoOf(f).Some?
    ensures IsoOf(f).value[0] == 'P'
    ensures Count(IsoOf(f).value, 'T') == 1
  {
    if !IsZeroDuration(f) {
      var d := Component(f.days, 'D');
      ComponentHasNoT(f.days, 'D');
      ComponentHasNoT(f.hours, 'H');
      ComponentHasNoT(f.minutes, 'M');
      SecondsComponentHasNoT(f.seconds);
      var h := Component(f.hours, 'H');
      var m := Component(f.minutes, 'M');
      CountAppend("P", d, 'T');
      CountAppend("P" + d, "T", 'T');
      CountAppend("P" + d + "T", h, 'T');
      CountAppend("P" + d + "T" + h, m, 'T');
      CountAppend("P" + d + "T" + h + m, SecondsComponent(f.seconds), 'T');
    }
  }

  // ---------------------------------------------------------------------------
  // Reading the tool's own output back

  /** A two-digit field as the tool prints minutes and seconds. */
  function Pad2(n: nat): string
  {
    if n < 10 then "0" + NatToString(n) else NatToString(n)
  }

  /** The time part of the tool's text: hours, two-digit minutes and seconds, fraction. */
  function TimeText(hours: nat, minutes: nat, seconds: nat, fraction: string): string
    requires AllDigits(fraction)
  {
    NatToString(hours) + ":" + Pad2(minutes) + ":" + Pad2(seconds) +
    (if fraction == "" then "" else "." + fraction)
  }

  /** The day prefix of the tool's text: none, "1 day, " or "N days, ". */
  function DayText(days: nat): string
  {
    if days == 0 then "" else NatToString(days) + (if days == 1 then " day, " else " days, ")
  }

  /** The text the tool prints for a non-negative time span. */
  function CliText(days: nat, hours: nat, minutes: nat, seconds: nat, fraction: string): string
    requires AllDigits(fraction)
  {
    DayText(days) + TimeText(hours, minutes, seconds, fraction)
  }

  lemma {:induction false} DigitRunOfDigits(x: string, rest: string)
    requires AllDigits(x)
    requires rest == [] || !IsDigit(rest[0])
    ensures DigitRun(x + rest) == |x|
  {
    if x != [] {
      assert (x + rest)[1..] == x[1..] + rest;
      DigitRunOfDigits(x[1..], rest);
    } else {
      assert x + rest == rest;
    }
  }

  lemma ParseIntOfDigits(x: string, rest: string)
    requires x != [] && AllDigits(x)
    requires rest == [] || !IsDigit(rest[0])
    ensures ParseInt(x + rest) == Some(DigitsValue(x))
  {
    var s := x + rest;
    assert s[0] == x[0];
    DigitRunOfDigits(x, rest);
    ParseIntUnsigned(s);
    assert s[..|x|] == x;
  }

  /** Text that starts with a digit reads as the value of its leading digits. */
  lemma ParseIntUnsigned(s: string)
    requires s != [] && IsDigit(s[0])
    ensures ParseInt(s) == Some(DigitsValue(s[..DigitRun(s)]))
  {
    assert TrimStart(s) == s;
    assert Unsigned(s) == s && !IsNegative(s);
    assert DigitRun(s) > 0;
  }

  /** Text that starts with a digit has no blank, no sign to drop and is not negative. */
  lemma PlainNumeral(s: string)
    requires s != [] && IsDigit(s[0])
    ensures TrimStart(s) == s && Unsigned(s) == s && !IsNegative(s)
  {
    assert !IsSpace(s[0]) && s[0] != '-' && s[0] != '+';
  }

  /** The digits after a '.' are one whole run. */
  lemma FractionTail(fraction: string)
    requires fraction != "" && AllDigits(fraction)
    ensures var tail := "." + fraction;
      tail[0] == '.' && DigitRun(tail[1..]) == |fraction| && tail[1..][..|fraction|] == fraction
  {
    var tail := "." + fraction;
    assert tail[1..] == fraction + [];
    DigitRunOfDigits(fraction, []);
  }

  lemma ParseFloatOfDigits(x: string, fraction: string)
    requires x != [] && AllDigits(x) && AllDigits(fraction)
    ensures ParseFloat(x + (if fraction == "" then "" else "." + fraction))
         == Some(Decimal(false, DigitsValue(x), fraction))
  {
    var tail := if fraction == "" then "" else "." + fraction;
    var s := x + tail;
    assert s[0] == x[0];
    PlainNumeral(s);
    DigitRunOfDigits(x, tail);
    assert s[..|x|] == x && s[|x|..] == tail;
    if fraction != "" {
      FractionTail(fraction);
    }
  }

  lemma {:induction false} DigitsValueLeadingZero(x: string)
    requires AllDigits(x)
    ensures AllDigits("0" + x) && DigitsValue("0" + x) == DigitsValue(x)
    decreases |x|
  {
    assert AllDigits("0" + x) by {
      forall i | 0 <= i < |"0" + x| ensures IsDigit(("0" + x)[i]) {
        if i > 0 { assert ("0" + x)[i] == x[i - 1]; }
      }
    }
    if x != [] {
      var y := x[..|x| - 1];
      assert ("0" + x)[..|x|] == "0" + y;
      assert AllDigits(y) by {
        forall i | 0 <= i < |y| ensures IsDigit(y[i]) { assert y[i] == x[i]; }
      }
      DigitsValueLeadingZero(y);
    }
  }

  lemma Pad2Value(n: nat)
    ensures Pad2(n) != [] && AllDigits(Pad2(n)) && DigitsValue(Pad2(n)) == n
  {
    DigitsValueOfNatToString(n);
    if n < 10 {
      DigitsValueLeadingZero(NatToString(n));
    }
  }

  /** A text without the letter 'd' contains no separator. */
  lemma NoLetterD(s: string, sub: string)
    requires 'd' !in s && sub != [] && sub[0] == 'd'
    ensures IndexOf(s, sub) == -1
  {
    forall j | 0 <= j ensures !OccursAt(s, sub, j) {
      if j + |sub| <= |s| {
        assert s[j..j + |sub|][0] == s[j];
      }
    }
  }

  lemma TimeTextExcludes(hours: nat, minutes: nat, seconds: nat, fraction: string, c: char)
    requires AllDigits(fraction) && !IsDigit(c) && c != '.' && c != ':'
    ensures c !in TimeText(hours, minutes, seconds, fraction)
  {
    Pad2Value(minutes);
    Pad2Value(seconds);
    DigitsExclude(NatToString(hours), c);
    DigitsExclude(Pad2(minutes), c);
    DigitsExclude(Pad2(seconds), c);
    FractionTailExcludes(fraction, c);
  }

  /** The time part splits at its two colons into hours, minutes and the rest. */
  lemma TimeTextParts(hours: nat, minutes: nat, seconds: nat, fraction: string)
    requires AllDigits(fraction)
    ensures Split(TimeText(hours, minutes, seconds, fraction), ':') ==
      [NatToString(hours), Pad2(minutes), Pad2(seconds) + (if fraction == "" then "" else "." + fraction)]
  {
    var tail := if fraction == "" then "" else "." + fraction;
    var a := NatToString(hours);
    var b := Pad2(minutes);
    var p := Pad2(seconds);
    var c := p + tail;
    Pad2Value(minutes);
    Pad2Value(seconds);
    DigitsExclude(a, ':');
    DigitsExclude(b, ':');
    assert ':' !in c by {
      DigitsExclude(p, ':');
      FractionTailExcludes(fraction, ':');
    }
    var parts := [a, b, c];
    assert parts[1..] == [b, c] && parts[1..][1..] == [c];
    assert Join([c], ':') == c;
    assert Join([b, c], ':') == (b + [':']) + c;
    assert Join(parts, ':') == (a + [':']) + ((b + [':']) + c);
    AppendAssociative(b + [':'], p, tail);
    AppendAssociative(a + [':'], (b + [':']) + p, tail);
    AppendAssociative(a + [':'], b + [':'], p);
    AppendAssociative(a + [':'], b, [':']);
    assert Join(parts, ':') == TimeText(hours, minutes, seconds, fraction);
    SplitJoin(parts, ':');
  }

  /** The time part splits into exactly three fields that read back as written. */
  lemma TimeTextFields(hours: nat, minutes: nat, seconds: nat, fraction: string)
    requires AllDigits(fraction)
    ensures var timeParts := Reverse(Split(TimeText(hours, minutes, seconds, fraction), ':'));
      |timeParts| == 3 &&
      ParseInt(timeParts[2]) == Some(hours) &&
      ParseInt(timeParts[1]) == Some(minutes) &&
      ParseFloat(timeParts[0]) == Some(Decimal(false, seconds, fraction))
  {
    var a := NatToString(hours);
    var b := Pad2(minutes);
    TimeTextParts(hours, minutes, seconds, fraction);
    var timeParts := Reverse(Split(TimeText(hours, minutes, seconds, fraction), ':'));
    assert timeParts[2] == a && timeParts[1] == b;
    assert ParseInt(a) == Some(hours) by {
      DigitsValueOfNatToString(hours);
      ParseIntOfDigits(a, []);
      assert a + [] == a;
    }
    assert ParseInt(b) == Some(minutes) by {
      Pad2Value(minutes);
      ParseIntOfDigits(b, []);
      assert b + [] == b;
    }
    Pad2Value(seconds);
    ParseFloatOfDigits(Pad2(seconds), fraction);
  }

  /** After a numeral, "days, " first occurs right after the space that follows it. */
  lemma PluralSeparatorAt(a: string, t: string)
    requires AllDigits(a)
    ensures IndexOf(a + " days, " + t, "days, ") == |a| + 1
  {
    var s := a + " days, " + t;
    var i := |a| + 1;
    assert OccursAt(s, "days, ", i) by { assert s[i..i + 6] == "days, "; }
    forall j | 0 <= j < i ensures !OccursAt(s, "days, ", j) {
      if j < |a| { assert s[j] == a[j]; } else { assert s[j] == ' '; }
      if j + 6 <= |s| {
        assert s[j..j + 6][0] == s[j];
      }
    }
  }

  lemma DaysPrefixPlural(n: nat, t: string)
    ensures DaysPart(NatToString(n) + " days, " + t) == DaysSplit(Some(n), t)
  {
    var a := NatToString(n);
    var s := a + " days, " + t;
    var i := |a| + 1;
    PluralSeparatorAt(a, t);
    DaysPartCases(s);
    assert s[..i] == a + " ";
    assert ParseInt(a + " ") == Some(n) by {
      ParseIntOfDigits(a, " ");
      DigitsValueOfNatToString(n);
    }
    assert s[i + 6..] == t;
  }

  /** "1 day, " followed by text without a 'd' never contains "days, ". */
  lemma SingularIsNotPlural(t: string)
    requires 'd' !in t
    ensures IndexOf("1 day, " + t, "days, ") == -1
  {
    var s := "1 day, " + t;
    assert s[..2] == "1 " && s[2..7] == "day, " && s[7..] == t;
    assert s[2..][5..] == t && 'd' !in s[3..7];
    forall j | 0 <= j < |s| && j != 2 ensures s[j] != 'd' {
      if j < 2 { assert s[j] == s[..2][j]; }
      else if j < 7 { assert s[j] == s[3..7][j - 3]; }
      else { assert s[j] == t[j - 7]; }
    }
    forall j | 0 <= j ensures !OccursAt(s, "days, ", j) {
      if j + 6 <= |s| {
        if j == 2 {
          assert s[j..j + 6][3] == s[5] == ',';
        } else {
          assert s[j..j + 6][0] == s[j];
        }
      }
    }
  }

  lemma DaysPrefixSingular(t: string)
    requires 'd' !in t
    ensures DaysPart("1 day, " + t) == DaysSplit(Some(1), t)
  {
    var s := "1 day, " + t;
    SingularIsNotPlural(t);
    assert s[2..7] == "day, " && s[7..] == t;
    assert OccursAt(s, "day, ", 2);
    forall j | 0 <= j < 2 ensures !OccursAt(s, "day, ", j) {
      assert s[j..j + 5][0] == s[j];
    }
    assert IndexOf(s, "day, ") == 2;
    assert s[..2] == "1" + " ";
    ParseIntOfDigits("1", " ");
    assert DigitsValue("1") == 1 by { assert "1"[..0] == []; }
    assert ParseInt(s[..2]) == Some(1);
    DaysPartCases(s);
  }

  /** The day prefix reads back as the day count and leaves the time part. */
  lemma DayTextFields(days: nat, t: string)
    requires 'd' !in t
    ensures DaysPart(DayText(days) + t) == DaysSplit(Some(days), t)
  {
    NoLetterD(t, "days, ");
    NoLetterD(t, "day, ");
    if days == 0 {
      assert DayText(days) + t == t;
      DaysPartCases(t);
    } else if days == 1 {
      assert DayText(days) + t == "1 day, " + t;
      DaysPrefixSingular(t);
    } else {
      assert DayText(days) + t == NatToString(days) + " days, " + t;
      DaysPrefixPlural(days, t);
    }
  }

  /** Reading the tool's text for a non-negative span gives back the numbers it printed. */
  lemma CliTextFields(days: nat, hours: nat, minutes: nat, seconds: nat, fraction: string)
    requires AllDigits(fraction)
    ensures FieldsOf(CliText(days, hours, minutes, seconds, fraction))
         == Fields(Some(days), Some(hours), Some(minutes), Some(Decimal(false, seconds, fraction)))
  {
    var t := TimeText(hours, minutes, seconds, fraction);
    TimeTextExcludes(hours, minutes, seconds, fraction, 'd');
    DayTextFields(days, t);
    TimeTextFields(hours, minutes, seconds, fraction);
  }

  // The worked examples. Each converts a text the tool prints: a lemma for the
  // text of the span, `CliTextFields` to read the numbers back, and a lemma for
  // the ISO text of those numbers.

  lemma ZeroText()
    ensures CliText(0, 0, 0, 0, "") == "0:00:00"
  {
    assert NatToString(0) == "0" && Pad2(0) == "00";
  }

  lemma ZeroIso()
    ensures IsoOf(Fields(Some(0), Some(0), Some(0), Some(Decimal(false, 0, "")))) == Some("PT0S")
  {
  }

  lemma ExampleZero()
    ensures ToIso(Some("0:00:00")) == Some("PT0S")
  {
    ZeroText();
    CliTextFields(0, 0, 0, 0, "");
    ZeroIso();
  }

  lemma HoursText()
    ensures CliText(0, 5, 0, 0, "") == "5:00:00"
  {
    assert NatToString(5) == "5" && Pad2(0) == "00";
  }

  lemma HoursIso()
    ensures IsoOf(Fields(Some(0), Some(5), Some(0), Some(Decimal(false, 0, "")))) == Some("PT5H")
  {
    assert Component(Some(5), 'H') == "5H" by { assert NatToString(5) == "5"; }
    assert "P" + "" + "T" + "5H" + "" + "" == "PT5H";
  }

  lemma ExampleHours()
    ensures ToIso(Some("5:00:00")) == Some("PT5H")
  {
    HoursText();
    CliTextFields(0, 5, 0, 0, "");
    HoursIso();
  }

  lemma FractionText()
    ensures CliText(0, 45, 10, 30, "50") == "45:10:30.50"
  {
    assert NatToString(45) == "45" && Pad2(10) == "10" && Pad2(30) == "30";
    assert "45" + ":" + "10" + ":" + "30" + ".50" == "45:10:30.50";
  }

  lemma FractionSeconds()
    ensures SecondsComponent(Some(Decimal(false, 30, "50"))) == "30.5S"
  {
    assert TrimZeros("50") == "5" by { assert "50"[..1] == "5"; }
    assert NatToString(30) == "30";
  }

  lemma FractionComponents()
    ensures Component(Some(45), 'H') == "45H" && Component(Some(10), 'M') == "10M"
  {
    assert NatToString(45) == "45" && NatToString(10) == "10";
  }

  lemma FractionIso()
    ensures IsoOf(Fields(Some(0), Some(45), Some(10), Some(Decimal(false, 30, "50")))) == Some("PT45H10M30.5S")
  {
    FractionComponents();
    FractionSeconds();
    assert "P" + "" + "T" + "45H" + "10M" + "30.5S" == "PT45H10M30.5S";
  }

  lemma ExampleFraction()
    ensures ToIso(Some("45:10:30.50")) == Some("PT45H10M30.5S")
  {
    FractionText();
    CliTextFields(0, 45, 10, 30, "50");
    FractionIso();
  }

  lemma OneDayText()
    ensures CliText(1, 5, 0, 0, "") == "1 day, 5:00:00"
  {
    assert DayText(1) == "1 day, " by { assert NatToString(1) == "1"; }
    assert TimeText(5, 0, 0, "") == "5:00:00" by { assert NatToString(5) == "5" && Pad2(0) == "00"; }
    assert "1 day, " + "5:00:00" == "1 day, 5:00:00";
  }

  lemma OneDayIso()
    ensures IsoOf(Fields(Some(1), Some(5), Some(0), Some(Decimal(false, 0, "")))) == Some("P1DT5H")
  {
    assert Component(Some(1), 'D') == "1D" by { assert NatToString(1) == "1"; }
    assert Component(Some(5), 'H') == "5H" by { assert NatToString(5) == "5"; }
    assert "P" + "1D" + "T" + "5H" + "" + "" == "P1DT5H";
  }

  lemma ExampleOneDay()
    ensures ToIso(Some("1 day, 5:00:00")) == Some("P1DT5H")
  {
    OneDayText();
    CliTextFields(1, 5, 0, 0, "");
    OneDayIso();
  }

  /** The largest span the tool prints stands for "not set" and has no ISO text. */
  lemma NumeralOfMaximum()
    ensures NatToString(10675199) == "10675199"
  {
    assert NatToString(1) == "1";
    assert NatToString(10) == "10";
    assert NatToString(106) == "106";
    assert NatToString(1067) == "1067";
    assert NatToString(10675) == "10675";
    assert NatToString(106751) == "106751";
    assert NatToString(1067519) == "1067519";
  }

  lemma MaximumTimeText()
    ensures TimeText(2, 48, 5, "477581") == "2:48:05.477581"
  {
    assert NatToString(2) == "2" && Pad2(48) == "48";
    assert Pad2(5) == "05" by { assert NatToString(5) == "5"; }
    assert "2" + ":" + "48" + ":" + "05" + ".477581" == "2:48:05.477581";
  }

  lemma MaximumDayText()
    ensures DayText(10675199) == "10675199 days, "
  {
    NumeralOfMaximum();
  }

  lemma MaximumText()
    ensures CliText(10675199, 2, 48, 5, "477581") == "10675199 days, 2:48:05.477581"
  {
    MaximumDayText();
    MaximumTimeText();
    assert "10675199 days, " + "2:48:05.477581" == "10675199 days, 2:48:05.477581";
  }

  lemma ExampleMaximum()
    ensures ToIso(Some("10675199 days, 2:48:05.477581")) == None
  {
    MaximumText();
    CliTextFields(10675199, 2, 48, 5, "477581");
  }

  // ---------------------------------------------------------------------------
  // A whole number of days

  /** The shape ISO 8601 gives a duration: it starts with 'P' and has at least one
      component after it, and the time designator 'T' appears only when a time
      component (which starts with a digit) follows it. */
  predicate IsoWellFormed(r: string)
  {
    |r| >= 2 && r[0] == 'P' &&
    forall i :: 0 <= i < |r| && r[i] == 'T' ==> i + 1 < |r| && IsDigit(r[i + 1])
  }

  lemma WholeDaysText()
    ensures CliText(1, 0, 0, 0, "") == "1 day, 0:00:00"
  {
    assert DayText(1) == "1 day, " by { assert NatToString(1) == "1"; }
    assert TimeText(0, 0, 0, "") == "0:00:00" by { assert NatToString(0) == "0" && Pad2(0) == "00"; }
    assert "1 day, " + "0:00:00" == "1 day, 0:00:00";
  }

  lemma WholeDaysIso()
    ensures IsoOf(Fields(Some(1), Some(0), Some(0), Some(Decimal(false, 0, "")))) == Some("P1DT")
  {
    assert Component(Some(1), 'D') == "1D" by { assert NatToString(1) == "1"; }
    assert "P" + "1D" + "T" + "" + "" + "" == "P1DT";
  }

  lemma WholeDaysIllFormed()
    ensures !IsoWellFormed("P1DT")
  {
    assert "P1DT"[3] == 'T' && |"P1DT"| == 4;
  }

  /** The converter as written emits 'T' even when no time component follows:
      a span of whole days becomes text that is not a well formed duration. */
  lemma IsoOfWholeDays()
    ensures ToIso(Some("1 day, 0:00:00")) == Some("P1DT")
    ensures !IsoWellFormed("P1DT")
  {
    WholeDaysText();
    CliTextFields(1, 0, 0, 0, "");
    WholeDaysIso();
    WholeDaysIllFormed();
  }

  /** The numbers as the tool prints them: all present and none negative. */
  predicate Printed(f: Fields)
  {
    f.days.Some? && f.days.value >= 0 &&
    f.hours.Some? && f.hours.value >= 0 &&
    f.minutes.Some? && f.minutes.value >= 0 &&
    f.seconds.Some? && !f.seconds.value.negative && AllDigits(f.seconds.value.fraction)
  }

  /** The converter with the time designator written only before a time component. */
  function IsoCorrected(f: Fields): Option<string>
  {
    if IsSentinel(f) then None
    else if IsZeroDuration(f) then Some("PT0S")
    else
      var time := Component(f.hours, 'H') + Component(f.minutes, 'M') + SecondsComponent(f.seconds);
      Some("P" + Component(f.days, 'D') + (if time == "" then "" else "T" + time))
  }

  /** A non-empty component starts with a digit and has no 'T'. */
  lemma ComponentStart(n: Option<int>, designator: char)
    requires designator != 'T'
    ensures Component(n, designator) != "" ==> IsDigit(Component(n, designator)[0])
    ensures 'T' !in Component(n, designator)
  {
    if n.Some? && n.value > 0 {
      DigitsExclude(NatToString(n.value), 'T');
    }
  }

  lemma SecondsComponentStart(d: Option<Decimal>)
    ensures SecondsComponent(d) != "" ==> IsDigit(SecondsComponent(d)[0])
    ensures 'T' !in SecondsComponent(d)
  {
    if SecondsComponent(d) != "" {
      var v := d.value;
      var f := TrimZeros(v.fraction);
      assert AllDigits(f) by {
        forall i | 0 <= i < |f| ensures IsDigit(f[i]) { assert f[i] == v.fraction[i]; }
      }
      DigitsExclude(NatToString(v.whole), 'T');
      FractionTailExcludes(f, 'T');
      assert SecondsComponent(d)[0] == NatToString(v.whole)[0];
    }
  }

  /** `A + "T" + B` with no other 'T' and a digit after it has the time designator well placed. */
  lemma DesignatorPlaced(a: string, b: string)
    requires 'T' !in a && 'T' !in b && b != [] && IsDigit(b[0])
    ensures forall i :: 0 <= i < |a + "T" + b| && (a + "T" + b)[i] == 'T' ==>
      i + 1 < |a + "T" + b| && IsDigit((a + "T" + b)[i + 1])
  {
    var r := a + "T" + b;
    forall i | 0 <= i < |r| && i != |a| ensures r[i] != 'T' {
      if i < |a| { assert r[i] == a[i]; } else { assert r[i] == b[i - |a| - 1]; }
    }
    assert r[|a| + 1] == b[0];
  }

  /** Days alone, with no time designator, are well formed. */
  lemma WellFormedWithoutTime(d: string)
    requires d != "" && 'T' !in d
    ensures IsoWellFormed("P" + d)
  {
    var r := "P" + d;
    forall i | 0 <= i < |r| ensures r[i] != 'T' {
      if i > 0 { assert r[i] == d[i - 1]; }
    }
  }

  /** A time designator followed by a component that starts with a digit is well formed. */
  lemma WellFormedWithTime(d: string, time: string)
    requires 'T' !in d && 'T' !in time && time != [] && IsDigit(time[0])
    ensures IsoWellFormed("P" + d + "T" + time)
  {
    assert 'T' !in "P" + d;
    DesignatorPlaced("P" + d, time);
  }

  /** The time part starts with a digit whenever it is not empty, and has no 'T'. */
  lemma TimeStart(f: Fields)
    ensures var time := Component(f.hours, 'H') + Component(f.minutes, 'M') + SecondsComponent(f.seconds);
      (time != "" ==> IsDigit(time[0])) && 'T' !in time
  {
    var h := Component(f.hours, 'H');
    var m := Component(f.minutes, 'M');
    var sec := SecondsComponent(f.seconds);
    ComponentStart(f.hours, 'H');
    ComponentStart(f.minutes, 'M');
    SecondsComponentStart(f.seconds);
    if h != "" { assert (h + m + sec)[0] == h[0]; }
    else if m != "" { assert (h + m + sec)[0] == m[0]; }
    else { assert h + m + sec == sec; }
  }

  /** A printed span that is not zero and has no time component has days. */
  lemma EmptyTimeMeansDays(f: Fields)
    requires Printed(f) && !IsZeroDuration(f)
    requires Component(f.hours, 'H') + Component(f.minutes, 'M') + SecondsComponent(f.seconds) == ""
    ensures Component(f.days, 'D') != ""
  {
    assert Component(f.hours, 'H') == "" && Component(f.minutes, 'M') == "";
    assert f.hours == Some(0) && f.minutes == Some(0);
    assert IsZero(f.seconds.value);
  }

  /** For every span the tool prints, the corrected text is well formed. */
  lemma IsoCorrectedWellFormed(f: Fields)
    requires Printed(f) && !IsSentinel(f)
    ensures IsoCorrected(f).Some? && IsoWellFormed(IsoCorrected(f).value)
  {
    if !IsZeroDuration(f) {
      var d := Component(f.days, 'D');
      var time := Component(f.hours, 'H') + Component(f.minutes, 'M') + SecondsComponent(f.seconds);
      ComponentStart(f.days, 'D');
      TimeStart(f);
      if time == "" {
        EmptyTimeMeansDays(f);
        WellFormedWithoutTime(d);
      } else {
        assert IsoCorrected(f).value == "P" + d + "T" + time;
        WellFormedWithTime(d, time);
      }
    }
  }

  /** The correction changes nothing when a time component is present. */
  lemma IsoCorrectedAgrees(f: Fields)
    requires Component(f.hours, 'H') + Component(f.minutes, 'M') + SecondsComponent(f.seconds) != ""
    ensures IsoCorrected(f) == IsoOf(f)
  {
    var h, m, sec := Component(f.hours, 'H'), Component(f.minutes, 'M'), SecondsComponent(f.seconds);
    var p := "P" + Component(f.days, 'D');
    AppendAssociative(p, "T", h + m + sec);
    AppendAssociative(p + "T", h + m, sec);
    AppendAssociative(p + "T", h, m);
  }

  /** Whole days lose the time designator. */
  lemma IsoCorrectedWholeDays()
    ensures IsoCorrected(Fields(Some(1), Some(0), Some(0), Some(Decimal(false, 0, "")))) == Some("P1D")
    ensures IsoWellFormed("P1D")
  {
    assert NatToString(1) == "1";
    assert Component(Some(1), 'D') == "1D";
    assert Component(Some(0), 'H') == "" && Component(Some(0), 'M') == "";
    assert SecondsComponent(Some(Decimal(false, 0, ""))) == "";
    assert "P" + "1D" + "" == "P1D";
  }
}
