/** Text produced by AlertSystem.add_alert: the rendered distance, the spoken
    alert sentence and the debounce key (src/analyzer/alert_system.py:30-37).
    Numbers are the exact real values of the source's floats, so a product
    such as distance * 100 is not rounded as a float multiply would be. */
module AlertText {

  predicate IsDigit(c: char) { '0' <= c <= '9' }

  predicate AllDigits(s: string) { forall i :: 0 <= i < |s| ==> IsDigit(s[i]) }

  predicate StartsWith(s: string, prefix: string) { |prefix| <= |s| && s[..|prefix|] == prefix }

  predicate EndsWith(s: string, suffix: string) { |suffix| <= |s| && s[|s| - |suffix|..] == suffix }

  function DigitValue(c: char): (d: nat)
    requires IsDigit(c)
    ensures d < 10
  {
    c as int - '0' as int
  }

  function DigitChar(d: nat): (c: char)
    requires d < 10
    ensures IsDigit(c) && DigitValue(c) == d
  {
    ('0' as int + d) as char
  }

  // ---------------------------------------------------------------------------
  // Integers as Python's str(int) writes them
  // ---------------------------------------------------------------------------

  /** Decimal digits of n, most significant first, without leading zeros. */
  function NatToDecimal(n: nat): (s: string)
    ensures |s| >= 1 && AllDigits(s)
    ensures s[0] == '0' <==> n == 0
    ensures n == 0 ==> s == "0"
    decreases n
  {
    if n < 10 then [DigitChar(n)] else NatToDecimal(n / 10) + [DigitChar(n % 10)]
  }

  /** The number a string of decimal digits denotes. */
  function DecimalValue(s: string): nat
    requires AllDigits(s)
  {
    if s == [] then 0 else 10 * DecimalValue(s[..|s| - 1]) + DigitValue(s[|s| - 1])
  }

  lemma {:induction false} DecimalRoundTrip(n: nat)
    ensures DecimalValue(NatToDecimal(n)) == n
  {
    if n >= 10 {
      var s := NatToDecimal(n / 10) + [DigitChar(n % 10)];
      assert s[..|s| - 1] == NatToDecimal(n / 10);
      DecimalRoundTrip(n / 10);
    }
  }

  /** Digits without leading zeros: "0", or digits that start with 1 to 9. */
  predicate Canonical(d: string)
  {
    |d| >= 1 && AllDigits(d) && (d[0] == '0' ==> |d| == 1)
  }

  /** Digits that start with 1 to 9 denote a positive number. */
  lemma {:induction false} PositiveLead(d: string)
    requires |d| >= 1 && AllDigits(d) && d[0] != '0'
    ensures DecimalValue(d) >= 1
    decreases |d|
  {
    if |d| > 1 {
      var p := d[..|d| - 1];
      assert p[0] == d[0];
      PositiveLead(p);
    } else {
      assert d[..0] == [];
    }
  }

  /** Digits without leading zeros are exactly what NatToDecimal writes for
      their value: the decimal text of a number is unique. */
  lemma {:induction false} DecimalUnique(d: string)
    requires Canonical(d)
    ensures NatToDecimal(DecimalValue(d)) == d
    decreases |d|
  {
    var p, last := d[..|d| - 1], d[|d| - 1];
    assert DigitChar(DigitValue(last)) == last;
    if |d| == 1 {
      assert p == [];
      assert d == [last];
    } else {
      assert p[0] == d[0];
      PositiveLead(p);
      DecimalUnique(p);
      assert d == p + [last];
    }
  }

  /** The shape of str(i): an optional minus sign, then digits without
      leading zeros, and never "-0". */
  predicate IsIntText(s: string)
  {
    |s| >= 1 && (if s[0] == '-' then Canonical(s[1..]) && s[1] != '0' else Canonical(s))
  }

  /** str(i) for a Python int: a minus sign before the digits of |i| when negative. */
  function IntToDecimal(i: int): (s: string)
    ensures IsIntText(s)
    ensures s[0] == '-' <==> i < 0
  {
    if i < 0 then "-" + NatToDecimal(-i) else NatToDecimal(i)
  }

  /** Reads back a string produced by IntToDecimal. */
  function ReadInt(s: string): int
    requires IsIntText(s)
  {
    if s[0] == '-' then -(DecimalValue(s[1..]) as int) else DecimalValue(s)
  }

  lemma IntRoundTrip(i: int)
    ensures ReadInt(IntToDecimal(i)) == i
  {
    if i < 0 {
      assert IntToDecimal(i)[1..] == NatToDecimal(-i);
      DecimalRoundTrip(-i);
    } else {
      DecimalRoundTrip(i);
    }
  }

  /** A text of the shape of str(i) is the one IntToDecimal writes for the
      number it denotes: the sign and the digits are fixed by the value. */
  lemma IntTextUnique(s: string)
    requires IsIntText(s)
    ensures IntToDecimal(ReadInt(s)) == s
  {
    if s[0] == '-' {
      PositiveLead(s[1..]);
      DecimalUnique(s[1..]);
      assert s == "-" + s[1..];
    } else {
      DecimalUnique(s);
    }
  }

  // ---------------------------------------------------------------------------
  // Python's int(x) and format(x, ".1f")
  // ---------------------------------------------------------------------------

  /** int(x): truncation toward zero. */
  function TruncateToInt(x: real): (i: int)
    ensures 0.0 <= x ==> 0 <= i && i as real <= x < i as real + 1.0
    ensures x < 0.0 ==> i <= 0 && i as real - 1.0 < x <= i as real
  {
    if x >= 0.0 then x.Floor else -((-x).Floor)
  }

  /** 10 * x rounded to the nearest integer, ties to the even one: the digits
      format(x, ".1f") prints for the exact value x. */
  function RoundTenths(x: real): (n: int)
    ensures n as real - 0.5 <= 10.0 * x <= n as real + 0.5
    ensures (10.0 * x - n as real == 0.5 || n as real - 10.0 * x == 0.5) ==> n % 2 == 0
  {
    var t := 10.0 * x;
    var f := t.Floor;
    var frac := t - f as real;
    if frac < 0.5 then f
    else if frac > 0.5 then f + 1
    else if f % 2 == 0 then f
    else f + 1
  }

  /** The two postconditions of RoundTenths single out its result. */
  lemma RoundTenthsUnique(x: real, n: int)
    requires n as real - 0.5 <= 10.0 * x <= n as real + 0.5
    requires (10.0 * x - n as real == 0.5 || n as real - 10.0 * x == 0.5) ==> n % 2 == 0
    ensures n == RoundTenths(x)
  {
    var m := RoundTenths(x);
    // both lie within 0.5 of 10 * x, so they differ by at most one, and by
    // one only when 10 * x is halfway between them, where both are even
    assert n - m <= 1 && m - n <= 1;
  }

  /** A string of the shape "<digits>.<digit>", the integer part without
      leading zeros. */
  predicate IsFixedOne(s: string)
  {
    |s| >= 3 && s[|s| - 2] == '.' && Canonical(s[..|s| - 2]) && IsDigit(s[|s| - 1])
  }

  /** The number of tenths a string of the shape "<digits>.<digit>" denotes. */
  function ReadTenths(s: string): nat
    requires IsFixedOne(s)
  {
    10 * DecimalValue(s[..|s| - 2]) + DigitValue(s[|s| - 1])
  }

  /** format(x, ".1f") for a non-negative x. */
  function FixedOneDecimal(x: real): (s: string)
    requires 0.0 <= x
    ensures IsFixedOne(s)
  {
    var n := RoundTenths(x);
    var s := NatToDecimal(n / 10) + "." + [DigitChar(n % 10)];
    assert s[..|s| - 2] == NatToDecimal(n / 10);
    s
  }

  /** The rendered text reads back as x rounded to one decimal, so it is
      within 0.05 of x. */
  lemma FixedOneDecimalValue(x: real)
    requires 0.0 <= x
    ensures ReadTenths(FixedOneDecimal(x)) == RoundTenths(x)
    ensures ReadTenths(FixedOneDecimal(x)) as real / 10.0 - 0.05 <= x <= ReadTenths(FixedOneDecimal(x)) as real / 10.0 + 0.05
  {
    var n := RoundTenths(x);
    var s := FixedOneDecimal(x);
    assert s[..|s| - 2] == NatToDecimal(n / 10);
    DecimalRoundTrip(n / 10);
  }

  /** A text of the shape "<digits>.<digit>" that reads back as x rounded to
      tenths is the text format(x, ".1f") writes. */
  lemma FixedOneUnique(s: string, x: real)
    requires 0.0 <= x && IsFixedOne(s) && ReadTenths(s) == RoundTenths(x)
    ensures FixedOneDecimal(x) == s
  {
    var digits, last := s[..|s| - 2], s[|s| - 1];
    DecimalUnique(digits);
    assert DigitChar(DigitValue(last)) == last;
    assert s == digits + "." + [last];
  }

  // ---------------------------------------------------------------------------
  // The alert sentence and its debounce key
  // ---------------------------------------------------------------------------

  const WarningPrefix: string := "Warning! "
  const MetersUnit: string := " meters"
  const CentimetersUnit: string := " centimeters"
  const Ending: string := " away."

  /** The number in dist_str: one decimal from 1 up, whole centimeters
      (truncated) below. */
  function DistanceNumber(distance: real): (n: string)
    ensures 1.0 <= distance ==> IsFixedOne(n) && ReadTenths(n) == RoundTenths(distance)
    ensures distance < 1.0 ==> IsIntText(n) && ReadInt(n) == TruncateToInt(distance * 100.0)
  {
    if distance >= 1.0 then
      FixedOneDecimalValue(distance);
      FixedOneDecimal(distance)
    else
      IntRoundTrip(TruncateToInt(distance * 100.0));
      IntToDecimal(TruncateToInt(distance * 100.0))
  }

  /** The unit in dist_str: meters exactly from 1 up. */
  function DistanceUnit(distance: real): (u: string)
    ensures u == MetersUnit <==> 1.0 <= distance
    ensures u == CentimetersUnit <==> distance < 1.0
  {
    if distance >= 1.0 then MetersUnit else CentimetersUnit
  }

  /** dist_str: meters from 1 up, centimeters below. */
  function DistanceText(distance: real): (s: string)
    ensures 1.0 <= distance ==> EndsWith(s, MetersUnit) && IsFixedOne(s[..|s| - |MetersUnit|])
    ensures distance < 1.0 ==> EndsWith(s, CentimetersUnit)
  {
    var n := DistanceNumber(distance);
    assert (n + DistanceUnit(distance))[..|n|] == n;
    n + DistanceUnit(distance)
  }

  /** The number in a centimeter text is distance * 100 truncated toward zero. */
  lemma CentimetersValue(distance: real)
    requires distance < 1.0
    ensures var s := DistanceText(distance);
            var digits := s[..|s| - |CentimetersUnit|];
            IsIntText(digits) && ReadInt(digits) == TruncateToInt(distance * 100.0)
  {
    var i := TruncateToInt(distance * 100.0);
    var s := DistanceText(distance);
    assert s == IntToDecimal(i) + CentimetersUnit;
    assert s[..|s| - |CentimetersUnit|] == IntToDecimal(i);
    IntRoundTrip(i);
  }

  /** The number in a meter text is distance rounded to one decimal. */
  lemma MetersValue(distance: real)
    requires 1.0 <= distance
    ensures var s := DistanceText(distance);
            IsFixedOne(s[..|s| - |MetersUnit|]) &&
            ReadTenths(s[..|s| - |MetersUnit|]) == RoundTenths(distance)
  {
    var s := DistanceText(distance);
    assert s == FixedOneDecimal(distance) + MetersUnit;
    assert s[..|s| - |MetersUnit|] == FixedOneDecimal(distance);
    FixedOneDecimalValue(distance);
  }

  /** alert_text before the warning: label, position, distance. It opens
      with the label and a blank, and closes with the distance and " away.". */
  function AlertSentence(objectLabel: string, position: string, distance: real): (t: string)
    ensures StartsWith(t, objectLabel + " at " + position + ", ")
    ensures EndsWith(t, DistanceText(distance) + Ending)
    ensures |t| == |objectLabel + " at " + position + ", "| + |DistanceText(distance) + Ending|
    ensures StartsWith(t, objectLabel + " ")
    ensures EndsWith(t, Ending)
  {
    var lead := objectLabel + " ";
    var a := objectLabel + " at ";
    var head := a + position + ", ";
    assert a[..|lead|] == lead;
    StartsWithExtended(a, position, lead);
    StartsWithExtended(a + position, ", ", lead);
    StartsWithExtended(head, DistanceText(distance), lead);
    StartsWithExtended(head + DistanceText(distance), Ending, lead);
    ThreeParts(head, DistanceText(distance), Ending);
    head + DistanceText(distance) + Ending
  }

  /** h + d + e opens with h, closes with d + e, and with e alone. */
  lemma ThreeParts(h: string, d: string, e: string)
    ensures StartsWith(h + d + e, h) && EndsWith(h + d + e, d + e) && EndsWith(h + d + e, e)
    ensures |h + d + e| == |h| + |d + e|
  {
    var t := h + d + e;
    assert t[..|h|] == h;
    assert t[|h|..] == d + e;
    assert t[|t| - |e|..] == e;
  }

  /** alert_text, with "Warning! " in front when the object is closer than 1.0. */
  function AlertMessage(objectLabel: string, position: string, distance: real): (m: string)
    ensures distance < 1.0 ==> StartsWith(m, WarningPrefix) && m[|WarningPrefix|..] == AlertSentence(objectLabel, position, distance)
    ensures 1.0 <= distance ==> m == AlertSentence(objectLabel, position, distance)
    ensures EndsWith(m, Ending)
  {
    var text := AlertSentence(objectLabel, position, distance);
    if distance < 1.0 then
      EndsWithExtended(WarningPrefix, text, Ending);
      assert (WarningPrefix + text)[..|WarningPrefix|] == WarningPrefix;
      WarningPrefix + text
    else text
  }

  lemma EndsWithExtended(w: string, x: string, y: string)
    requires EndsWith(x, y)
    ensures EndsWith(w + x, y)
  {
    assert (w + x)[|w + x| - |y|..] == x[|x| - |y|..];
  }

  lemma StartsWithExtended(x: string, y: string, z: string)
    requires StartsWith(x, z)
    ensures StartsWith(x + y, z)
  {
    assert (x + y)[..|z|] == x[..|z|];
  }

  /** Text ending in the number and unit, then " away.". */
  lemma UnitEnding(x: string, n: string, u: string)
    ensures EndsWith(x + (n + u) + Ending, u + Ending)
  {
    var s := x + (n + u) + Ending;
    assert s[|s| - |u + Ending|..] == u + Ending;
  }

  lemma MetersNotCentimeters(x: string, n: string)
    ensures !EndsWith(x + (n + MetersUnit) + Ending, CentimetersUnit + Ending)
  {
    var s := x + (n + MetersUnit) + Ending;
    if |CentimetersUnit + Ending| <= |s| {
      // the blank before "meters" faces the 'i' of "centimeters"
      assert s[|s| - |CentimetersUnit + Ending| + 5] == ' ';
      assert (CentimetersUnit + Ending)[5] == 'i';
    }
  }

  lemma CentimetersNotMeters(x: string, n: string)
    ensures !EndsWith(x + (n + CentimetersUnit) + Ending, MetersUnit + Ending)
  {
    var s := x + (n + CentimetersUnit) + Ending;
    // the 'i' before "meters" faces the blank of " meters"
    assert s[|s| - |MetersUnit + Ending|] == 'i';
    assert (MetersUnit + Ending)[0] == ' ';
  }

  /** The unit names the distance band, in both directions. */
  lemma UnitMatchesDistance(objectLabel: string, position: string, distance: real)
    ensures EndsWith(AlertMessage(objectLabel, position, distance), MetersUnit + Ending) <==> 1.0 <= distance
    ensures EndsWith(AlertMessage(objectLabel, position, distance), CentimetersUnit + Ending) <==> distance < 1.0
  {
    var x := objectLabel + " at " + position + ", ";
    var n := DistanceNumber(distance);
    var u := DistanceUnit(distance);
    var sentence := AlertSentence(objectLabel, position, distance);
    assert sentence == x + (n + u) + Ending;
    UnitEnding(x, n, u);
    if distance >= 1.0 {
      MetersNotCentimeters(x, n);
    } else {
      CentimetersNotMeters(x, n);
      EndsWithExtended(WarningPrefix, sentence, CentimetersUnit + Ending);
      var m := WarningPrefix + sentence;
      assert m[|m| - |MetersUnit + Ending|..] == sentence[|sentence| - |MetersUnit + Ending|..];
    }
  }

  /** A text that begins with a label and a blank starts with "Warning! "
      exactly when the label and the blank do. */
  lemma NotWarning(objectLabel: string, m: string)
    requires !StartsWith(objectLabel + " ", WarningPrefix)
    requires StartsWith(m, objectLabel + " ")
    ensures !StartsWith(m, WarningPrefix)
  {
    var lead := objectLabel + " ";
    if |lead| >= |WarningPrefix| {
      assert m[..|WarningPrefix|] == lead[..|WarningPrefix|];
    } else {
      assert m[|objectLabel|] == ' ';
      assert WarningPrefix[|objectLabel|] != ' ';
    }
  }

  /** The message starts with "Warning! " exactly when distance < 1.0, for
      every label whose sentence could not open with those words anyway:
      the only labels left out are "Warning!" and those starting "Warning! ". */
  lemma WarningMatchesDistance(objectLabel: string, position: string, distance: real)
    requires !StartsWith(objectLabel + " ", WarningPrefix)
    ensures StartsWith(AlertMessage(objectLabel, position, distance), WarningPrefix) <==> distance < 1.0
  {
    if 1.0 <= distance {
      NotWarning(objectLabel, AlertSentence(objectLabel, position, distance));
    }
  }

  const SummaryPrefix: string := "Summary: "

  /** The text speak_summary enqueues: the summary behind "Summary: ". */
  function SummaryMessage(text: string): (m: string)
    ensures StartsWith(m, SummaryPrefix) && m[|SummaryPrefix|..] == text
  {
    SummaryPrefix + text
  }

  /** alert_key = f"{label}_{position}". */
  function AlertKey(objectLabel: string, position: string): (k: string)
    ensures |k| == |objectLabel| + 1 + |position|
    ensures k[..|objectLabel|] == objectLabel && k[|objectLabel|] == '_' && k[|objectLabel| + 1..] == position
  {
    objectLabel + "_" + position
  }

  /** Index of the last '_' in k, or -1 when there is none. */
  function LastUnderscore(k: string): (i: int)
    ensures -1 <= i < |k|
    ensures 0 <= i ==> k[i] == '_'
  {
    if k == [] then -1
    else if k[|k| - 1] == '_' then |k| - 1
    else LastUnderscore(k[..|k| - 1])
  }

  /** When the position holds no '_', the label ends where the last '_' of
      the key is: the key can be split back into label and position. */
  lemma {:induction false} SplitAlertKey(objectLabel: string, position: string)
    requires '_' !in position
    ensures LastUnderscore(AlertKey(objectLabel, position)) == |objectLabel|
    decreases |position|
  {
    if position != [] {
      var shorter := position[..|position| - 1];
      assert AlertKey(objectLabel, position)[..|AlertKey(objectLabel, position)| - 1] == AlertKey(objectLabel, shorter);
      SplitAlertKey(objectLabel, shorter);
    }
  }

  /** Positions from the geometry module never contain '_', and then two
      alerts share a key exactly when they share label and position. */
  lemma AlertKeyInjective(label1: string, position1: string, label2: string, position2: string)
    requires '_' !in position1 && '_' !in position2
    ensures AlertKey(label1, position1) == AlertKey(label2, position2) <==> label1 == label2 && position1 == position2
  {
    SplitAlertKey(label1, position1);
    SplitAlertKey(label2, position2);
  }
}
