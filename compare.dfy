/**
 * The comparison screen's evaluator: reading a magnitude out of a free-text
 * spec value, loose equality of spec values, the winner of a numeric row,
 * the width of the magnitude meter, and the per-row view built from them.
 */
module Compare {
  import opened Wrappers
  import opened Text
  import opened Seqs
  import opened Records

  /** One entry of the comparison schema. */
  datatype SpecField = SpecField(key: string, title: string, numeric: bool, unit: Option<string>)

  /** The fixed schema, in display order. */
  const SPEC_FIELDS: seq<SpecField> := [
    SpecField("cpu", "CPU", false, None),
    SpecField("gpu", "GPU", false, None),
    SpecField("display_size", "ขนาดหน้าจอ", true, Some("นิ้ว")),
    SpecField("display_type", "ประเภทจอ", false, None),
    SpecField("ram", "RAM", true, Some("GB")),
    SpecField("rom", "ROM", true, Some("GB")),
    SpecField("battery", "แบตเตอรี่", true, Some("mAh"))
  ]

  // ---------------------------------------------------------------------
  // extractNumber
  // ---------------------------------------------------------------------

  predicate HasDigit(s: string) {
    exists i :: 0 <= i < |s| && IsDigit(s[i])
  }

  /** `s.replace(/,/g, '')`. */
  function RemoveCommas(s: string): (r: string)
    ensures ',' !in r
    ensures HasDigit(r) <==> HasDigit(s)
    ensures ',' !in s ==> r == s
  {
    if s == [] then []
    else
      var rest := RemoveCommas(s[1..]);
      assert HasDigit(s) <==> IsDigit(s[0]) || HasDigit(s[1..]) by {
        if HasDigit(s) && !IsDigit(s[0]) {
          var i :| 0 <= i < |s| && IsDigit(s[i]);
          assert s[1..][i - 1] == s[i];
        }
        if HasDigit(s[1..]) {
          var i :| 0 <= i < |s[1..]| && IsDigit(s[1..][i]);
          assert s[i + 1] == s[1..][i];
        }
      }
      var r := if s[0] == ',' then rest else [s[0]] + rest;
      assert HasDigit(r) <==> (s[0] != ',' && IsDigit(s[0])) || HasDigit(rest) by {
        if s[0] != ',' {
          assert r[1..] == rest;
          if HasDigit(r) && !IsDigit(r[0]) {
            var i :| 0 <= i < |r| && IsDigit(r[i]);
            assert rest[i - 1] == r[i];
          }
          if HasDigit(rest) {
            var i :| 0 <= i < |rest| && IsDigit(rest[i]);
            assert r[i + 1] == rest[i];
          }
        }
      }
      assert s == [s[0]] + s[1..];
      r
  }

  /** The index of the first digit at or after `i`. */
  function FirstDigitFrom(s: string, i: nat): (r: Option<nat>)
    requires i <= |s|
    ensures r.Some? ==> i <= r.value < |s| && IsDigit(s[r.value])
    ensures r.Some? ==> forall k :: i <= k < r.value ==> !IsDigit(s[k])
    ensures r.None? ==> forall k :: i <= k < |s| ==> !IsDigit(s[k])
    decreases |s| - i
  {
    if i == |s| then None else if IsDigit(s[i]) then Some(i) else FirstDigitFrom(s, i + 1)
  }

  /** The end of the maximal run of digits that starts at `i`. */
  function DigitRunEnd(s: string, i: nat): (j: nat)
    requires i <= |s|
    ensures i <= j <= |s|
    ensures forall k :: i <= k < j ==> IsDigit(s[k])
    ensures j == |s| || !IsDigit(s[j])
    decreases |s| - i
  {
    if i < |s| && IsDigit(s[i]) then DigitRunEnd(s, i + 1) else i
  }

  /** The text matched by `([0-9]+(?:\.[0-9]+)?)`: the digits before the
      point and the digits after it (empty when the group did not match). */
  datatype NumberMatch = NumberMatch(whole: string, fraction: string)

  /** A slice whose every character is a digit is a digit run. */
  lemma DigitSlice(s: string, lo: nat, hi: nat)
    requires lo <= hi <= |s|
    requires forall k :: lo <= k < hi ==> IsDigit(s[k])
    ensures AllDigits(s[lo..hi])
  {
    assert forall k :: 0 <= k < hi - lo ==> s[lo..hi][k] == s[lo + k];
  }

  /** The leftmost, greedy match of the number pattern in `s`. */
  function MatchNumber(s: string): (m: Option<NumberMatch>)
    ensures m.None? <==> !HasDigit(s)
    ensures m.Some? ==> |m.value.whole| >= 1 && AllDigits(m.value.whole) && AllDigits(m.value.fraction)
  {
    match FirstDigitFrom(s, 0)
    case None => None
    case Some(i) =>
      var j := DigitRunEnd(s, i);
      DigitSlice(s, i, j);
      if j + 1 < |s| && s[j] == '.' && IsDigit(s[j + 1]) then
        var k := DigitRunEnd(s, j + 1);
        DigitSlice(s, j + 1, k);
        Some(NumberMatch(s[i..j], s[j + 1..k]))
      else
        Some(NumberMatch(s[i..j], ""))
  }

  lemma FractionBelowOne(v: real, p: real)
    requires 0.0 <= v < p
    ensures 0.0 <= v / p < 1.0
  {
    assert v / p * p == v;
  }

  /** The exact value `w.f` of a whole part `w` and an `n`-digit fraction `f`. */
  function DecimalValue(w: nat, f: nat, n: nat): (x: real)
    requires f < Pow10(n)
    ensures w as real <= x < w as real + 1.0
  {
    FractionBelowOne(f as real, Pow10(n) as real);
    w as real + f as real / Pow10(n) as real
  }

  /** `parseFloat` of the matched text, as an exact decimal. */
  function ParseDecimal(m: NumberMatch): (x: real)
    requires AllDigits(m.whole) && AllDigits(m.fraction)
    ensures DigitsValue(m.whole) as real <= x < DigitsValue(m.whole) as real + 1.0
  {
    DecimalValue(DigitsValue(m.whole), DigitsValue(m.fraction), |m.fraction|)
  }

  /** `extractNumber(val)`: no number for a missing value or one without a
      digit; otherwise the first decimal number in it once commas are gone. */
  function ExtractNumber(val: Option<string>): (r: Option<real>)
    ensures r.None? <==> val.None? || !HasDigit(val.value)
    ensures r.Some? ==> r.value >= 0.0
  {
    match val
    case None => None
    case Some(s) =>
      match MatchNumber(RemoveCommas(s))
      case None => None
      case Some(m) => Some(ParseDecimal(m))
  }

  /** The match begins at the first digit and takes the whole run there. */
  lemma MatchedRun(s: string, p: nat, e: nat)
    requires p < e <= |s|
    requires forall k :: 0 <= k < p ==> !IsDigit(s[k])
    requires forall k :: p <= k < e ==> IsDigit(s[k])
    requires e == |s| || !IsDigit(s[e])
    ensures FirstDigitFrom(s, 0) == Some(p) && DigitRunEnd(s, p) == e
  {
    var j := DigitRunEnd(s, p);
    assert j <= e;
  }

  /** Without a point followed by a digit after the run, the match is the
      run alone. */
  lemma MatchOfInteger(s: string, p: nat, e: nat)
    requires p < e <= |s|
    requires forall k :: 0 <= k < p ==> !IsDigit(s[k])
    requires forall k :: p <= k < e ==> IsDigit(s[k])
    requires e == |s| || (!IsDigit(s[e]) && (s[e] == '.' ==> e + 1 == |s| || !IsDigit(s[e + 1])))
    ensures MatchNumber(s) == Some(NumberMatch(s[p..e], ""))
  {
    MatchedRun(s, p, e);
  }

  /** With a point and a second run after the first, the match takes both. */
  lemma MatchOfDecimal(s: string, p: nat, e: nat, g: nat)
    requires p < e && e + 1 < g <= |s|
    requires forall k :: 0 <= k < p ==> !IsDigit(s[k])
    requires forall k :: p <= k < e ==> IsDigit(s[k])
    requires s[e] == '.'
    requires forall k :: e + 1 <= k < g ==> IsDigit(s[k])
    requires g == |s| || !IsDigit(s[g])
    ensures MatchNumber(s) == Some(NumberMatch(s[p..e], s[e + 1..g]))
  {
    MatchedRun(s, p, e);
    var k := DigitRunEnd(s, e + 1);
    assert k <= g;
  }

  lemma ExtractOfInteger(s: string, p: nat, e: nat)
    requires ',' !in s
    requires p < e <= |s|
    requires forall k :: 0 <= k < p ==> !IsDigit(s[k])
    requires forall k :: p <= k < e ==> IsDigit(s[k])
    requires e == |s| || (!IsDigit(s[e]) && (s[e] == '.' ==> e + 1 == |s| || !IsDigit(s[e + 1])))
    ensures AllDigits(s[p..e])
    ensures ExtractNumber(Some(s)) == Some(DigitsValue(s[p..e]) as real)
  {
    MatchOfInteger(s, p, e);
    var m := NumberMatch(s[p..e], "");
    assert ParseDecimal(m) == DigitsValue(s[p..e]) as real;
  }

  lemma ExtractOfDecimal(s: string, p: nat, e: nat, g: nat)
    requires ',' !in s
    requires p < e && e + 1 < g <= |s|
    requires forall k :: 0 <= k < p ==> !IsDigit(s[k])
    requires forall k :: p <= k < e ==> IsDigit(s[k])
    requires s[e] == '.'
    requires forall k :: e + 1 <= k < g ==> IsDigit(s[k])
    requires g == |s| || !IsDigit(s[g])
    ensures AllDigits(s[p..e]) && AllDigits(s[e + 1..g])
    ensures ExtractNumber(Some(s)) == Some(DecimalValue(DigitsValue(s[p..e]), DigitsValue(s[e + 1..g]), g - e - 1))
  {
    MatchOfDecimal(s, p, e, g);
  }

  /** A value made of a digit-free prefix, a run of digits and a rest that
      does not continue the number, none of them with a comma, reads as the
      integer value of the run: "5000 mAh" and "Battery 5000" give 5000. */
  lemma ExtractNumberOfInteger(p: string, d: string, u: string)
    requires !HasDigit(p) && ',' !in p && ',' !in d && ',' !in u
    requires |d| >= 1 && AllDigits(d)
    requires u == [] || (!IsDigit(u[0]) && (u[0] == '.' ==> |u| == 1 || !IsDigit(u[1])))
    ensures ExtractNumber(Some(p + d + u)) == Some(DigitsValue(d) as real)
  {
    var s := p + d + u;
    var e := |p| + |d|;
    forall k | 0 <= k < |p| ensures !IsDigit(s[k]) { assert s[k] == p[k]; }
    forall k | |p| <= k < e ensures IsDigit(s[k]) { assert s[k] == d[k - |p|]; }
    if e < |s| {
      assert s[e] == u[0];
      if e + 1 < |s| { assert s[e + 1] == u[1]; }
    }
    assert s[|p|..e] == d;
    ExtractOfInteger(s, |p|, e);
  }

  /** With a point and more digits after the run, the fraction counts too:
      "6.67 in" gives 6 + 67/100. */
  lemma ExtractNumberOfDecimal(p: string, d: string, f: string, u: string)
    requires !HasDigit(p) && ',' !in p && ',' !in d && ',' !in f && ',' !in u
    requires |d| >= 1 && AllDigits(d) && |f| >= 1 && AllDigits(f)
    requires u == [] || !IsDigit(u[0])
    ensures ExtractNumber(Some(p + d + "." + f + u)) == Some(DecimalValue(DigitsValue(d), DigitsValue(f), |f|))
  {
    var a := p + d;
    var b := a + ".";
    var c := b + f;
    var s := c + u;
    var e := |p| + |d|;
    var g := e + 1 + |f|;
    assert s[..g] == c && c[..e + 1] == b && b[..e] == a;
    forall k | 0 <= k < |p| ensures !IsDigit(s[k]) { assert s[k] == a[k] == p[k]; }
    forall k | |p| <= k < e ensures IsDigit(s[k]) { assert s[k] == a[k] == d[k - |p|]; }
    assert s[e] == b[e] == '.';
    forall k | e + 1 <= k < g ensures IsDigit(s[k]) { assert s[k] == c[k] == f[k - e - 1]; }
    if g < |s| { assert s[g] == u[0]; }
    assert s[|p|..e] == a[|p|..] == d;
    assert s[e + 1..g] == c[e + 1..] == f;
    ExtractOfDecimal(s, |p|, e, g);
  }

  /** Parsing the decimal rendering of a natural number gives the number back. */
  lemma ExtractNumberRoundTrip(n: nat)
    ensures ExtractNumber(Some(NatToString(n))) == Some(n as real)
  {
    var d := NatToString(n);
    assert "" + d + "" == d;
    assert ',' !in d by {
      forall k | 0 <= k < |d| ensures d[k] != ',' { assert IsDigit(d[k]); }
    }
    ExtractNumberOfInteger("", d, "");
    NatToStringRoundTrip(n);
  }

  /** Commas are dropped before the number is read, so they never matter. */
  lemma ExtractIgnoresCommas(s: string)
    ensures ExtractNumber(Some(s)) == ExtractNumber(Some(RemoveCommas(s)))
  {
  }

  lemma DigitsValue5000()
    ensures DigitsValue("5000") == 5000
  {
    assert "5000"[..3] == "500" && "500"[..2] == "50" && "50"[..1] == "5";
  }

  lemma BatteryText(v: string)
    requires v == "5,000 mAh"
    ensures v[1..] == ",000 mAh" && v[1..][1..] == "000 mAh" && "" + "5000" + " mAh" == "5000 mAh"
    ensures ',' !in "000 mAh" && v[0] == '5' && v[1] == ','
  {
  }

  lemma RemoveCommasBatteryExample(v: string)
    requires v == "5,000 mAh"
    ensures RemoveCommas(v) == "5000 mAh"
  {
    BatteryText(v);
    var t := v[1..][1..];
    assert RemoveCommas(t) == t;
    assert RemoveCommas(v[1..]) == t;
    assert RemoveCommas(v) == [v[0]] + t;
  }

  lemma ExtractPlainBatteryExample(w: string)
    requires w == "5000 mAh"
    ensures ExtractNumber(Some(w)) == Some(5000.0)
  {
    assert "" + "5000" + " mAh" == w;
    assert !HasDigit("") && ',' !in " mAh" && !IsDigit(" mAh"[0]);
    DigitsValue5000();
    ExtractNumberOfInteger("", "5000", " mAh");
  }

  /** A thousands separator and a unit: "5,000 mAh" reads as 5000. */
  lemma ExtractBatteryExample(v: string)
    requires v == "5,000 mAh"
    ensures ExtractNumber(Some(v)) == Some(5000.0)
  {
    RemoveCommasBatteryExample(v);
    ExtractIgnoresCommas(v);
    ExtractPlainBatteryExample(RemoveCommas(v));
  }

  lemma DisplayText(v: string)
    requires v == "6.67 นิ้ว"
    ensures "" + "6" + "." + "67" + " นิ้ว" == v
    ensures ',' !in " นิ้ว" && !IsDigit(" นิ้ว"[0])
  {
  }

  /** A decimal size with a unit: "6.67 นิ้ว" reads as 6.67. */
  lemma ExtractDisplayExample(v: string)
    requires v == "6.67 นิ้ว"
    ensures ExtractNumber(Some(v)) == Some(6.67)
  {
    DisplayText(v);
    assert !HasDigit("");
    assert DigitsValue("67") == 67 by { assert "67"[..1] == "6"; }
    assert DigitsValue("6") == 6;
    assert DecimalValue(6, 67, 2) == 6.67;
    ExtractNumberOfDecimal("", "6", "67", " นิ้ว");
  }

  /** Any digit in a non-numeric text is read as a number: "CPU X1" gives 1. */
  lemma ExtractModelNameExample(v: string)
    requires v == "CPU X1"
    ensures ExtractNumber(Some(v)) == Some(1.0)
  {
    assert !HasDigit("CPU X") by {
      forall k | 0 <= k < 5 ensures !IsDigit("CPU X"[k]) { }
    }
    ExtractNumberOfInteger("CPU X", "1", "");
    assert "CPU X" + "1" + "" == v;
  }

  /** No digit at all means no number. */
  lemma ExtractNoNumberExample()
    ensures ExtractNumber(Some("")) == None
    ensures ExtractNumber(Some("AMOLED")) == None
    ensures ExtractNumber(None) == None
  {
    assert !HasDigit("AMOLED") by {
      forall k | 0 <= k < 6 ensures !IsDigit("AMOLED"[k]) { }
    }
  }

  // ---------------------------------------------------------------------
  // isEqualLoose
  // ---------------------------------------------------------------------

  /** `isEqualLoose(a, b)`: both missing, or both present and equal once
      trimmed and lower-cased. No numeric normalisation. */
  function IsEqualLoose(a: Option<string>, b: Option<string>): (r: bool)
    ensures a.None? && b.None? ==> r
    ensures r ==> (a.None? <==> b.None?)
  {
    if a.None? && b.None? then true
    else if a.None? || b.None? then false
    else Lower(Trim(a.value)) == Lower(Trim(b.value))
  }

  /** Loose equality is an equivalence relation. */
  lemma IsEqualLooseEquivalence(a: Option<string>, b: Option<string>, c: Option<string>)
    ensures IsEqualLoose(a, a)
    ensures IsEqualLoose(a, b) == IsEqualLoose(b, a)
    ensures IsEqualLoose(a, b) && IsEqualLoose(b, c) ==> IsEqualLoose(a, c)
  {
  }

  lemma TrimPaddedExample()
    ensures Trim(" 8GB ") == "8GB"
  {
    var s := " 8GB ";
    assert IsSpace(s[0]) && s[1..] == "8GB ";
    assert !IsSpace("8GB "[0]);
    assert TrimStart("8GB ") == "8GB ";
    assert TrimStart(s) == "8GB ";
    assert IsSpace("8GB "[3]) && "8GB "[..3] == "8GB";
    assert !IsSpace("8GB"[2]);
    assert TrimEnd("8GB") == "8GB";
    assert TrimEnd("8GB ") == "8GB";
  }

  lemma LowerGbExample()
    ensures Lower("8GB") == "8gb" && Lower("8gb") == "8gb"
  {
  }

  lemma TrimGbExample(lower: string)
    requires lower == "8gb"
    ensures Trim(lower) == lower
  {
    assert !IsSpace(lower[0]) && !IsSpace(lower[2]);
    TrimFixedPoints(lower);
  }

  /** Case and surrounding whitespace are ignored. */
  lemma IsEqualLoosePaddedExample(padded: string, lower: string)
    requires padded == " 8GB " && lower == "8gb"
    ensures IsEqualLoose(Some(padded), Some(lower))
  {
    TrimPaddedExample();
    TrimGbExample(lower);
    LowerGbExample();
  }

  /** Two spellings of the same number are not loosely equal. */
  lemma IsEqualLooseSpellingExample(short: string, long: string)
    requires short == "8" && long == "8.0"
    ensures !IsEqualLoose(Some(short), Some(long))
    ensures !IsEqualLoose(None, Some(short))
  {
    assert |Trim(short)| <= 1;
    assert !IsSpace(long[0]) && !IsSpace(long[2]);
    TrimFixedPoints(long);
    assert |Lower(Trim(long))| == 3;
  }

  // ---------------------------------------------------------------------
  // betterOf
  // ---------------------------------------------------------------------

  /** `betterOf(a, b)`: -1 when A's number is larger, 1 when B's is, and 0
      when either side has no number or they are equal. Larger always wins. */
  function BetterOf(a: Option<string>, b: Option<string>): (r: int)
    ensures r in {-1, 0, 1}
    ensures r == -1 <==> ExtractNumber(a).Some? && ExtractNumber(b).Some? && ExtractNumber(a).value > ExtractNumber(b).value
    ensures r == 1 <==> ExtractNumber(a).Some? && ExtractNumber(b).Some? && ExtractNumber(a).value < ExtractNumber(b).value
  {
    var numA := ExtractNumber(a);
    var numB := ExtractNumber(b);
    if numA.None? || numB.None? then 0
    else if numA.value == numB.value then 0
    else if numA.value > numB.value then -1 else 1
  }

  /** Swapping the sides negates the verdict. */
  lemma BetterOfAntisymmetric(a: Option<string>, b: Option<string>)
    ensures BetterOf(a, b) == -BetterOf(b, a)
  {
  }

  /** Units and thousands separators do not affect the verdict. */
  lemma BetterOfExamples(battery: string, cpu: string, display: string)
    requires battery == "5,000 mAh" && cpu == "CPU X1" && display == "6.67 นิ้ว"
    ensures BetterOf(Some(battery), Some(cpu)) == -1
    ensures BetterOf(Some(cpu), Some(display)) == 1
    ensures BetterOf(Some("AMOLED"), Some(cpu)) == 0
  {
    ExtractBatteryExample(battery);
    ExtractModelNameExample(cpu);
    ExtractDisplayExample(display);
    ExtractNoNumberExample();
  }

  // ---------------------------------------------------------------------
  // meterWidth
  // ---------------------------------------------------------------------

  /** `Math.round` on exact reals: the integer nearest to `x`, halves rounding up. */
  function Round(x: real): (r: int)
    ensures r as real <= x + 0.5 < r as real + 1.0
  {
    (x + 0.5).Floor
  }

  /** `Math.max(6, Math.min(100, n))`. */
  function Clamp(n: int): (r: int)
    ensures 6 <= r <= 100
    ensures 6 <= n <= 100 ==> r == n
    ensures n < 6 ==> r == 6
    ensures n > 100 ==> r == 100
  {
    if n > 100 then 100 else if n < 6 then 6 else n
  }

  /** `meterWidth(val, max)` in percent: 0 when there is nothing to draw,
      otherwise the rounded share of `max`, never below 6 nor above 100. */
  function MeterWidth(val: Option<real>, max: Option<real>): (w: int)
    ensures w == 0 <==> val.None? || max.None? || max.value == 0.0
    ensures w != 0 ==> 6 <= w <= 100
  {
    if val.None? || max.None? || max.value == 0.0 then 0
    else Clamp(Round(val.value / max.value * 100.0))
  }

  /** Between the clamps, the width is the rounded percentage itself. */
  lemma MeterWidthUnclamped(v: real, m: real)
    requires m != 0.0 && 6 <= Round(v / m * 100.0) <= 100
    ensures MeterWidth(Some(v), Some(m)) == Round(v / m * 100.0)
  {
  }

  /** A share that rounds below 6% still draws the minimum width. */
  lemma MeterWidthSmallShare(v: real, m: real)
    requires m != 0.0 && Round(v / m * 100.0) < 6
    ensures MeterWidth(Some(v), Some(m)) == 6
  {
  }

  /** A share that rounds above 100% draws a full meter. */
  lemma MeterWidthLargeShare(v: real, m: real)
    requires m != 0.0 && Round(v / m * 100.0) > 100
    ensures MeterWidth(Some(v), Some(m)) == 100
  {
  }

  /** A zero value still gets the minimum visible width. */
  lemma MeterWidthOfZero(m: real)
    requires m != 0.0
    ensures MeterWidth(Some(0.0), Some(m)) == 6
  {
    assert 0.0 / m * 100.0 == 0.0;
  }

  /** A value that reaches the maximum fills the meter. */
  lemma MeterWidthFull(v: real, m: real)
    requires 0.0 < m <= v
    ensures MeterWidth(Some(v), Some(m)) == 100
  {
    assert v / m >= 1.0;
  }

  /** For a positive maximum, a larger value never draws a narrower meter. */
  lemma MeterWidthMonotone(v1: real, v2: real, m: real)
    requires 0.0 < m && v1 <= v2
    ensures MeterWidth(Some(v1), Some(m)) <= MeterWidth(Some(v2), Some(m))
  {
    assert v1 / m <= v2 / m;
    var x1, x2 := v1 / m * 100.0, v2 / m * 100.0;
    assert x1 <= x2;
    assert Round(x1) <= Round(x2);
  }

  lemma MeterWidthExamples()
    ensures MeterWidth(Some(1.0), Some(1000.0)) == 6
    ensures MeterWidth(Some(1.0), Some(128.0)) == 6
    ensures MeterWidth(Some(1000.0), Some(1000.0)) == 100
    ensures MeterWidth(Some(500.0), Some(1000.0)) == 50
    ensures MeterWidth(None, Some(1000.0)) == 0
    ensures MeterWidth(Some(50.0), Some(0.0)) == 0
  {
    assert 1.0 / 1000.0 * 100.0 == 0.1;
    assert 1.0 / 128.0 * 100.0 == 0.78125;
    assert Round(0.1) == 0;
    MeterWidthFull(1000.0, 1000.0);
    assert 500.0 / 1000.0 * 100.0 == 50.0;
    assert Round(50.0) == 50;
  }

  // ---------------------------------------------------------------------
  // SpecRow
  // ---------------------------------------------------------------------

  /** What one rendered row shows: whether the values differ, the winner
      (-1 for A, 1 for B, 0 for none), the meter scale, and each side's
      meter width when meters are drawn. */
  datatype RowView = RowView(
    different: bool,
    winner: int,
    max: Option<real>,
    meterA: Option<int>,
    meterB: Option<int>)

  /** `n || 0` for a parsed number. */
  function OrZero(n: Option<real>): (x: real)
    ensures n.Some? ==> x == n.value
    ensures n.None? ==> x == 0.0
  {
    n.GetOr(0.0)
  }

  function MaxReal(x: real, y: real): (m: real)
    ensures m >= x && m >= y && (m == x || m == y)
  {
    if x >= y then x else y
  }

  /** The computations of `SpecRow`: numbers, meter scale and winner only
      for numeric fields; meters only when the scale is non-zero. */
  function SpecRow(numeric: bool, a: Option<string>, b: Option<string>): RowView {
    var numA := if numeric then ExtractNumber(a) else None;
    var numB := if numeric then ExtractNumber(b) else None;
    var m := MaxReal(OrZero(numA), OrZero(numB));
    var max := if numeric && m != 0.0 then Some(m) else None;
    var winner := if numeric then BetterOf(a, b) else 0;
    var drawn := numeric && max.Some?;
    RowView(
      !IsEqualLoose(a, b),
      winner,
      max,
      if drawn then Some(MeterWidth(numA, max)) else None,
      if drawn then Some(MeterWidth(numB, max)) else None)
  }

  /** A non-numeric field never has a winner or a meter. */
  lemma SpecRowNonNumeric(a: Option<string>, b: Option<string>)
    ensures var v := SpecRow(false, a, b);
            v.winner == 0 && v.max.None? && v.meterA.None? && v.meterB.None?
            && v.different == !IsEqualLoose(a, b)
  {
  }

  /** For a numeric field the scale is the larger number, absent counting as
      0, and no meter is drawn when that is 0. */
  lemma SpecRowScale(a: Option<string>, b: Option<string>)
    ensures var v := SpecRow(true, a, b);
            var x := OrZero(ExtractNumber(a));
            var y := OrZero(ExtractNumber(b));
            && v.winner == BetterOf(a, b)
            && (v.max.None? <==> x == 0.0 && y == 0.0)
            && (v.max.Some? ==> v.max.value >= x && v.max.value >= y && (v.max.value == x || v.max.value == y))
            && (v.meterA.Some? <==> v.max.Some?) && (v.meterB.Some? <==> v.max.Some?)
  {
  }

  /** The winner's meter is full, and a side with no number shows width 0. */
  lemma SpecRowWinnerMeter(a: Option<string>, b: Option<string>)
    ensures var v := SpecRow(true, a, b);
            && (v.winner == -1 ==> v.meterA == Some(100))
            && (v.winner == 1 ==> v.meterB == Some(100))
            && (v.meterA.Some? && ExtractNumber(a).None? ==> v.meterA == Some(0))
            && (v.meterB.Some? && ExtractNumber(b).None? ==> v.meterB == Some(0))
  {
    var v := SpecRow(true, a, b);
    if v.winner == -1 {
      MeterWidthFull(ExtractNumber(a).value, ExtractNumber(a).value);
    }
    if v.winner == 1 {
      MeterWidthFull(ExtractNumber(b).value, ExtractNumber(b).value);
    }
  }

  // ---------------------------------------------------------------------
  // Rows and diffCount
  // ---------------------------------------------------------------------

  /** `P?.spec_list?.[key]`: missing when there is no product or no such key. */
  function SpecValue(p: Option<Product>, key: string): Option<string> {
    if p.Some? && key in p.value.specs then Some(p.value.specs[key]) else None
  }

  /** One row of the table: a schema entry together with both sides' values. */
  datatype Row = Row(field: SpecField, a: Option<string>, b: Option<string>)

  function RowOf(f: SpecField, A: Option<Product>, B: Option<Product>): Row {
    Row(f, SpecValue(A, f.key), SpecValue(B, f.key))
  }

  /** `fields.map(f => ({...f, a: ..., b: ...}))`. */
  function RowsFor(fields: seq<SpecField>, A: Option<Product>, B: Option<Product>): (rows: seq<Row>)
    ensures |rows| == |fields|
    ensures forall i :: 0 <= i < |fields| ==> rows[i] == RowOf(fields[i], A, B)
  {
    if fields == [] then [] else [RowOf(fields[0], A, B)] + RowsFor(fields[1..], A, B)
  }

  /** The row is highlighted as different. */
  predicate Differs(r: Row) {
    !IsEqualLoose(r.a, r.b)
  }

  /** The test the `reduce` of `diffCount` applies to each schema field:
      its two values are not loosely equal. */
  function FieldDiffers(A: Option<Product>, B: Option<Product>): SpecField -> bool {
    (f: SpecField) => !IsEqualLoose(SpecValue(A, f.key), SpecValue(B, f.key))
  }

  /** `diffCount`: 0 unless both products are picked, else the fold over
      the schema counting the fields that differ. */
  function DiffCount(A: Option<Product>, B: Option<Product>): nat {
    if A.None? || B.None? then 0 else CountWhere(0, SPEC_FIELDS, FieldDiffers(A, B))
  }

  /** `rows`: every schema row, or only the differing ones when "differences
      only" is on and both products are picked. */
  function Rows(A: Option<Product>, B: Option<Product>, diffOnly: bool): seq<Row> {
    var base := RowsFor(SPEC_FIELDS, A, B);
    if !diffOnly || A.None? || B.None? then base else Filter(base, Differs)
  }

  /** Over any list of fields, the fold counts exactly the rows that differ. */
  lemma CountIsDiffRows(fields: seq<SpecField>, A: Option<Product>, B: Option<Product>)
    ensures CountWhere(0, fields, FieldDiffers(A, B)) == |Filter(RowsFor(fields, A, B), Differs)|
  {
    CountWhereIsFilterLength(0, fields, FieldDiffers(A, B));
    FilterLengthAcross(fields, RowsFor(fields, A, B), FieldDiffers(A, B), Differs);
  }

  /** The badge shows how many rows the difference filter keeps, at most one
      per schema field, and 0 until both products are picked. */
  lemma DiffCountIsDiffRows(A: Option<Product>, B: Option<Product>)
    ensures A.Some? && B.Some? ==> DiffCount(A, B) == |Rows(A, B, true)|
    ensures DiffCount(A, B) <= |SPEC_FIELDS|
    ensures A.None? || B.None? ==> DiffCount(A, B) == 0
  {
    CountIsDiffRows(SPEC_FIELDS, A, B);
  }

  /** Without the filter, the table has every schema field in order. */
  lemma RowsUnfiltered(A: Option<Product>, B: Option<Product>, diffOnly: bool)
    requires !diffOnly || A.None? || B.None?
    ensures |Rows(A, B, diffOnly)| == |SPEC_FIELDS|
    ensures forall i :: 0 <= i < |SPEC_FIELDS| ==> Rows(A, B, diffOnly)[i] == RowOf(SPEC_FIELDS[i], A, B)
  {
  }

  /** With the filter, the table keeps the differing rows and only those,
      in schema order. */
  lemma RowsDiffOnly(A: Option<Product>, B: Option<Product>)
    requires A.Some? && B.Some?
    ensures IsSubsequence(Rows(A, B, true), RowsFor(SPEC_FIELDS, A, B))
    ensures forall i :: 0 <= i < |Rows(A, B, true)| ==> Differs(Rows(A, B, true)[i])
    ensures forall f :: f in SPEC_FIELDS && Differs(RowOf(f, A, B)) ==> RowOf(f, A, B) in Rows(A, B, true)
  {
    var base := RowsFor(SPEC_FIELDS, A, B);
    FilterIsSubsequence(base, Differs);
    forall f | f in SPEC_FIELDS && Differs(RowOf(f, A, B)) ensures RowOf(f, A, B) in Rows(A, B, true) {
      var i :| 0 <= i < |SPEC_FIELDS| && SPEC_FIELDS[i] == f;
      assert base[i] == RowOf(f, A, B);
    }
  }

  /** Over any list of fields, the count is symmetric and vanishes when a
      product is compared with itself. */
  lemma CountSymmetric(fields: seq<SpecField>, A: Option<Product>, B: Option<Product>)
    ensures CountWhere(0, fields, FieldDiffers(A, B)) == CountWhere(0, fields, FieldDiffers(B, A))
    ensures CountWhere(0, fields, FieldDiffers(A, A)) == 0
  {
    CountWhereIsFilterLength(0, fields, FieldDiffers(A, B));
    CountWhereIsFilterLength(0, fields, FieldDiffers(B, A));
    CountWhereIsFilterLength(0, fields, FieldDiffers(A, A));
    forall i | 0 <= i < |fields|
      ensures FieldDiffers(A, B)(fields[i]) == FieldDiffers(B, A)(fields[i])
      ensures !FieldDiffers(A, A)(fields[i])
    {
      var k := fields[i].key;
      IsEqualLooseEquivalence(SpecValue(A, k), SpecValue(B, k), None);
    }
    FilterExt(fields, FieldDiffers(A, B), FieldDiffers(B, A));
    FilterNone(fields, FieldDiffers(A, A));
  }

  /** Swapping the two picks does not change the count, and a product
      compared with itself has no differences. */
  lemma DiffCountSymmetric(A: Option<Product>, B: Option<Product>)
    ensures DiffCount(A, B) == DiffCount(B, A)
    ensures DiffCount(A, A) == 0
  {
    CountSymmetric(SPEC_FIELDS, A, B);
  }

  // ---------------------------------------------------------------------
  // Search
  // ---------------------------------------------------------------------

  /** The product's name, lower-cased, contains `q`. */
  function NameMatches(q: string): Product -> bool {
    (i: Product) => Contains(Lower(OrEmpty(i.name)), q)
  }

  /** `filtered`: the whole list for an empty query, otherwise the products
      whose name contains the trimmed, lower-cased query. */
  function FilterByName(data: seq<Product>, query: string): seq<Product> {
    if query == "" then data else Filter(data, NameMatches(Lower(Trim(query))))
  }

  /** The search keeps the matching products, only those, in list order. */
  lemma FilterByNameSpec(data: seq<Product>, query: string)
    requires query != ""
    ensures IsSubsequence(FilterByName(data, query), data)
    ensures forall i :: 0 <= i < |FilterByName(data, query)| ==> NameMatches(Lower(Trim(query)))(FilterByName(data, query)[i])
    ensures forall i :: 0 <= i < |data| && NameMatches(Lower(Trim(query)))(data[i]) ==> data[i] in FilterByName(data, query)
  {
    FilterIsSubsequence(data, NameMatches(Lower(Trim(query))));
  }

  /** A query of only whitespace, like the empty one, hides nothing. */
  lemma FilterByNameBlank(data: seq<Product>, query: string)
    requires Trim(query) == ""
    ensures FilterByName(data, query) == data
  {
    if query != "" {
      assert Lower(Trim(query)) == "";
      forall i | 0 <= i < |data| ensures NameMatches("")(data[i]) {
        ContainsEmpty(Lower(OrEmpty(data[i].name)));
      }
      FilterAll(data, NameMatches(""));
    }
  }

  // ---------------------------------------------------------------------
  // Selection
  // ---------------------------------------------------------------------

  /** Some product in `s` has id `id` (`s.find(p => p.id === id)`). */
  predicate HasId(s: seq<Product>, id: Id) {
    exists i :: 0 <= i < |s| && s[i].id == id
  }

  predicate DistinctIds(s: seq<Product>) {
    forall i, j :: 0 <= i < j < |s| ==> s[i].id != s[j].id
  }

  /** At most two picks, no product twice. */
  predicate ValidSelection(s: seq<Product>) {
    |s| <= 2 && DistinctIds(s)
  }

  function OtherId(id: Id): Product -> bool {
    (p: Product) => p.id != id
  }

  /** `togglePick`'s update of the picks: remove the item if picked, else
      append it, then keep only the last two. */
  function Toggled(prev: seq<Product>, item: Product): seq<Product> {
    var next := if HasId(prev, item.id) then Filter(prev, OtherId(item.id)) else prev + [item];
    if |next| > 2 then next[1..] else next
  }

  /** Toggling flips whether the item is picked, and keeps the selection valid. */
  lemma ToggledFlips(prev: seq<Product>, item: Product)
    requires ValidSelection(prev)
    ensures HasId(Toggled(prev, item), item.id) <==> !HasId(prev, item.id)
    ensures ValidSelection(Toggled(prev, item))
  {
    var next := Toggled(prev, item);
    if HasId(prev, item.id) {
      var i :| 0 <= i < |prev| && prev[i].id == item.id;
      FilterShrinks(prev, OtherId(item.id), i);
    } else {
      var added := prev + [item];
      assert added[|added| - 1] == item;
      assert next[|next| - 1] == item;
    }
  }

  /** Picking a third product drops the oldest pick. */
  lemma ToggledEvictsOldest(prev: seq<Product>, item: Product)
    requires |prev| == 2 && !HasId(prev, item.id)
    ensures Toggled(prev, item) == [prev[1], item]
  {
  }

  /** With room left, a new pick is appended. */
  lemma ToggledAppends(prev: seq<Product>, item: Product)
    requires |prev| < 2 && !HasId(prev, item.id)
    ensures Toggled(prev, item) == prev + [item]
  {
  }

  /** Toggling a picked product removes exactly that pick and keeps the other. */
  lemma ToggledRemoves(prev: seq<Product>, item: Product, i: nat)
    requires ValidSelection(prev) && i < |prev| && prev[i].id == item.id
    ensures Toggled(prev, item) == prev[..i] + prev[i + 1..]
  {
    var q := OtherId(item.id);
    FilterShrinks(prev, q, i);
    if |prev| == 2 {
      assert prev[1..][1..] == [];
      if i == 0 {
        assert q(prev[1]);
        assert Filter(prev, q) == [prev[1]];
      } else {
        assert q(prev[0]);
        assert Filter(prev, q) == [prev[0]];
      }
    }
  }

  /** Toggling a new product twice, while there is room, changes nothing. */
  lemma ToggleTwice(prev: seq<Product>, item: Product)
    requires ValidSelection(prev) && |prev| < 2 && !HasId(prev, item.id)
    ensures Toggled(Toggled(prev, item), item) == prev
  {
    ToggledAppends(prev, item);
    var next := prev + [item];
    assert next[|prev|] == item;
    ToggledRemoves(next, item, |prev|);
    assert next[..|prev|] == prev;
  }

  // ---------------------------------------------------------------------
  // The screen
  // ---------------------------------------------------------------------

  /** The endpoint `load` fetches: the whole catalog for "all", otherwise
      one segment. */
  function ProductsUrl(segment: string): (url: string)
    ensures segment == "all" ==> url == "/products"
    ensures segment != "all" ==> url == "/products?segment=" + segment
  {
    if segment == "all" then "/products" else "/products?segment=" + segment
  }

  /** Different segments are fetched from different endpoints. */
  lemma ProductsUrlInjective(s: string, t: string)
    ensures ProductsUrl(s) == ProductsUrl(t) ==> s == t
  {
    var pre := "/products?segment=";
    if ProductsUrl(s) == ProductsUrl(t) && s != "all" && t != "all" {
      assert s == (pre + s)[|pre|..];
      assert t == (pre + t)[|pre|..];
    }
  }

  /** The state of `CompareScreen`. */
  class CompareScreen {
    var segment: string
    var data: seq<Product>
    var picked: seq<Product>
    var query: string
    var diffOnly: bool

    ghost predicate Valid()
      reads this
    {
      ValidSelection(picked)
    }

    /** The initial state, before the first load. */
    constructor ()
      ensures Valid()
      ensures segment == "midrange" && data == [] && picked == [] && query == "" && !diffOnly
    {
      segment := "midrange";
      data := [];
      picked := [];
      query := "";
      diffOnly := false;
    }

    /** Product A, `picked[0]`. */
    function A(): (a: Option<Product>)
      reads this
      ensures a.Some? <==> |picked| >= 1
    {
      if |picked| >= 1 then Some(picked[0]) else None
    }

    /** Product B, `picked[1]`. */
    function B(): (b: Option<Product>)
      reads this
      ensures b.Some? <==> |picked| >= 2
    {
      if |picked| >= 2 then Some(picked[1]) else None
    }

    /** A card is drawn as selected (`picked.some(p => p.id === item.id)`). */
    predicate IsPicked(item: Product)
      reads this
    {
      HasId(picked, item.id)
    }

    /** The cards shown for the current query. */
    function Shown(): seq<Product>
      reads this
    {
      FilterByName(data, query)
    }

    /** The difference badge: present only when both products are picked. */
    function Badge(): (n: Option<nat>)
      reads this
      ensures n.Some? <==> |picked| >= 2
      ensures n.Some? ==> n.value <= |SPEC_FIELDS|
    {
      DiffCountIsDiffRows(A(), B());
      if A().Some? && B().Some? then Some(DiffCount(A(), B())) else None
    }

    /** The rows of the comparison table. */
    function Table(): seq<Row>
      reads this
    {
      Rows(A(), B(), diffOnly)
    }

    /** `load`, with `list` what the GET of `ProductsUrl(segment)` resolved
        to; a GET that throws ends `load` before any setter runs. */
    method Load(list: Response<Product>)
      requires Valid()
      modifies this
      ensures list.Threw? ==> data == old(data) && picked == old(picked) && query == old(query)
      ensures !list.Threw? ==> data == Loaded(list, old(data)) && picked == [] && query == ""
      ensures segment == old(segment) && diffOnly == old(diffOnly)
      ensures Valid()
    {
      if list.Threw? {
        return;
      }
      data := Loaded(list, data);
      picked := [];
      query := "";
    }

    /** A segment chip: the segment changes, and the effect on `segment`
        reloads only when it actually changed. */
    method SelectSegment(s: string, list: Response<Product>)
      requires Valid()
      modifies this
      ensures segment == s && diffOnly == old(diffOnly)
      ensures old(segment) == s || list.Threw? ==> data == old(data) && picked == old(picked) && query == old(query)
      ensures old(segment) != s && !list.Threw? ==> data == Loaded(list, old(data)) && picked == [] && query == ""
      ensures Valid()
    {
      if segment != s {
        segment := s;
        Load(list);
      }
    }

    /** `togglePick(item)`. */
    method TogglePick(item: Product)
      requires Valid()
      modifies this
      ensures picked == Toggled(old(picked), item)
      ensures IsPicked(item) <==> !old(IsPicked(item))
      ensures segment == old(segment) && data == old(data) && query == old(query) && diffOnly == old(diffOnly)
      ensures Valid()
    {
      ToggledFlips(picked, item);
      picked := Toggled(picked, item);
    }

    /** `onClear`: drop both picks. */
    method OnClear()
      modifies this
      ensures picked == [] && A().None? && B().None? && Badge().None?
      ensures segment == old(segment) && data == old(data) && query == old(query) && diffOnly == old(diffOnly)
      ensures Valid()
    {
      picked := [];
    }

    /** Typing in the search box. */
    method SetQuery(q: string)
      requires Valid()
      modifies this
      ensures query == q
      ensures segment == old(segment) && data == old(data) && picked == old(picked) && diffOnly == old(diffOnly)
      ensures Valid()
    {
      query := q;
    }

    /** The "differences only" switch. */
    method ToggleDiffOnly()
      requires Valid()
      modifies this
      ensures diffOnly == !old(diffOnly)
      ensures segment == old(segment) && data == old(data) && picked == old(picked) && query == old(query)
      ensures Valid()
    {
      diffOnly := !diffOnly;
    }
  }
}
