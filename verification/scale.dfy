/** The scale annotation a length field name may carry (`SCALE_RE` of
    `pylib/column_types/length.py`): a run of digits and dots, optional whitespace, then one
    of the units `mm`, `cm`, `dm` or `m` in any letter case, ending at a word boundary. */
module Scale {
  import opened Wrappers
  import opened Strs

  predicate IsScaleChar(c: char) {
    IsDigit(c) || c == '.'
  }

  predicate IsM(c: char) { c == 'm' || c == 'M' }
  predicate IsC(c: char) { c == 'c' || c == 'C' }
  predicate IsD(c: char) { c == 'd' || c == 'D' }

  /** One of the alternatives `mm|cm|dm|m`, ignoring case. */
  predicate IsUnit(t: string) {
    || (|t| == 2 && (IsM(t[0]) || IsC(t[0]) || IsD(t[0])) && IsM(t[1]))
    || (|t| == 1 && IsM(t[0]))
  }

  /** `\b` at position `u`: word characters on exactly one side. */
  predicate Boundary(s: string, u: nat)
    requires 0 < u <= |s|
  {
    IsWordChar(s[u - 1]) != (u < |s| && IsWordChar(s[u]))
  }

  /** The pattern matched at `p` with the scale at `s[p..q]`, the whitespace at `s[q..r]`
      and the units at `s[r..u]`. */
  predicate RegexMatch(s: string, p: nat, q: nat, r: nat, u: nat) {
    && p < q <= r < u <= |s|
    && (forall k :: p <= k < q ==> IsScaleChar(s[k]))
    && (forall k :: q <= k < r ==> IsSpace(s[k]))
    && IsUnit(s[r..u])
    && Boundary(s, u)
  }

  /** The `scale` and `units` groups of a match. */
  datatype ScaleMatch = ScaleMatch(scale: string, units: string)

  /** The end of the longest run of `inRun` characters starting at `p`. */
  function RunEnd(s: string, p: nat, inRun: char -> bool): (q: nat)
    requires p <= |s|
    ensures p <= q <= |s|
    ensures forall k :: p <= k < q ==> inRun(s[k])
    ensures q == |s| || !inRun(s[q])
    decreases |s| - p
  {
    if p == |s| || !inRun(s[p]) then p else RunEnd(s, p + 1, inRun)
  }

  /** The end of the units at `r`, trying `mm`, `cm`, `dm`, then `m`, each followed by `\b`. */
  function UnitEnd(s: string, r: nat): (u: Option<nat>)
    requires r <= |s|
    ensures u.Some? ==> r < u.value <= |s| && IsUnit(s[r..u.value]) && Boundary(s, u.value)
    ensures forall e :: r < e <= |s| && IsUnit(s[r..e]) && Boundary(s, e) ==> u == Some(e)
  {
    if r + 2 <= |s| && (IsM(s[r]) || IsC(s[r]) || IsD(s[r])) && IsM(s[r + 1]) && Boundary(s, r + 2) then
      Some(r + 2)
    else if r + 1 <= |s| && IsM(s[r]) && Boundary(s, r + 1) then Some(r + 1)
    else None
  }

  /** The match starting at `p`, if the pattern matches there. Backtracking into the greedy
      `[0-9.]+` or `\s*` never helps: the character given back could only start the units,
      and neither a digit, a dot nor whitespace does. */
  function MatchAt(s: string, p: nat): (m: Option<ScaleMatch>)
    requires p <= |s|
    ensures m.Some? ==> |m.value.scale| > 0 && IsUnit(m.value.units)
    ensures m.Some? ==> forall k :: 0 <= k < |m.value.scale| ==> IsScaleChar(m.value.scale[k])
  {
    if p == |s| || !IsScaleChar(s[p]) then None
    else
      var q := RunEnd(s, p, IsScaleChar);
      var r := RunEnd(s, q, IsSpace);
      match UnitEnd(s, r)
      case None => None
      case Some(u) => Some(ScaleMatch(s[p..q], s[r..u]))
  }

  /** Whatever the matcher reports at `p` is a match of the pattern. */
  lemma MatchAtSound(s: string, p: nat)
    requires p <= |s|
    ensures MatchAt(s, p).Some? ==>
              exists q: nat, r: nat, u: nat :: RegexMatch(s, p, q, r, u) && MatchAt(s, p).value == ScaleMatch(s[p..q], s[r..u])
  {
    if MatchAt(s, p).Some? {
      var q := RunEnd(s, p, IsScaleChar);
      var r := RunEnd(s, q, IsSpace);
      var u := UnitEnd(s, r).value;
      assert RegexMatch(s, p, q, r, u);
    }
  }

  /** Every match of the pattern at `p` is the one the matcher reports: the groups are
      determined by the start. */
  lemma MatchAtComplete(s: string, p: nat, q: nat, r: nat, u: nat)
    requires RegexMatch(s, p, q, r, u)
    ensures MatchAt(s, p) == Some(ScaleMatch(s[p..q], s[r..u]))
  {
    var q' := RunEnd(s, p, IsScaleChar);
    assert s[r..u][0] == s[r];
    assert !IsScaleChar(s[r]) && !IsSpace(s[r]);
    assert q' == q by {
      assert q' >= q;
      if q < r { assert IsSpace(s[q]); }
    }
    var r' := RunEnd(s, q, IsSpace);
    assert r' == r;
  }

  /** Where `SCALE_RE.search(s)` finds its match, looking from position `p` on: the
      leftmost start with a match. */
  function FirstMatch(s: string, p: nat): (i: Option<nat>)
    requires p <= |s|
    ensures i.None? <==> forall j :: p <= j <= |s| ==> MatchAt(s, j).None?
    ensures i.Some? ==> p <= i.value <= |s| && MatchAt(s, i.value).Some?
    ensures i.Some? ==> forall j :: p <= j < i.value ==> MatchAt(s, j).None?
    decreases |s| - p
  {
    if MatchAt(s, p).Some? then Some(p)
    else if p == |s| then None
    else FirstMatch(s, p + 1)
  }

  /** `SCALE_RE.search(s)`. */
  function Search(s: string): (m: Option<ScaleMatch>)
    ensures m.Some? ==> |m.value.scale| > 0 && IsUnit(m.value.units)
    ensures m.Some? ==> forall k :: 0 <= k < |m.value.scale| ==> IsScaleChar(m.value.scale[k])
  {
    match FirstMatch(s, 0)
    case None => None
    case Some(i) => MatchAt(s, i)
  }

  /** The first match is the start that matches with no match before it. */
  lemma {:induction false} FirstMatchIs(s: string, p0: nat, p: nat)
    requires p0 <= p <= |s| && MatchAt(s, p).Some?
    requires forall j :: p0 <= j < p ==> MatchAt(s, j).None?
    ensures FirstMatch(s, p0) == Some(p)
    decreases p - p0
  {
    hide MatchAt;
    if p0 < p {
      assert MatchAt(s, p0).None?;
      FirstMatchIs(s, p0 + 1, p);
    }
  }

  /** The search finds something exactly when the pattern matches somewhere, and then it
      reports the groups of the leftmost match. */
  lemma SearchFindsLeftmost(s: string, p: nat, q: nat, r: nat, u: nat)
    requires RegexMatch(s, p, q, r, u)
    requires forall p': nat, q': nat, r': nat, u': nat :: p' < p ==> !RegexMatch(s, p', q', r', u')
    ensures Search(s) == Some(ScaleMatch(s[p..q], s[r..u]))
  {
    MatchAtComplete(s, p, q, r, u);
    forall j | 0 <= j < p ensures MatchAt(s, j).None? {
      MatchAtSound(s, j);
    }
    FirstMatchIs(s, 0, p);
  }

  /** With no match anywhere, the search finds nothing. */
  lemma SearchNone(s: string)
    requires forall p: nat, q: nat, r: nat, u: nat :: !RegexMatch(s, p, q, r, u)
    ensures Search(s).None?
  {
    forall i | 0 <= i <= |s| ensures MatchAt(s, i).None? {
      MatchAtSound(s, i);
    }
  }

  /** `\b` is Unicode-aware: a unit followed by an accented letter is no unit, so `2 mmé`
      has no scale at its start. */
  lemma AccentedUnitNoMatch()
    ensures MatchAt("2 mmé", 0).None?
  {
    WordChars.InRangesAt('é' as int, WordChars.RowRanges(0), 6);
    assert IsWordChar('é');
  }

  function Pow10(n: nat): (r: nat)
    ensures r >= 1
  {
    if n == 0 then 1 else 10 * Pow10(n - 1)
  }

  /** The scale text is a decimal Python's `float` accepts: at most one dot and at least
      one digit. */
  predicate WellFormedDecimal(t: string) {
    && (forall i, j :: 0 <= i < j < |t| && t[i] == '.' ==> t[j] != '.')
    && (exists k :: 0 <= k < |t| && IsDigit(t[k]))
  }

  /** `float(match.group("scale"))`: the exact decimal value, or `None` where `float`
      raises `ValueError`. */
  function ParseScale(t: string): (r: Option<real>)
    requires forall k :: 0 <= k < |t| ==> IsScaleChar(t[k])
    ensures r.Some? <==> WellFormedDecimal(t)
    ensures r.Some? ==> r.value >= 0.0
  {
    if '.' in t then ParseWithDot(t, IndexOf(t, '.'))
    else if |t| == 0 then None
    else
      assert forall k :: 0 <= k < |t| ==> IsDigit(t[k]) by {
        forall k | 0 <= k < |t| ensures IsDigit(t[k]) {
          assert IsScaleChar(t[k]);
          assert t[k] != '.' by { assert t[k] in t; }
        }
      }
      assert IsDigit(t[0]);
      Some(DigitsValue(t) as real)
  }

  /** `float` of scale text whose first dot is at `i`: the digits around the dot, or `None`
      when a second dot follows or there is no digit at all. */
  function ParseWithDot(t: string, i: nat): (r: Option<real>)
    requires forall k :: 0 <= k < |t| ==> IsScaleChar(t[k])
    requires i < |t| && t[i] == '.' && '.' !in t[..i]
    ensures r.Some? <==> WellFormedDecimal(t)
    ensures r.Some? ==> r.value >= 0.0
  {
    var whole, frac := t[..i], t[i + 1..];
    assert forall k :: 0 <= k < |whole| ==> whole[k] == t[k];
    assert forall k :: 0 <= k < |frac| ==> frac[k] == t[i + 1 + k];
    assert forall k :: 0 <= k < |whole| ==> IsDigit(whole[k]) by {
      forall k | 0 <= k < |whole| ensures IsDigit(whole[k]) {
        assert whole[k] in t[..i] && IsScaleChar(t[k]);
      }
    }
    if '.' in frac then
      assert !WellFormedDecimal(t) by {
        var j :| 0 <= j < |frac| && frac[j] == '.';
        assert t[i] == '.' && t[i + 1 + j] == '.';
      }
      None
    else if |whole| + |frac| == 0 then
      assert |t| == 1;
      None
    else
      assert forall k :: 0 <= k < |frac| ==> IsDigit(frac[k]) by {
        forall k | 0 <= k < |frac| ensures IsDigit(frac[k]) {
          assert frac[k] in frac && IsScaleChar(t[i + 1 + k]);
        }
      }
      assert WellFormedDecimal(t) by {
        if |whole| > 0 { assert IsDigit(whole[0]); } else { assert IsDigit(frac[0]); }
        forall a, b | 0 <= a < b < |t| && t[a] == '.' ensures t[b] != '.' {
          if a == i { assert frac[b - i - 1] == t[b]; }
        }
      }
      Some(DecimalValue(whole, frac))
  }

  /** The value of `whole.frac`. */
  function DecimalValue(whole: string, frac: string): (v: real)
    requires forall k :: 0 <= k < |whole| ==> IsDigit(whole[k])
    requires forall k :: 0 <= k < |frac| ==> IsDigit(frac[k])
    ensures v >= 0.0
    ensures forall k :: 0 <= k < |whole + frac| ==> IsDigit((whole + frac)[k])
    ensures v == Shifted(DigitsValue(whole + frac), |frac|)
  {
    assert forall k :: 0 <= k < |whole + frac| ==> IsDigit((whole + frac)[k]) by {
      forall k | 0 <= k < |whole + frac| ensures IsDigit((whole + frac)[k]) {
        if k < |whole| { assert (whole + frac)[k] == whole[k]; }
        else { assert (whole + frac)[k] == frac[k - |whole|]; }
      }
    }
    DigitsAppend(whole, frac);
    Unshift(DigitsValue(whole + frac), DigitsValue(whole), Pow10(|frac|), DigitsValue(frac));
    QuotientNonNegative(DigitsValue(frac), Pow10(|frac|));
    DigitsValue(whole) as real + DigitsValue(frac) as real / Pow10(|frac|) as real
  }

  /** The number `digits` written with `places` digits after the dot. */
  function Shifted(digits: nat, places: nat): real {
    (digits as real) / (Pow10(places) as real)
  }

  /** Appending digits shifts the value left by their count. */
  lemma {:induction false} DigitsAppend(a: string, b: string)
    requires forall k :: 0 <= k < |a| ==> IsDigit(a[k])
    requires forall k :: 0 <= k < |b| ==> IsDigit(b[k])
    ensures DigitsValue(a + b) == DigitsValue(a) * Pow10(|b|) + DigitsValue(b)
    decreases |b|
  {
    if |b| == 0 {
      assert a + b == a;
    } else {
      var b' := b[..|b| - 1];
      assert (a + b)[..|a + b| - 1] == a + b';
      assert (a + b)[|a + b| - 1] == b[|b| - 1];
      DigitsAppend(a, b');
      Shift(DigitsValue(a), Pow10(|b'|), DigitsValue(b'), b[|b| - 1] as int - '0' as int);
    }
  }

  lemma Shift(x: int, y: int, z: int, d: int)
    ensures 10 * (x * y + z) + d == x * (10 * y) + (10 * z + d)
  {
  }

  /** The parsed scale is the digits read as one integer, divided by ten for every digit
      after the dot: `float` is decimal notation, read back exactly. */
  lemma ParseScaleValue(t: string, i: nat)
    requires forall k :: 0 <= k < |t| ==> IsScaleChar(t[k])
    requires i < |t| && t[i] == '.' && WellFormedDecimal(t)
    ensures ParseScale(t) == Some(Shifted(DigitsValue(t[..i] + t[i + 1..]), |t| - i - 1))
  {
    FirstDot(t, i);
    ParseDotted(t, i);
    DottedValue(t, i);
  }

  predicate AllDigits(s: string) {
    forall k :: 0 <= k < |s| ==> IsDigit(s[k])
  }

  /** The value of the text around the dot at `i`, read as one integer and shifted. */
  lemma DottedValue(t: string, i: nat)
    requires i < |t| && forall k :: 0 <= k < |t| && k != i ==> IsDigit(t[k])
    ensures AllDigits(t[..i]) && AllDigits(t[i + 1..])
    ensures DecimalValue(t[..i], t[i + 1..])
         == Shifted(DigitsValue(t[..i] + t[i + 1..]), |t| - i - 1)
  {
    DigitsAround(t, i);
    DecimalValueOf(t[..i], t[i + 1..], |t| - i - 1);
  }

  lemma DecimalValueOf(whole: string, frac: string, n: nat)
    requires AllDigits(whole) && AllDigits(frac) && n == |frac|
    ensures AllDigits(whole + frac)
    ensures DecimalValue(whole, frac) == Shifted(DigitsValue(whole + frac), n)
  {
  }

  lemma DigitsAround(t: string, i: nat)
    requires i < |t| && forall k :: 0 <= k < |t| && k != i ==> IsDigit(t[k])
    ensures AllDigits(t[..i]) && AllDigits(t[i + 1..])
  {
    var whole, frac := t[..i], t[i + 1..];
    assert forall k :: 0 <= k < |whole| ==> whole[k] == t[k];
    assert forall k :: 0 <= k < |frac| ==> frac[k] == t[i + 1 + k];
  }

  lemma ParseDotted(t: string, i: nat)
    requires forall k :: 0 <= k < |t| ==> IsScaleChar(t[k])
    requires '.' in t && IndexOf(t, '.') == i && '.' !in t[i + 1..] && |t| > 1
    requires forall k :: 0 <= k < |t| && k != i ==> IsDigit(t[k])
    ensures ParseScale(t) == Some(DecimalValue(t[..i], t[i + 1..]))
  {
    assert ParseScale(t) == ParseWithDot(t, i);
    hide ParseScale;
    DigitsAround(t, i);
    ParseWithDotDigits(t, i);
  }

  /** Digits on both sides of the only dot read as the decimal they spell. */
  lemma ParseWithDotDigits(t: string, i: nat)
    requires forall k :: 0 <= k < |t| ==> IsScaleChar(t[k])
    requires i < |t| && t[i] == '.' && '.' !in t[..i] && '.' !in t[i + 1..] && |t| > 1
    requires AllDigits(t[..i]) && AllDigits(t[i + 1..])
    ensures ParseWithDot(t, i) == Some(DecimalValue(t[..i], t[i + 1..]))
  {
    assert |t[..i]| + |t[i + 1..]| > 0;
  }

  /** In a well-formed decimal the dot at `i` is the first one, and no dot follows it. */
  lemma FirstDot(t: string, i: nat)
    requires i < |t| && t[i] == '.' && WellFormedDecimal(t)
    ensures '.' in t && IndexOf(t, '.') == i
    ensures forall k :: 0 <= k < |t| && k != i ==> t[k] != '.'
    ensures '.' !in t[i + 1..] && |t| > 1
  {
    assert t[i] in t;
    var k :| 0 <= k < |t| && IsDigit(t[k]);
    assert k != i;
    var frac := t[i + 1..];
    forall j | 0 <= j < |frac| ensures frac[j] != '.' {
      assert frac[j] == t[i + 1 + j];
    }
  }

  lemma QuotientNonNegative(n: nat, p: nat)
    requires p >= 1
    ensures (n as real) / (p as real) >= 0.0
  {
    assert p as real > 0.0;
  }

  lemma Unshift(n: int, w: int, p: int, f: int)
    requires p > 0 && n == w * p + f
    ensures (n as real) / (p as real) == w as real + (f as real) / (p as real)
  {
    assert n as real == (w as real) * (p as real) + f as real;
  }

  /** A scale written without a dot reads back as the count it spells. */
  lemma ParseScaleWhole(n: nat)
    ensures ParseScale(NatToString(n)) == Some(n as real)
  {
    var t := NatToString(n);
    assert forall k :: 0 <= k < |t| ==> t[k] != '.';
  }
}
