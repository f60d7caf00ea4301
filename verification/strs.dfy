/** The parts of Python's `str` that the transcription readers rely on: whitespace
    stripping, prefix/suffix tests, substring search, replace, split/join, code-point
    ordering and sorting, and decimal rendering of counts. */
module Strs {
  import WordChars

  /** Python's `str.isspace()` (and the `\s` class of a `str` regular expression). */
  predicate IsSpace(c: char) {
    || c == ' '
    || ('\t' <= c <= '\r')
    || ('\U{1c}' <= c <= '\U{1f}')
    || c == '\U{85}' || c == '\U{a0}' || c == '\U{1680}'
    || ('\U{2000}' <= c <= '\U{200a}')
    || c == '\U{2028}' || c == '\U{2029}' || c == '\U{202f}' || c == '\U{205f}' || c == '\U{3000}'
  }

  predicate IsDigit(c: char) {
    '0' <= c <= '9'
  }

  /** Word characters of a regular expression over `str` (`\w`): letters, digits and
      other alphanumerics of any script, and the underscore. */
  predicate IsWordChar(c: char) {
    WordChars.IsWord(c)
  }

  predicate StartsWith(s: string, prefix: string) {
    |prefix| <= |s| && s[..|prefix|] == prefix
  }

  predicate EndsWith(s: string, suffix: string) {
    |suffix| <= |s| && s[|s| - |suffix|..] == suffix
  }

  /** Python's `pat in s` (equivalently `s.find(pat) > -1`). */
  predicate Contains(s: string, pat: string)
    decreases |s|
  {
    StartsWith(s, pat) || (|s| > 0 && Contains(s[1..], pat))
  }

  /** Python's `str.strip()`: whitespace dropped from both ends. */
  function Strip(s: string): (r: string)
    ensures |r| <= |s|
    ensures |r| > 0 ==> !IsSpace(r[0]) && !IsSpace(r[|r| - 1])
    decreases |s|
  {
    if |s| > 0 && IsSpace(s[0]) then Strip(s[1..])
    else if |s| > 0 && IsSpace(s[|s| - 1]) then Strip(s[..|s| - 1])
    else s
  }

  predicate AllSpace(t: string) {
    forall k :: 0 <= k < |t| ==> IsSpace(t[k])
  }

  /** `r` is `s[i..j]`, and everything before `i` and from `j` on is whitespace. */
  predicate TrimmedSlice(s: string, r: string, i: int, j: int) {
    0 <= i <= j <= |s| && r == s[i..j] && AllSpace(s[..i]) && AllSpace(s[j..])
  }

  /** `strip` removes exactly a whitespace prefix and a whitespace suffix: the result is a
      contiguous slice of the input, and everything cut off on either side is whitespace. */
  lemma {:induction false} StripSlice(s: string)
    ensures exists i, j :: TrimmedSlice(s, Strip(s), i, j)
    decreases |s|
  {
    hide IsSpace, TrimmedSlice;
    if |s| > 0 && IsSpace(s[0]) {
      StripSlice(s[1..]);
      var i, j :| TrimmedSlice(s[1..], Strip(s[1..]), i, j);
      TrimmedCons(s[0], s[1..], Strip(s), i, j);
      assert [s[0]] + s[1..] == s;
    } else if |s| > 0 && IsSpace(s[|s| - 1]) {
      StripSlice(s[..|s| - 1]);
      var i, j :| TrimmedSlice(s[..|s| - 1], Strip(s[..|s| - 1]), i, j);
      TrimmedSnoc(s[..|s| - 1], s[|s| - 1], Strip(s), i, j);
      assert s[..|s| - 1] + [s[|s| - 1]] == s;
    } else {
      assert Strip(s) == s;
      TrimmedWhole(s);
    }
  }

  lemma TrimmedWhole(s: string)
    ensures TrimmedSlice(s, s, 0, |s|)
  {
    assert s[0..|s|] == s;
  }

  lemma TrimmedCons(c: char, t: string, r: string, i: int, j: int)
    requires IsSpace(c) && TrimmedSlice(t, r, i, j)
    ensures TrimmedSlice([c] + t, r, i + 1, j + 1)
  {
    hide IsSpace;
    var s := [c] + t;
    assert s[..i + 1] == [c] + t[..i];
    AllSpaceConcat([c], t[..i]);
    assert s[j + 1..] == t[j..];
    assert t[i..j] == s[i + 1..j + 1];
  }

  lemma TrimmedSnoc(t: string, c: char, r: string, i: int, j: int)
    requires IsSpace(c) && TrimmedSlice(t, r, i, j)
    ensures TrimmedSlice(t + [c], r, i, j)
  {
    hide IsSpace;
    var s := t + [c];
    assert s[..i] == t[..i];
    assert s[j..] == t[j..] + [c];
    AllSpaceConcat(t[j..], [c]);
    assert t[i..j] == s[i..j];
  }

  lemma AllSpaceConcat(a: string, b: string)
    requires AllSpace(a) && AllSpace(b)
    ensures AllSpace(a + b)
  {
    hide IsSpace;
    assert forall k :: 0 <= k < |a + b| ==> (a + b)[k] == if k < |a| then a[k] else b[k - |a|];
  }

  /** A string that neither starts nor ends with whitespace is its own strip. */
  lemma StripUnchanged(s: string)
    requires |s| > 0 ==> !IsSpace(s[0]) && !IsSpace(s[|s| - 1])
    ensures Strip(s) == s
  {
  }

  /** Stripping twice is stripping once. */
  lemma StripIdempotent(s: string)
    ensures Strip(Strip(s)) == Strip(s)
  {
    StripUnchanged(Strip(s));
  }

  /** Python's `str.index(c)` for a character that occurs. */
  function IndexOf(s: string, c: char): (i: nat)
    requires c in s
    ensures i < |s| && s[i] == c && c !in s[..i]
  {
    if s[0] == c then 0
    else
      assert c in s[1..] by { assert s == [s[0]] + s[1..]; }
      var j := IndexOf(s[1..], c);
      assert s[..j + 1] == [s[0]] + s[1..][..j];
      j + 1
  }

  /** The position of the first occurrence, when it is known. */
  lemma IndexOfAt(s: string, c: char, n: nat)
    requires n < |s| && s[n] == c && c !in s[..n]
    ensures c in s && IndexOf(s, c) == n
  {
    assert s[n] in s;
  }

  /** Python's `sep.join(xs)`. */
  function Join(xs: seq<string>, sep: string): string
  {
    if |xs| == 0 then ""
    else if |xs| == 1 then xs[0]
    else xs[0] + sep + Join(xs[1..], sep)
  }

  /** Python's `s.split(sep)` for a one-character separator: the pieces between
      separators, never containing one, that join back into `s`. */
  function Split(s: string, sep: char): (parts: seq<string>)
    ensures |parts| >= 1
    ensures forall k :: 0 <= k < |parts| ==> sep !in parts[k]
    ensures Join(parts, [sep]) == s
    decreases |s|
  {
    if sep !in s then [s]
    else
      var i := IndexOf(s, sep);
      var rest := Split(s[i + 1..], sep);
      var parts := [s[..i]] + rest;
      assert parts[1..] == rest;
      assert s == s[..i] + [sep] + s[i + 1..];
      parts
  }

  /** Splitting what was joined gives back the pieces. */
  lemma {:induction false} SplitJoin(parts: seq<string>, sep: char)
    requires |parts| >= 1
    requires forall k :: 0 <= k < |parts| ==> sep !in parts[k]
    ensures Split(Join(parts, [sep]), sep) == parts
    decreases |parts|
  {
    if |parts| == 1 {
    } else {
      var tail := Join(parts[1..], [sep]);
      var s := parts[0] + [sep] + tail;
      assert Join(parts, [sep]) == s;
      assert s[|parts[0]|] == sep;
      assert s[..|parts[0]|] == parts[0];
      assert sep in s;
      var i := IndexOf(s, sep);
      assert forall k :: 0 <= k < |parts[0]| ==> s[k] == parts[0][k];
      assert i == |parts[0]|;
      assert s[i + 1..] == tail;
      SplitJoin(parts[1..], sep);
      assert Split(s, sep) == [parts[0]] + parts[1..];
    }
  }

  /** All pieces but the last one, joined again: `".".join(path.split(".")[:-1])`. */
  function DropLastComponent(path: string): string
  {
    var parts := Split(path, '.');
    Join(parts[..|parts| - 1], ".")
  }

  /** Python's `s.replace(pat, rep)`: every non-overlapping occurrence, scanning left to right. */
  function ReplaceAll(s: string, pat: string, rep: string): string
    requires |pat| > 0
    decreases |s|
  {
    if |s| < |pat| then s
    else if s[..|pat|] == pat then rep + ReplaceAll(s[|pat|..], pat, rep)
    else [s[0]] + ReplaceAll(s[1..], pat, rep)
  }

  lemma ContainsShorter(s: string, pat: string)
    requires Contains(s, pat)
    ensures |pat| <= |s|
    decreases |s|
  {
  }

  /** A string with no occurrence of `pat` is left alone by `replace`. */
  lemma {:induction false} ReplaceAbsent(s: string, pat: string, rep: string)
    requires |pat| > 0 && !Contains(s, pat)
    ensures ReplaceAll(s, pat, rep) == s
    decreases |s|
  {
    if |s| >= |pat| {
      assert s[..|pat|] != pat;
      ReplaceAbsent(s[1..], pat, rep);
      assert s == [s[0]] + s[1..];
    }
  }

  /** No character of `a` occurs in `b`. */
  predicate Disjoint(a: string, b: string) {
    forall i, j :: 0 <= i < |a| && 0 <= j < |b| ==> a[i] != b[j]
  }

  lemma {:induction false} ReplacedPrefix(t: string, pat: string, rep: string, w: string)
    requires |pat| > 0 && |rep| > 0 && Disjoint(rep, w)
    requires StartsWith(ReplaceAll(t, pat, rep), w)
    ensures StartsWith(t, w)
    decreases |t|
  {
    if |w| > 0 && |t| >= |pat| {
      ReplacedHead(t, pat, rep);
    }
    if |w| == 0 || |t| < |pat| {
    } else if t[..|pat|] == pat {
      assert false;
    } else {
      var rest := ReplaceAll(t[1..], pat, rep);
      assert ReplaceAll(t, pat, rep) == [t[0]] + rest;
      assert StartsWith(rest, w[1..]);
      ReplacedPrefix(t[1..], pat, rep, w[1..]);
    }
  }

  /** The first character after `s.replace(pat, rep)`. */
  lemma ReplacedHead(t: string, pat: string, rep: string)
    requires |pat| > 0 && |rep| > 0 && |t| >= |pat|
    ensures |ReplaceAll(t, pat, rep)| > 0
    ensures ReplaceAll(t, pat, rep)[0] == if t[..|pat|] == pat then rep[0] else t[0]
  {
  }

  lemma {:induction false} ContainsSkip(a: string, x: string, pat: string)
    requires |pat| > 0 && Disjoint(a, pat[..1])
    requires Contains(a + x, pat)
    ensures Contains(x, pat)
    decreases |a|
  {
    if |a| > 0 {
      assert !StartsWith(a + x, pat) by { assert (a + x)[0] == a[0]; }
      assert (a + x)[1..] == a[1..] + x;
      ContainsSkip(a[1..], x, pat);
    } else {
      assert a + x == x;
    }
  }

  /** After `s.replace(pat, rep)` with a replacement that shares no character with
      `pat`, the pattern no longer occurs. */
  lemma {:induction false} ReplaceRemoves(s: string, pat: string, rep: string)
    requires |pat| > 0 && |rep| > 0 && Disjoint(rep, pat)
    ensures !Contains(ReplaceAll(s, pat, rep), pat)
    decreases |s|
  {
    var r := ReplaceAll(s, pat, rep);
    if |s| < |pat| {
      if Contains(r, pat) { ContainsShorter(r, pat); }
    } else if s[..|pat|] == pat {
      var rest := ReplaceAll(s[|pat|..], pat, rep);
      ReplaceRemoves(s[|pat|..], pat, rep);
      if Contains(rep + rest, pat) { ContainsSkip(rep, rest, pat); }
    } else {
      var rest := ReplaceAll(s[1..], pat, rep);
      ReplaceRemoves(s[1..], pat, rep);
      assert r == [s[0]] + rest;
      if StartsWith(r, pat) {
        assert StartsWith(rest, pat[1..]);
        ReplacedPrefix(s[1..], pat, rep, pat[1..]);
        assert false;
      }
      assert r[1..] == rest;
    }
  }

  lemma {:induction false} ContainsSuffix(s: string, a: string, b: string)
    requires Contains(s, a + b)
    ensures Contains(s, b)
    decreases |s|
  {
    if StartsWith(s, a + b) {
      assert s[|a|..][..|b|] == (a + b)[|a|..];
      ContainsFrom(s, |a|, b);
    } else {
      ContainsSuffix(s[1..], a, b);
    }
  }

  lemma {:induction false} ContainsFrom(s: string, k: nat, b: string)
    requires k <= |s| && StartsWith(s[k..], b)
    ensures Contains(s, b)
    decreases k
  {
    if k > 0 {
      assert s[1..][k - 1..] == s[k..];
      ContainsFrom(s[1..], k - 1, b);
    }
  }

  /** Python's `a <= b` on strings: code-point lexicographic order. */
  predicate LessEq(a: string, b: string)
    decreases |a|
  {
    if |a| == 0 then true
    else if |b| == 0 then false
    else if a[0] != b[0] then a[0] < b[0]
    else LessEq(a[1..], b[1..])
  }

  lemma LessEqTotal(a: string, b: string)
    ensures LessEq(a, b) || LessEq(b, a)
    decreases |a|
  {
  }

  lemma LessEqTrans(a: string, b: string, c: string)
    requires LessEq(a, b) && LessEq(b, c)
    ensures LessEq(a, c)
    decreases |a|
  {
    if |a| > 0 && |b| > 0 && |c| > 0 && a[0] == b[0] && b[0] == c[0] {
      LessEqTrans(a[1..], b[1..], c[1..]);
    }
  }

  lemma LessEqAntisym(a: string, b: string)
    requires LessEq(a, b) && LessEq(b, a)
    ensures a == b
    decreases |a|
  {
    if |a| > 0 && |b| > 0 {
      LessEqAntisym(a[1..], b[1..]);
      assert a == [a[0]] + a[1..];
      assert b == [b[0]] + b[1..];
    }
  }

  predicate SortedBy<T>(s: seq<T>, key: T -> string) {
    forall i, j :: 0 <= i < j < |s| ==> LessEq(key(s[i]), key(s[j]))
  }

  /** Inserts `x` before the first element that is not smaller than it. */
  function Insert<T(==)>(x: T, s: seq<T>, key: T -> string): (r: seq<T>)
    requires SortedBy(s, key)
    ensures SortedBy(r, key)
    ensures multiset(r) == multiset(s) + multiset{x}
  {
    if |s| == 0 then [x]
    else if LessEq(key(x), key(s[0])) then
      forall j | 0 <= j < |s| ensures LessEq(key(x), key(s[j])) {
        if j > 0 {
          LessEqTrans(key(x), key(s[0]), key(s[j]));
        }
      }
      SortedCons(x, s, key);
      assert s == [s[0]] + s[1..];
      [x] + s
    else
      var tail := Insert(x, s[1..], key);
      LessEqTotal(key(x), key(s[0]));
      LowerBound(s[1..], tail, x, key, key(s[0]));
      SortedCons(s[0], tail, key);
      assert s == [s[0]] + s[1..];
      [s[0]] + tail
  }

  /** A bound below every element of `s` and below `x` is below every element of a
      sequence holding exactly those. */
  lemma LowerBound<T>(s: seq<T>, t: seq<T>, x: T, key: T -> string, lo: string)
    requires multiset(t) == multiset(s) + multiset{x}
    requires forall k :: 0 <= k < |s| ==> LessEq(lo, key(s[k]))
    requires LessEq(lo, key(x))
    ensures forall j :: 0 <= j < |t| ==> LessEq(lo, key(t[j]))
  {
    forall j | 0 <= j < |t| ensures LessEq(lo, key(t[j])) {
      assert t[j] in multiset(t);
      if t[j] != x {
        assert t[j] in multiset(s);
        var k :| 0 <= k < |s| && s[k] == t[j];
      }
    }
  }

  /** An element below every element of a sorted sequence can go in front of it. */
  lemma SortedCons<T>(h: T, t: seq<T>, key: T -> string)
    requires SortedBy(t, key)
    requires forall j :: 0 <= j < |t| ==> LessEq(key(h), key(t[j]))
    ensures SortedBy([h] + t, key)
  {
    var r := [h] + t;
    forall i, j | 0 <= i < j < |r| ensures LessEq(key(r[i]), key(r[j])) {
      assert r[j] == t[j - 1];
      if i > 0 {
        assert r[i] == t[i - 1];
      }
    }
  }

  /** Insertion sort by a string key: sorted, and a permutation of the input. */
  function SortBy<T(==)>(xs: seq<T>, key: T -> string): (r: seq<T>)
    ensures SortedBy(r, key)
    ensures multiset(r) == multiset(xs)
  {
    if |xs| == 0 then []
    else
      assert xs == [xs[0]] + xs[1..];
      Insert(xs[0], SortBy(xs[1..], key), key)
  }

  /** Python's `sorted(strings)`. */
  function SortStrings(xs: seq<string>): (r: seq<string>)
    ensures SortedBy(r, s => s)
    ensures multiset(r) == multiset(xs)
  {
    SortBy(xs, s => s)
  }

  /** The value of a string of decimal digits. */
  function DigitsValue(ds: string): nat
    requires forall k :: 0 <= k < |ds| ==> IsDigit(ds[k])
  {
    if |ds| == 0 then 0
    else
      assert IsDigit(ds[|ds| - 1]);
      10 * DigitsValue(ds[..|ds| - 1]) + (ds[|ds| - 1] as int - '0' as int)
  }

  /** Python's `str(n)` for a count: decimal digits, no leading zero, denoting `n`. */
  function NatToString(n: nat): (r: string)
    ensures |r| >= 1
    ensures forall k :: 0 <= k < |r| ==> IsDigit(r[k])
    ensures DigitsValue(r) == n
    ensures |r| > 1 ==> r[0] != '0'
  {
    var d := ['0' + (n % 10) as char];
    if n < 10 then d
    else
      var r := NatToString(n / 10) + d;
      assert r[..|r| - 1] == NatToString(n / 10);
      r
  }

  /** Python's `str(i)` for an integer: a minus sign exactly when `i` is negative, then the
      decimal digits of its magnitude. */
  function IntToString(i: int): (r: string)
    ensures |r| >= 1
    ensures (r[0] == '-') <==> i < 0
    ensures var digits := if i < 0 then r[1..] else r;
            |digits| >= 1 && (forall k :: 0 <= k < |digits| ==> IsDigit(digits[k])) &&
            DigitsValue(digits) == (if i < 0 then -i else i)
    ensures var digits := if i < 0 then r[1..] else r;
            |digits| > 1 ==> digits[0] != '0'
  {
    if i < 0 then "-" + NatToString(-i) else NatToString(i)
  }
}
