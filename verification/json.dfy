/** Parsed JSON as `json.loads` hands it to the readers. Integers and floats are kept apart,
    as Python keeps `int` and `float` apart; a float is its exact real value. Objects keep
    their members in document order, as Python dicts do. Member names are not required to be
    distinct: `Get` reads the first, so an object stands for a parsed document only when each
    name occurs once, the member `json.loads` keeps for a repeated name being the last. */
module JsonValues {
  import opened Wrappers
  import opened Strs
  import Assoc

  datatype Json =
    | JNull
    | JBool(b: bool)
    | JInt(i: int)
    | JFloat(f: real)
    | JStr(s: string)
    | JArr(items: seq<Json>)
    | JObj(fields: seq<(string, Json)>)

  /** Python's `bool(value)`. */
  predicate Truthy(j: Json) {
    match j
    case JNull => false
    case JBool(b) => b
    case JInt(i) => i != 0
    case JFloat(f) => f != 0.0
    case JStr(s) => |s| > 0
    case JArr(items) => |items| > 0
    case JObj(fields) => |fields| > 0
  }

  /** `obj.get(key)` on a JSON object. */
  function Get(fields: seq<(string, Json)>, key: string): Option<Json> {
    Assoc.Lookup(fields, key)
  }

  /** `key in obj`. */
  predicate Has(fields: seq<(string, Json)>, key: string) {
    Get(fields, key).Some?
  }

  /** The value Python arithmetic and `round` see: integers and floats, and booleans as
      `0` and `1` (`bool` is an `int`); None for strings, lists, objects and null. */
  function AsNumber(j: Json): (r: Option<real>)
    ensures r.Some? <==> j.JInt? || j.JFloat? || j.JBool?
    ensures j.JInt? ==> r == Some(j.i as real)
    ensures r.Some? ==> (r.value != 0.0 <==> Truthy(j))
  {
    match j
    case JInt(i) => Some(i as real)
    case JFloat(f) => Some(f)
    case JBool(b) => Some(if b then 1.0 else 0.0)
    case _ => None
  }

  /** Python's `round(x)` with no digits: the nearest integer, ties to the even one. */
  function Round(x: real): int {
    var f := x.Floor;
    var d := x - f as real;
    if d < 0.5 then f
    else if d > 0.5 then f + 1
    else if f % 2 == 0 then f
    else f + 1
  }

  /** Rounding is the identity on whole numbers, so `round` of an `int` is that `int`. */
  lemma RoundWhole(i: int)
    ensures Round(i as real) == i
  {
  }

  /** A whole number, as an `int` coordinate or a float with no fraction is. */
  predicate IsWhole(x: real) {
    x == x.Floor as real
  }

  /** `n` is what `round` makes of `x`: an integer at most half a unit away, the even one
      on a tie, and `x` itself when `x` is whole. */
  predicate RoundsTo(x: real, n: int) {
    && -0.5 <= n as real - x <= 0.5
    && ((n as real - x == 0.5 || x - n as real == 0.5) ==> n % 2 == 0)
    && (IsWhole(x) ==> n as real == x)
  }

  lemma RoundSpec(x: real)
    ensures RoundsTo(x, Round(x))
  {
    if IsWhole(x) {
      RoundWhole(x.Floor);
    }
  }

  /** Whether Python can use the value as a dict key (lists and dicts cannot). */
  predicate Hashable(j: Json) {
    !j.JArr? && !j.JObj?
  }

  /** What a dict key is compared by: Python's `==`, under which `True == 1 == 1.0` and
      `False == 0 == 0.0`, while a string equals only the same string. */
  datatype HashKey = KStr(s: string) | KNum(n: real) | KNull

  function KeyOf(j: Json): (k: HashKey)
    requires Hashable(j)
    ensures k.KNum? <==> AsNumber(j).Some?
    ensures k.KNum? ==> k.n == AsNumber(j).value
  {
    match j
    case JStr(s) => KStr(s)
    case JNull => KNull
    case JBool(b) => KNum(if b then 1.0 else 0.0)
    case JInt(i) => KNum(i as real)
    case JFloat(f) => KNum(f)
  }

  /** A string key matches only the same string; numbers match across `bool`, `int` and
      `float`. */
  lemma KeyOfEquality(a: Json, b: Json)
    requires Hashable(a) && Hashable(b)
    ensures a.JStr? ==> (KeyOf(a) == KeyOf(b) <==> a == b)
    ensures KeyOf(JBool(true)) == KeyOf(JInt(1)) == KeyOf(JFloat(1.0))
    ensures KeyOf(JBool(false)) == KeyOf(JInt(0)) == KeyOf(JFloat(0.0))
    ensures a.JInt? && b.JInt? ==> (KeyOf(a) == KeyOf(b) <==> a == b)
  {
  }

  /** `show` is Python's `str()` as far as the model pins it down: the identity on strings,
      decimal digits on integers, and the names of the two booleans and of None. How floats,
      lists and dicts print is left to `show`. */
  ghost predicate IsPyStr(show: Json -> string) {
    && (forall s :: show(JStr(s)) == s)
    && (forall i :: show(JInt(i)) == IntToString(i))
    && show(JBool(true)) == "True" && show(JBool(false)) == "False" && show(JNull) == "None"
  }

  /** The one-character strings of `s`, as `for c in s` yields them. */
  function Chars(s: string): (r: seq<Json>)
    ensures |r| == |s|
    ensures forall k :: 0 <= k < |s| ==> r[k] == JStr([s[k]])
  {
    if |s| == 0 then [] else [JStr([s[0]])] + Chars(s[1..])
  }

  /** What `for x in value` visits: a list its items, an object its keys, a string its
      characters; null, booleans and numbers are not iterable. */
  function Iterate(j: Json): (r: Option<seq<Json>>)
    ensures r.None? <==> j.JNull? || j.JBool? || j.JInt? || j.JFloat?
    ensures j.JArr? ==> r == Some(j.items)
    ensures r.Some? ==> (|r.value| == 0 <==> !Truthy(j))
  {
    match j
    case JArr(items) => Some(items)
    case JObj(fields) => Some(KeyStrings(Assoc.Keys(fields)))
    case JStr(s) => Some(Chars(s))
    case _ => None
  }

  function KeyStrings(ks: seq<string>): (r: seq<Json>)
    ensures |r| == |ks|
    ensures forall k :: 0 <= k < |ks| ==> r[k] == JStr(ks[k])
  {
    if |ks| == 0 then [] else [JStr(ks[0])] + KeyStrings(ks[1..])
  }
}
