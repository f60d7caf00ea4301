/** Length reconciliation (`pylib/column_types/length.py`): the mean line of a group of
    transcribed lines, and the unit conversion of a reconciled row that names a scale. */
module LengthType {
  import opened Wrappers
  import opened Strs
  import opened JsonValues
  import Assoc
  import Scale

  datatype LengthError =
    | NotARecord                  // `ln.get` on a record that is not an object
    | MissingCoordinate(key: string)
    | NotANumber(key: string)     // `statistics.mean`, `/` or `*` on a non-number
    | BadScale(text: string)      // `float` rejects the scale text
    | ZeroScale(key: string)      // division by a zero scale

  /** The reconciled cell: `cell.empty(note=…)` or `cell.ok(note=…, length_pixels=…)`. */
  datatype LineCell =
    | EmptyCell(note: string)
    | OkCell(note: string, lengthPixels: real)

  /** `math.sqrt` on non-negative arguments. */
  ghost predicate IsSqrt(sqrt: real -> real) {
    forall v :: v >= 0.0 ==> sqrt(v) >= 0.0 && sqrt(v) * sqrt(v) == v
  }

  /** `obj.get(key)` is present and truthy. */
  predicate TruthyAt(fields: seq<(string, Json)>, key: string) {
    Get(fields, key).Some? && Truthy(Get(fields, key).value)
  }

  /** A record that counts as a line: one whose `x1` is truthy (so `x1 == 0` does not). */
  predicate IsLine(record: Json) {
    record.JObj? && TruthyAt(record.fields, "x1")
  }

  predicate AllObjects(records: seq<Json>) {
    forall k :: 0 <= k < |records| ==> records[k].JObj?
  }

  /** The members of the records that are lines, in group order. */
  function Lines(records: seq<Json>): (r: seq<seq<(string, Json)>>)
    ensures |r| <= |records|
    ensures forall k :: 0 <= k < |r| ==> TruthyAt(r[k], "x1")
    ensures |r| == 0 <==> forall k :: 0 <= k < |records| ==> !IsLine(records[k])
  {
    if |records| == 0 then []
    else
      var rest := Lines(records[1..]);
      assert forall k :: 1 <= k < |records| ==> records[k] == records[1..][k - 1];
      if IsLine(records[0]) then [records[0].fields] + rest else rest
  }

  /** The one line of a group with exactly one line record. */
  lemma {:induction false} LinesSingle(records: seq<Json>, i: nat)
    requires i < |records| && IsLine(records[i])
    requires forall k :: 0 <= k < |records| && k != i ==> !IsLine(records[k])
    ensures Lines(records) == [records[i].fields]
    decreases |records|
  {
    assert forall k :: 1 <= k < |records| ==> records[k] == records[1..][k - 1];
    if i > 0 {
      LinesSingle(records[1..], i - 1);
    } else {
      assert Lines(records[1..]) == [];
    }
  }

  predicate Present(lines: seq<seq<(string, Json)>>, key: string) {
    forall k :: 0 <= k < |lines| ==> Get(lines[k], key).Some?
  }

  function Numbers(lines: seq<seq<(string, Json)>>, key: string): (r: Option<seq<real>>)
    requires Present(lines, key)
    ensures r.Some? <==> forall k :: 0 <= k < |lines| ==> AsNumber(Get(lines[k], key).value).Some?
    ensures r.Some? ==> |r.value| == |lines| &&
                        forall k :: 0 <= k < |lines| ==> AsNumber(Get(lines[k], key).value) == Some(r.value[k])
  {
    if |lines| == 0 then Some([])
    else
      var head, tail := AsNumber(Get(lines[0], key).value), Numbers(lines[1..], key);
      assert forall k :: 1 <= k < |lines| ==> lines[k] == lines[1..][k - 1];
      if head.None? || tail.None? then None
      else Some([head.value] + tail.value)
  }

  /** `[ln[key] for ln in lines]` handed to `statistics.mean`: a line without the key raises
      `KeyError` while the list is built; a non-number raises `TypeError` afterwards. */
  function Column(lines: seq<seq<(string, Json)>>, key: string): (r: Result<seq<real>, LengthError>)
    ensures r.Success? <==> forall k :: 0 <= k < |lines| ==>
                              Get(lines[k], key).Some? && AsNumber(Get(lines[k], key).value).Some?
    ensures r.Success? ==> |r.value| == |lines| &&
                           forall k :: 0 <= k < |lines| ==> AsNumber(Get(lines[k], key).value) == Some(r.value[k])
    ensures r.Failure? ==> r.error == if Present(lines, key) then NotANumber(key) else MissingCoordinate(key)
  {
    if !Present(lines, key) then Failure(MissingCoordinate(key))
    else
      match Numbers(lines, key)
      case None => Failure(NotANumber(key))
      case Some(ns) => Success(ns)
  }

  function Sum(xs: seq<real>): real {
    if |xs| == 0 then 0.0 else xs[0] + Sum(xs[1..])
  }

  /** `statistics.mean`, exactly. */
  function Mean(xs: seq<real>): real
    requires |xs| > 0
  {
    Sum(xs) / |xs| as real
  }

  function EmptyNote(rawCount: nat, plural: (string, nat) -> string): string {
    "There are no lines in " + NatToString(rawCount) + " " + plural("records", rawCount) + "."
  }

  /** The note of a cell with lines. The word "line" is inflected by the number of records,
      not the number of lines, and there is no closing full stop. */
  function OkNote(count: nat, rawCount: nat, plural: (string, nat) -> string): string {
    "There " + plural("was", count) + " " + NatToString(count) + " " + plural("line", rawCount)
    + " in " + NatToString(rawCount) + " " + plural("record", rawCount)
  }

  /** The squared distance between the mean start and the mean end of the lines. */
  function MeanSquaredDistance(x1: seq<real>, y1: seq<real>, x2: seq<real>, y2: seq<real>): (d: real)
    requires |x1| > 0 && |y1| > 0 && |x2| > 0 && |y2| > 0
    ensures d >= 0.0
  {
    var dx, dy := Mean(x1) - Mean(x2), Mean(y1) - Mean(y2);
    dx * dx + dy * dy
  }

  /** The four coordinate means of the lines, combined into the squared length. */
  function SquaredLength(lines: seq<seq<(string, Json)>>): (r: Result<real, LengthError>)
    requires |lines| > 0
    ensures r.Success? <==> Column(lines, "x1").Success? && Column(lines, "y1").Success? &&
                            Column(lines, "x2").Success? && Column(lines, "y2").Success?
    ensures r.Success? ==> r.value >= 0.0
    ensures r.Failure? ==> r.error.NotANumber? || r.error.MissingCoordinate?
  {
    var x1, y1, x2, y2 := Column(lines, "x1"), Column(lines, "y1"), Column(lines, "x2"), Column(lines, "y2");
    if x1.Failure? then Failure(x1.error)
    else if y1.Failure? then Failure(y1.error)
    else if x2.Failure? then Failure(x2.error)
    else if y2.Failure? then Failure(y2.error)
    else Success(MeanSquaredDistance(x1.value, y1.value, x2.value, y2.value))
  }

  /** `reconcile`: the records of one group, already decoded from JSON. The inflecting
      `P` and `math.sqrt` are parameters. */
  function Reconcile(records: seq<Json>, sqrt: real -> real, plural: (string, nat) -> string)
    : (r: Result<LineCell, LengthError>)
    ensures r == Failure(NotARecord) <==> !AllObjects(records)
    ensures (r.Success? && r.value.EmptyCell?) <==> AllObjects(records) && |Lines(records)| == 0
    ensures r.Success? && r.value.EmptyCell? ==> r.value.note == EmptyNote(|records|, plural)
    ensures r.Success? && r.value.OkCell? ==>
              && r.value.note == OkNote(|Lines(records)|, |records|, plural)
              && |Lines(records)| > 0 && SquaredLength(Lines(records)).Success?
              && r.value.lengthPixels == sqrt(SquaredLength(Lines(records)).value)
    ensures AllObjects(records) && |Lines(records)| > 0 ==>
              (r.Success? <==> SquaredLength(Lines(records)).Success?)
    ensures r.Failure? ==>
              || r.error == NotARecord
              || (|Lines(records)| > 0 && SquaredLength(Lines(records)) == Failure(r.error)
                  && (r.error.NotANumber? || r.error.MissingCoordinate?))
  {
    if !AllObjects(records) then Failure(NotARecord)
    else
      var lines := Lines(records);
      if |lines| == 0 then Success(EmptyCell(EmptyNote(|records|, plural)))
      else
        var d := SquaredLength(lines);
        if d.Failure? then Failure(d.error)
        else Success(OkCell(OkNote(|lines|, |records|, plural), sqrt(d.value)))
  }

  /** A line record without `y1` fails: building the `y1` column raises `KeyError`. */
  lemma MissingEndFails(sqrt: real -> real, plural: (string, nat) -> string)
    ensures Reconcile([JObj([("x1", JInt(1))])], sqrt, plural) == Failure(MissingCoordinate("y1"))
  {
    var line := [("x1", JInt(1))];
    assert Get(line, "x1") == Some(JInt(1));
    assert Get(line, "y1") == None;
    assert Lines([JObj(line)]) == [line];
    assert Column([line], "x1").Success?;
    assert !Present([line], "y1");
  }

  /** A cell with lines holds the distance between the mean start point and the mean end
      point of its lines: a non-negative number whose square is the squared distance. */
  lemma ReconcileLength(records: seq<Json>, sqrt: real -> real, plural: (string, nat) -> string)
    requires IsSqrt(sqrt)
    requires Reconcile(records, sqrt, plural).Success? && Reconcile(records, sqrt, plural).value.OkCell?
    ensures |Lines(records)| > 0 && SquaredLength(Lines(records)).Success?
    ensures var len := Reconcile(records, sqrt, plural).value.lengthPixels;
            IsRootOf(len, SquaredLength(Lines(records)).value)
  {
    RootSquared(sqrt, SquaredLength(Lines(records)).value, Reconcile(records, sqrt, plural).value.lengthPixels);
  }

  /** `root` is the non-negative square root of `v`. */
  predicate IsRootOf(root: real, v: real) {
    root >= 0.0 && root * root == v
  }

  lemma RootSquared(sqrt: real -> real, v: real, root: real)
    requires IsSqrt(sqrt) && v >= 0.0 && root == sqrt(v)
    ensures IsRootOf(root, v)
  {
  }

  /** The squared length is that of the segment from the mean `(x1, y1)` to the mean
      `(x2, y2)`. */
  lemma SquaredLengthMeans(lines: seq<seq<(string, Json)>>)
    requires |lines| > 0 && SquaredLength(lines).Success?
    ensures var dx := Mean(Column(lines, "x1").value) - Mean(Column(lines, "x2").value);
            var dy := Mean(Column(lines, "y1").value) - Mean(Column(lines, "y2").value);
            SquaredLength(lines).value == dx * dx + dy * dy
  {
  }

  /** `xs[k] - ys[k]` for every `k`. */
  function Diffs(xs: seq<real>, ys: seq<real>): (r: seq<real>)
    requires |xs| == |ys|
    ensures |r| == |xs| && forall k :: 0 <= k < |xs| ==> r[k] == xs[k] - ys[k]
  {
    if |xs| == 0 then [] else [xs[0] - ys[0]] + Diffs(xs[1..], ys[1..])
  }

  lemma {:induction false} SumDiffs(xs: seq<real>, ys: seq<real>)
    requires |xs| == |ys|
    ensures Sum(Diffs(xs, ys)) == Sum(xs) - Sum(ys)
    decreases |xs|
  {
    if |xs| > 0 {
      SumDiffs(xs[1..], ys[1..]);
      assert Diffs(xs, ys)[1..] == Diffs(xs[1..], ys[1..]);
    }
  }

  /** The difference of two means over equally many values is the mean of the differences. */
  lemma MeanDiffs(xs: seq<real>, ys: seq<real>)
    requires |xs| == |ys| > 0
    ensures Mean(xs) - Mean(ys) == Mean(Diffs(xs, ys))
  {
    SumDiffs(xs, ys);
    DivSub(Sum(xs), Sum(ys), |xs| as real);
  }

  lemma DivSub(a: real, b: real, n: real)
    requires n > 0.0
    ensures a / n - b / n == (a - b) / n
  {
  }

  /** Averaging the lines first and measuring the mean segment equals measuring the mean
      displacement: the squared length is the square of the mean `x1 - x2` plus the square
      of the mean `y1 - y2`, taken line by line. */
  lemma SquaredLengthOfDisplacements(lines: seq<seq<(string, Json)>>)
    requires |lines| > 0 && SquaredLength(lines).Success?
    ensures var x1, y1 := Column(lines, "x1").value, Column(lines, "y1").value;
            var x2, y2 := Column(lines, "x2").value, Column(lines, "y2").value;
            SquaredLength(lines).value == Sq(Mean(Diffs(x1, x2))) + Sq(Mean(Diffs(y1, y2)))
  {
    var x1, y1 := Column(lines, "x1").value, Column(lines, "y1").value;
    var x2, y2 := Column(lines, "x2").value, Column(lines, "y2").value;
    SquaredLengthOf(lines, x1, y1, x2, y2);
    MeanSquaredDiffs(x1, y1, x2, y2);
  }

  lemma MeanSquaredDiffs(x1: seq<real>, y1: seq<real>, x2: seq<real>, y2: seq<real>)
    requires |x1| == |x2| > 0 && |y1| == |y2| > 0
    ensures MeanSquaredDistance(x1, y1, x2, y2) == Sq(Mean(Diffs(x1, x2))) + Sq(Mean(Diffs(y1, y2)))
  {
    MeanSquaredSq(x1, y1, x2, y2);
    hide Sq, Mean, Diffs, MeanSquaredDistance;
    SqMeanDiffs(x1, x2);
    SqMeanDiffs(y1, y2);
  }

  lemma SqMeanDiffs(xs: seq<real>, ys: seq<real>)
    requires |xs| == |ys| > 0
    ensures Sq(Mean(xs) - Mean(ys)) == Sq(Mean(Diffs(xs, ys)))
  {
    MeanDiffs(xs, ys);
    hide Sq, Mean, Diffs;
    var a, b := Mean(xs) - Mean(ys), Mean(Diffs(xs, ys));
    assert a == b;
  }

  lemma MeanSquaredSq(x1: seq<real>, y1: seq<real>, x2: seq<real>, y2: seq<real>)
    requires |x1| > 0 && |y1| > 0 && |x2| > 0 && |y2| > 0
    ensures MeanSquaredDistance(x1, y1, x2, y2) == Sq(Mean(x1) - Mean(x2)) + Sq(Mean(y1) - Mean(y2))
  {
    hide Mean;
  }

  /** The mean lies between the least and the greatest value. */
  lemma MeanBetween(xs: seq<real>, lo: real, hi: real)
    requires |xs| > 0 && forall k :: 0 <= k < |xs| ==> lo <= xs[k] <= hi
    ensures lo <= Mean(xs) <= hi
  {
    SumBetween(xs, lo, hi);
    var n := |xs| as real;
    assert n * lo / n == lo && n * hi / n == hi;
  }

  lemma {:induction false} SumBetween(xs: seq<real>, lo: real, hi: real)
    requires forall k :: 0 <= k < |xs| ==> lo <= xs[k] <= hi
    ensures |xs| as real * lo <= Sum(xs) <= |xs| as real * hi
    decreases |xs|
  {
    if |xs| > 0 {
      SumBetween(xs[1..], lo, hi);
      var m := (|xs| - 1) as real;
      assert |xs| as real * lo == lo + m * lo;
      assert |xs| as real * hi == hi + m * hi;
    }
  }

  /** A single line: the means are that line's own coordinates. */
  lemma SingleLineSquared(fields: seq<(string, Json)>, x1: real, y1: real, x2: real, y2: real)
    requires Get(fields, "x1").Some? && AsNumber(Get(fields, "x1").value) == Some(x1)
    requires Get(fields, "y1").Some? && AsNumber(Get(fields, "y1").value) == Some(y1)
    requires Get(fields, "x2").Some? && AsNumber(Get(fields, "x2").value) == Some(x2)
    requires Get(fields, "y2").Some? && AsNumber(Get(fields, "y2").value) == Some(y2)
    ensures SquaredLength([fields]) == Success(SegmentSquared(x1, y1, x2, y2))
  {
    ColumnSingle(fields, "x1", x1);
    ColumnSingle(fields, "y1", y1);
    ColumnSingle(fields, "x2", x2);
    ColumnSingle(fields, "y2", y2);
    SquaredLengthOf([fields], [x1], [y1], [x2], [y2]);
    SingleSegment(x1, y1, x2, y2);
  }

  lemma SquaredLengthOf(lines: seq<seq<(string, Json)>>, x1: seq<real>, y1: seq<real>, x2: seq<real>, y2: seq<real>)
    requires |lines| > 0 && |x1| > 0 && |y1| > 0 && |x2| > 0 && |y2| > 0
    requires Column(lines, "x1") == Success(x1) && Column(lines, "y1") == Success(y1)
    requires Column(lines, "x2") == Success(x2) && Column(lines, "y2") == Success(y2)
    ensures SquaredLength(lines) == Success(MeanSquaredDistance(x1, y1, x2, y2))
  {
  }

  lemma ColumnSingle(fields: seq<(string, Json)>, key: string, x: real)
    requires Get(fields, key).Some? && AsNumber(Get(fields, key).value) == Some(x)
    ensures Column([fields], key) == Success([x])
  {
    assert Column([fields], key).value == [x];
  }

  lemma SingleSegment(x1: real, y1: real, x2: real, y2: real)
    ensures MeanSquaredDistance([x1], [y1], [x2], [y2]) == SegmentSquared(x1, y1, x2, y2)
  {
    MeanSingle(x1);
    MeanSingle(y1);
    MeanSingle(x2);
    MeanSingle(y2);
  }

  lemma MeanSingle(x: real)
    ensures Mean([x]) == x
  {
    assert Sum([x]) == x;
  }

  function Sq(x: real): real { x * x }

  /** The squared length of the segment from `(x1, y1)` to `(x2, y2)`. */
  function SegmentSquared(x1: real, y1: real, x2: real, y2: real): real {
    Sq(x1 - x2) + Sq(y1 - y2)
  }

  /** With a single line in the group the length is that line's own length. */
  lemma SingleLine(records: seq<Json>, i: nat, sqrt: real -> real, plural: (string, nat) -> string,
                   x1: real, y1: real, x2: real, y2: real)
    requires AllObjects(records)
    requires i < |records| && IsLine(records[i])
    requires forall k :: 0 <= k < |records| && k != i ==> !IsLine(records[k])
    requires AsNumber(Get(records[i].fields, "x1").value) == Some(x1)
    requires Get(records[i].fields, "y1").Some? && AsNumber(Get(records[i].fields, "y1").value) == Some(y1)
    requires Get(records[i].fields, "x2").Some? && AsNumber(Get(records[i].fields, "x2").value) == Some(x2)
    requires Get(records[i].fields, "y2").Some? && AsNumber(Get(records[i].fields, "y2").value) == Some(y2)
    ensures Reconcile(records, sqrt, plural).Success?
    ensures Reconcile(records, sqrt, plural).value.OkCell?
    ensures Reconcile(records, sqrt, plural).value.lengthPixels == sqrt(SegmentSquared(x1, y1, x2, y2))
  {
    LinesSingle(records, i);
    SingleLineSquared(records[i].fields, x1, y1, x2, y2);
  }

  /** Exchanging the two endpoints of a line. */
  function SwapName(key: string): string {
    if key == "x1" then "x2" else if key == "x2" then "x1"
    else if key == "y1" then "y2" else if key == "y2" then "y1"
    else key
  }

  lemma SwapNameSwaps(a: string, b: string)
    ensures SwapName(a) == b <==> a == SwapName(b)
  {
  }

  function SwapEnds(fields: seq<(string, Json)>): (r: seq<(string, Json)>)
    ensures |r| == |fields|
    ensures forall k :: 0 <= k < |fields| ==> r[k] == (SwapName(fields[k].0), fields[k].1)
  {
    if |fields| == 0 then [] else [(SwapName(fields[0].0), fields[0].1)] + SwapEnds(fields[1..])
  }

  function SwapRecord(record: Json): Json {
    if record.JObj? then JObj(SwapEnds(record.fields)) else record
  }

  function SwapAll(records: seq<Json>): (r: seq<Json>)
    ensures |r| == |records|
    ensures forall k :: 0 <= k < |records| ==> r[k] == SwapRecord(records[k])
  {
    if |records| == 0 then [] else [SwapRecord(records[0])] + SwapAll(records[1..])
  }

  /** After the exchange, each coordinate is read from the other endpoint. */
  lemma {:induction false} LookupSwapped(fields: seq<(string, Json)>, key: string)
    ensures Get(SwapEnds(fields), key) == Get(fields, SwapName(key))
    decreases |fields|
  {
    if |fields| > 0 {
      var s := SwapEnds(fields);
      assert s[1..] == SwapEnds(fields[1..]);
      LookupSwapped(fields[1..], key);
      SwapNameSwaps(fields[0].0, key);
      assert Assoc.Lookup(s, key) == if s[0].0 == key then Some(s[0].1) else Assoc.Lookup(s[1..], key);
      assert Assoc.Lookup(fields, SwapName(key)) ==
             if fields[0].0 == SwapName(key) then Some(fields[0].1) else Assoc.Lookup(fields[1..], SwapName(key));
    }
  }

  /** Every line drawn the other way round. */
  function SwapLines(lines: seq<seq<(string, Json)>>): (r: seq<seq<(string, Json)>>)
    ensures |r| == |lines|
    ensures forall k :: 0 <= k < |lines| ==> r[k] == SwapEnds(lines[k])
  {
    if |lines| == 0 then [] else [SwapEnds(lines[0])] + SwapLines(lines[1..])
  }

  lemma SwapLinesCons(line: seq<(string, Json)>, lines: seq<seq<(string, Json)>>)
    ensures SwapLines([line] + lines) == [SwapEnds(line)] + SwapLines(lines)
  {
    assert ([line] + lines)[1..] == lines;
  }

  /** When both ends of every record are truthy together, the exchanged records have the
      exchanged lines. */
  lemma {:induction false} LinesSwapped(records: seq<Json>)
    requires forall k :: 0 <= k < |records| && records[k].JObj? ==>
               (TruthyAt(records[k].fields, "x1") <==> TruthyAt(records[k].fields, "x2"))
    ensures Lines(SwapAll(records)) == SwapLines(Lines(records))
    decreases |records|
  {
    if |records| > 0 {
      var swapped := SwapAll(records);
      assert swapped[1..] == SwapAll(records[1..]);
      LinesSwapped(records[1..]);
      SwapLine(records[0]);
      LinesHead(records);
      LinesHead(swapped);
      if IsLine(records[0]) {
        SwapLinesCons(records[0].fields, Lines(records[1..]));
      }
    }
  }

  lemma LinesHead(records: seq<Json>)
    requires |records| > 0
    ensures Lines(records) == if IsLine(records[0]) then [records[0].fields] + Lines(records[1..]) else Lines(records[1..])
  {
  }

  lemma SwapLine(record: Json)
    requires record.JObj? ==> (TruthyAt(record.fields, "x1") <==> TruthyAt(record.fields, "x2"))
    ensures IsLine(SwapRecord(record)) <==> IsLine(record)
    ensures IsLine(record) ==> SwapRecord(record).fields == SwapEnds(record.fields)
  {
    if record.JObj? {
      LookupSwapped(record.fields, "x1");
      SwapNameEnds();
    }
  }

  lemma ColumnSwapped(lines: seq<seq<(string, Json)>>, lines': seq<seq<(string, Json)>>, key: string, other: string)
    requires |lines'| == |lines| && SwapName(key) == other
    requires forall k :: 0 <= k < |lines| ==> lines'[k] == SwapEnds(lines[k])
    requires Column(lines, other).Success?
    ensures Column(lines', key) == Column(lines, other)
  {
    forall k | 0 <= k < |lines| ensures Get(lines'[k], key) == Get(lines[k], other) {
      LookupSwapped(lines[k], key);
    }
    assert Column(lines', key).value == Column(lines, other).value;
  }

  lemma SwapNameEnds()
    ensures SwapName("x1") == "x2" && SwapName("x2") == "x1"
    ensures SwapName("y1") == "y2" && SwapName("y2") == "y1"
  {
  }

  lemma SquaredLengthSwapped(lines: seq<seq<(string, Json)>>, lines': seq<seq<(string, Json)>>)
    requires |lines| > 0 && |lines'| == |lines|
    requires forall k :: 0 <= k < |lines| ==> lines'[k] == SwapEnds(lines[k])
    requires SquaredLength(lines).Success?
    ensures SquaredLength(lines') == SquaredLength(lines)
  {
    SwapNameEnds();
    ColumnSwapped(lines, lines', "x1", "x2");
    ColumnSwapped(lines, lines', "x2", "x1");
    ColumnSwapped(lines, lines', "y1", "y2");
    ColumnSwapped(lines, lines', "y2", "y1");
    MeanSquaredSymmetric(Column(lines, "x1").value, Column(lines, "y1").value,
                         Column(lines, "x2").value, Column(lines, "y2").value);
  }

  lemma MeanSquaredSymmetric(x1: seq<real>, y1: seq<real>, x2: seq<real>, y2: seq<real>)
    requires |x1| > 0 && |y1| > 0 && |x2| > 0 && |y2| > 0
    ensures MeanSquaredDistance(x2, y2, x1, y1) == MeanSquaredDistance(x1, y1, x2, y2)
  {
  }

  /** Drawing every line the other way round does not change the reconciled cell
      (provided that does not change which records count as lines). */
  lemma SwapEndpoints(records: seq<Json>, sqrt: real -> real, plural: (string, nat) -> string)
    requires forall k :: 0 <= k < |records| && records[k].JObj? ==>
               (TruthyAt(records[k].fields, "x1") <==> TruthyAt(records[k].fields, "x2"))
    requires Reconcile(records, sqrt, plural).Success?
    ensures Reconcile(SwapAll(records), sqrt, plural) == Reconcile(records, sqrt, plural)
  {
    var swapped := SwapAll(records);
    assert AllObjects(swapped);
    LinesSwapped(records);
    var lines, lines' := Lines(records), Lines(swapped);
    if |lines| > 0 {
      SquaredLengthSwapped(lines, lines');
    }
    SameMeasurements(records, swapped, sqrt, plural);
  }

  /** Reconciliation only looks at the number of records, the number of lines and the
      squared length of the lines. */
  lemma SameMeasurements(a: seq<Json>, b: seq<Json>, sqrt: real -> real, plural: (string, nat) -> string)
    requires AllObjects(a) && AllObjects(b) && |a| == |b|
    requires |Lines(a)| == |Lines(b)|
    requires |Lines(a)| > 0 ==> SquaredLength(Lines(b)) == SquaredLength(Lines(a))
    ensures Reconcile(b, sqrt, plural) == Reconcile(a, sqrt, plural)
  {
  }

  /** A record starting at `x1 == 0` is not a line: the one record drawn from `(0, 0)` to
      `(3, 4)` reconciles to an empty cell, not to a cell of length 5. */
  lemma ZeroStartIsNoLine(sqrt: real -> real, plural: (string, nat) -> string)
    ensures Reconcile([JObj([("x1", JInt(0)), ("y1", JInt(0)), ("x2", JInt(3)), ("y2", JInt(4))])], sqrt, plural)
            == Success(EmptyCell(EmptyNote(1, plural)))
  {
    var r := JObj([("x1", JInt(0)), ("y1", JInt(0)), ("x2", JInt(3)), ("y2", JInt(4))]);
    assert Get(r.fields, "x1") == Some(JInt(0));
    assert !IsLine(r);
  }

  /** The coordinates of a record written out in full. */
  lemma RecordCoordinates(fields: seq<(string, Json)>, x1: int, y1: int, x2: int, y2: int)
    requires fields == [("x1", JInt(x1)), ("y1", JInt(y1)), ("x2", JInt(x2)), ("y2", JInt(y2))]
    ensures Get(fields, "x1") == Some(JInt(x1)) && Get(fields, "y1") == Some(JInt(y1))
    ensures Get(fields, "x2") == Some(JInt(x2)) && Get(fields, "y2") == Some(JInt(y2))
  {
    assert Get(fields, "y1") == Get(fields[1..], "y1");
    assert Get(fields, "x2") == Get(fields[1..], "x2") == Get(fields[2..], "x2");
    assert Get(fields, "y2") == Get(fields[1..], "y2") == Get(fields[2..], "y2") == Get(fields[3..], "y2");
  }

  /** The same line drawn from `(3, 4)` to `(0, 0)` has length 5. */
  lemma ThreeFourFive(records: seq<Json>, sqrt: real -> real, plural: (string, nat) -> string)
    requires records == [JObj([("x1", JInt(3)), ("y1", JInt(4)), ("x2", JInt(0)), ("y2", JInt(0))])]
    requires IsSqrt(sqrt)
    ensures Reconcile(records, sqrt, plural).Success?
    ensures Reconcile(records, sqrt, plural).value.OkCell?
    ensures Reconcile(records, sqrt, plural).value.lengthPixels == 5.0
  {
    ThreeFourFiveSquared(records, sqrt, plural);
    var len := Reconcile(records, sqrt, plural).value.lengthPixels;
    RootSquared(sqrt, 25.0, len);
    RootOf25(len);
  }

  lemma ThreeFourFiveSquared(records: seq<Json>, sqrt: real -> real, plural: (string, nat) -> string)
    requires records == [JObj([("x1", JInt(3)), ("y1", JInt(4)), ("x2", JInt(0)), ("y2", JInt(0))])]
    ensures Reconcile(records, sqrt, plural).Success? && Reconcile(records, sqrt, plural).value.OkCell?
    ensures Reconcile(records, sqrt, plural).value.lengthPixels == sqrt(25.0)
  {
    RecordCoordinates(records[0].fields, 3, 4, 0, 0);
    SingleLine(records, 0, sqrt, plural, 3.0, 4.0, 0.0, 0.0);
    assert SegmentSquared(3.0, 4.0, 0.0, 0.0) == 25.0;
  }

  lemma RootOf25(x: real)
    requires IsRootOf(x, 25.0)
    ensures x == 5.0
  {
    assert (x - 5.0) * (x + 5.0) == 0.0;
    ZeroFactor(x - 5.0, x + 5.0);
  }

  /** The nonlinear step of `RootOf25`: a zero product with a positive factor. */
  lemma ZeroFactor(a: real, b: real)
    requires b > 0.0 && a * b == 0.0
    ensures a == 0.0
  {
  }
}
