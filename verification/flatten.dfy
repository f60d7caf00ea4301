/** The annotation flattener of `pylib/formats/nfn.py`: one nested annotation becomes the
    ordered `add_field` calls of typed, task-qualified fields. */
module Flattener {
  import opened Wrappers
  import opened Strs
  import opened JsonValues
  import opened Fields
  import opened Keys
  import Assoc
  import Resolver

  /** The Python exceptions that abort flattening. */
  datatype FlattenError =
    | NotAMapping                 // `.get` or `[key]` on a list, string, number or null
    | MissingKey(key: string)     // `anno[key]` with the key absent
    | NotText(key: string)        // `.strip()`, `.startswith` or `",".join` on a non-string
    | NotANumber(key: string)     // `round` or `+` on a non-number
    | NotIterable(key: string)    // `for ... in` a null, boolean or number
    | Unsortable                  // `sorted` / `" ".join` of a value list holding a non-string
    | Unhashable                  // a list or dict used as a lookup key

  /** The case patterns of `flatten_annotation`, in order of precedence. */
  datatype Shape =
    | ValueStrings | ValueList | SelectLabel | TaskLabel
    | BoxTool | LengthTool | PointTool | DetailsTool | Unmatched

  function Rank(s: Shape): nat {
    match s
    case ValueStrings => 0
    case ValueList => 1
    case SelectLabel => 2
    case TaskLabel => 3
    case BoxTool => 4
    case LengthTool => 5
    case PointTool => 6
    case DetailsTool => 7
    case Unmatched => 8
  }

  predicate IsList(v: Option<Json>) {
    v.Some? && v.value.JArr?
  }

  /** Each case pattern taken on its own, ignoring the cases before it. */
  predicate Matches(fields: seq<(string, Json)>, s: Shape) {
    match s
    case ValueStrings =>
      var v := Get(fields, "value");
      IsList(v) && |v.value.items| > 0 && v.value.items[0].JStr?
    case ValueList => IsList(Get(fields, "value"))
    case SelectLabel => Has(fields, "select_label")
    case TaskLabel => Has(fields, "task_label")
    case BoxTool => Has(fields, "tool_label") && Has(fields, "width")
    case LengthTool => Has(fields, "tool_label") && Has(fields, "x1")
    case PointTool => Has(fields, "tool_label") && Has(fields, "x")
    case DetailsTool => Has(fields, "tool_label") && Has(fields, "details")
    case Unmatched => true
  }

  /** The `match` statement of `flatten_annotation`. */
  function Classify(fields: seq<(string, Json)>): Shape {
    var v := Get(fields, "value");
    if IsList(v) && |v.value.items| > 0 && v.value.items[0].JStr? then ValueStrings
    else if IsList(v) then ValueList
    else if Has(fields, "select_label") then SelectLabel
    else if Has(fields, "task_label") then TaskLabel
    else if Has(fields, "tool_label") && Has(fields, "width") then BoxTool
    else if Has(fields, "tool_label") && Has(fields, "x1") then LengthTool
    else if Has(fields, "tool_label") && Has(fields, "x") then PointTool
    else if Has(fields, "tool_label") && Has(fields, "details") then DetailsTool
    else Unmatched
  }

  /** The first pattern that matches wins: an annotation has shape `s` exactly when
      pattern `s` matches and no earlier pattern does. */
  lemma ClassifyFirstMatch(fields: seq<(string, Json)>, s: Shape)
    ensures Classify(fields) == s <==> Matches(fields, s) && forall t :: Rank(t) < Rank(s) ==> !Matches(fields, t)
  {
    var c := Classify(fields);
    ClassifyEarliest(fields);
    RankInjective(c, s);
    if Matches(fields, s) && forall t :: Rank(t) < Rank(s) ==> !Matches(fields, t) {
      assert !(Rank(c) < Rank(s));
      assert !(Rank(s) < Rank(c));
    }
  }

  /** The shape found is a pattern that matches, and no earlier pattern does. */
  lemma ClassifyEarliest(fields: seq<(string, Json)>)
    ensures Matches(fields, Classify(fields))
    ensures forall t :: Rank(t) < Rank(Classify(fields)) ==> !Matches(fields, t)
  {
    var c := Classify(fields);
    forall t | Rank(t) < Rank(c) ensures !Matches(fields, t) {
      RankInjective(t, c);
    }
  }

  lemma RankInjective(a: Shape, b: Shape)
    ensures Rank(a) == Rank(b) ==> a == b
  {
  }

  /** `anno.get("task", anno_id)`: a task id may be any JSON value; keys show it with `str()`. */
  function TaskId(fields: seq<(string, Json)>, inherited: Json): Json {
    Get(fields, "task").GetOr(inherited)
  }

  /** `anno[key]` where the value is used as a string. */
  function TextAt(fields: seq<(string, Json)>, key: string): Result<string, FlattenError> {
    match Get(fields, key)
    case None => Failure(MissingKey(key))
    case Some(v) => if v.JStr? then Success(v.s) else Failure(NotText(key))
  }

  /** `anno[key]` where the value takes part in arithmetic. */
  function NumberAt(fields: seq<(string, Json)>, key: string): (r: Result<real, FlattenError>)
    ensures r.Success? <==> Get(fields, key).Some? && AsNumber(Get(fields, key).value).Some?
    ensures r.Success? ==> r.value == AsNumber(Get(fields, key).value).value
    ensures r.Failure? ==> r.error == if Has(fields, key) then NotANumber(key) else MissingKey(key)
  {
    match Get(fields, key)
    case None => Failure(MissingKey(key))
    case Some(v) => if AsNumber(v).Some? then Success(AsNumber(v).value) else Failure(NotANumber(key))
  }

  /** `obj[key]` on any JSON value. */
  function ValueAt(j: Json, key: string): Result<Json, FlattenError> {
    if !j.JObj? then Failure(NotAMapping)
    else match Get(j.fields, key)
      case None => Failure(MissingKey(key))
      case Some(v) => Success(v)
  }

  /** The strings of a list, or None when one of its elements is not a string. */
  function AllStrings(items: seq<Json>): (r: Option<seq<string>>)
    ensures r.Some? <==> forall k :: 0 <= k < |items| ==> items[k].JStr?
    ensures r.Some? ==> |r.value| == |items| && forall k :: 0 <= k < |items| ==> items[k] == JStr(r.value[k])
  {
    if |items| == 0 then Some([])
    else if !items[0].JStr? then None
    else match AllStrings(items[1..])
      case None => None
      case Some(rest) => Some([items[0].s] + rest)
  }

  // ----- Geometry, shared with the generic table reader -----

  /** The box of a geometry object: `round(x)`, `round(x + width)`, `round(y)`,
      `round(y + height)`, evaluated in that order. */
  function BoxGeometry(g: seq<(string, Json)>): (r: Result<Field, FlattenError>)
    ensures r.Success? ==> r.value.Box?
    ensures r.Success? <==> NumberAt(g, "x").Success? && NumberAt(g, "width").Success? &&
                            NumberAt(g, "y").Success? && NumberAt(g, "height").Success?
  {
    var x :- NumberAt(g, "x");
    var width :- NumberAt(g, "width");
    var y :- NumberAt(g, "y");
    var height :- NumberAt(g, "height");
    Success(Box(Round(x), Round(x + width), Round(y), Round(y + height)))
  }

  /** The two rounded end points of a length geometry. */
  function LengthGeometry(g: seq<(string, Json)>): (r: Result<Field, FlattenError>)
    ensures r.Success? ==> r.value.Length?
    ensures r.Success? <==> NumberAt(g, "x1").Success? && NumberAt(g, "y1").Success? &&
                            NumberAt(g, "x2").Success? && NumberAt(g, "y2").Success?
  {
    var x1 :- NumberAt(g, "x1");
    var y1 :- NumberAt(g, "y1");
    var x2 :- NumberAt(g, "x2");
    var y2 :- NumberAt(g, "y2");
    Success(Length(Round(x1), Round(y1), Round(x2), Round(y2)))
  }

  /** The rounded point of a point geometry. */
  function PointGeometry(g: seq<(string, Json)>): (r: Result<Field, FlattenError>)
    ensures r.Success? ==> r.value.Point?
    ensures r.Success? <==> NumberAt(g, "x").Success? && NumberAt(g, "y").Success?
  {
    var x :- NumberAt(g, "x");
    var y :- NumberAt(g, "y");
    Success(Point(Round(x), Round(y)))
  }

  /** A box fails exactly when one of its four numbers is missing or not a number. Its left
      and top edges are `x` and `y` rounded, its right and bottom edges lie `width` and
      `height` beyond them before rounding, so whole-number input keeps the exact extent. */
  lemma BoxSpec(g: seq<(string, Json)>)
    ensures BoxGeometry(g).Success? <==>
              NumberAt(g, "x").Success? && NumberAt(g, "width").Success? &&
              NumberAt(g, "y").Success? && NumberAt(g, "height").Success?
    ensures BoxGeometry(g).Success? ==>
              var b := BoxGeometry(g).value;
              var x, w := NumberAt(g, "x").value, NumberAt(g, "width").value;
              var y, h := NumberAt(g, "y").value, NumberAt(g, "height").value;
              && RoundsTo(x, b.left) && RoundsTo(x + w, b.right)
              && RoundsTo(y, b.top) && RoundsTo(y + h, b.bottom)
              && (IsWhole(x) && IsWhole(w) ==> (b.right - b.left) as real == w)
              && (IsWhole(y) && IsWhole(h) ==> (b.bottom - b.top) as real == h)
  {
    hide Round;
    hide RoundsTo;
    hide BoxGeometry;
    hide NumberAt;
    BoxShape(g);
    if BoxGeometry(g).Success? {
      BoxRounds(NumberAt(g, "x").value, NumberAt(g, "width").value);
      BoxRounds(NumberAt(g, "y").value, NumberAt(g, "height").value);
    }
  }

  /** The four numbers a box is built from. */
  lemma BoxShape(g: seq<(string, Json)>)
    ensures BoxGeometry(g).Success? <==>
              NumberAt(g, "x").Success? && NumberAt(g, "width").Success? &&
              NumberAt(g, "y").Success? && NumberAt(g, "height").Success?
    ensures BoxGeometry(g).Success? ==>
              var x, w := NumberAt(g, "x").value, NumberAt(g, "width").value;
              var y, h := NumberAt(g, "y").value, NumberAt(g, "height").value;
              BoxGeometry(g).value == Box(Round(x), Round(x + w), Round(y), Round(y + h))
  {
    hide Round;
  }

  /** One axis of a box: both edges rounded, and the exact extent kept for whole numbers. */
  lemma BoxRounds(x: real, w: real)
    ensures RoundsTo(x, Round(x)) && RoundsTo(x + w, Round(x + w))
    ensures IsWhole(x) && IsWhole(w) ==> (Round(x + w) - Round(x)) as real == w
  {
    RoundSpec(x);
    RoundSpec(x + w);
    RoundExtent(x, w);
  }

  /** Whole numbers round to themselves, so the rounded extent is the exact one. */
  lemma RoundExtent(x: real, w: real)
    ensures IsWhole(x) && IsWhole(w) ==> (Round(x + w) - Round(x)) as real == w
  {
    if IsWhole(x) && IsWhole(w) {
      var a, b := x.Floor, w.Floor;
      assert x + w == (a + b) as real;
      RoundWhole(a);
      RoundWhole(a + b);
    }
  }

  /** A length fails exactly when one of its four numbers is missing or not a number; each
      end point is the rounded JSON coordinate. */
  lemma LengthSpec(g: seq<(string, Json)>)
    ensures LengthGeometry(g).Success? <==>
              NumberAt(g, "x1").Success? && NumberAt(g, "y1").Success? &&
              NumberAt(g, "x2").Success? && NumberAt(g, "y2").Success?
    ensures LengthGeometry(g).Success? ==>
              var l := LengthGeometry(g).value;
              && RoundsTo(NumberAt(g, "x1").value, l.x1) && RoundsTo(NumberAt(g, "y1").value, l.y1)
              && RoundsTo(NumberAt(g, "x2").value, l.x2) && RoundsTo(NumberAt(g, "y2").value, l.y2)
  {
    if LengthGeometry(g).Success? {
      RoundSpec(NumberAt(g, "x1").value);
      RoundSpec(NumberAt(g, "y1").value);
      RoundSpec(NumberAt(g, "x2").value);
      RoundSpec(NumberAt(g, "y2").value);
    }
  }

  /** A point fails exactly when `x` or `y` is missing or not a number, and is the rounded
      JSON coordinates otherwise. */
  lemma PointSpec(g: seq<(string, Json)>)
    ensures PointGeometry(g).Success? <==> NumberAt(g, "x").Success? && NumberAt(g, "y").Success?
    ensures PointGeometry(g).Success? ==>
              var p := PointGeometry(g).value;
              RoundsTo(NumberAt(g, "x").value, p.x) && RoundsTo(NumberAt(g, "y").value, p.y)
  {
    if PointGeometry(g).Success? {
      RoundSpec(NumberAt(g, "x").value);
      RoundSpec(NumberAt(g, "y").value);
    }
  }

  // ----- The annotation handlers -----

  /** `list_annotation`: a list of strings, sorted and joined with spaces, under `task_label`. */
  function ListAnnotation(fields: seq<(string, Json)>, annoId: Json, show: Json -> string)
    : (r: Result<seq<Emission>, FlattenError>)
    requires IsList(Get(fields, "value"))
    ensures r.Success? <==> AllStrings(Get(fields, "value").value.items).Some? && TextAt(fields, "task_label").Success?
    ensures r.Failure? && AllStrings(Get(fields, "value").value.items).None? ==> r.error == Unsortable
    ensures r.Success? ==> TextAt(fields, "task_label").Success? && |r.value| == 1 &&
                           r.value[0].key == GetKey(TextAt(fields, "task_label").value, show(annoId))
  {
    match AllStrings(Get(fields, "value").value.items)
    case None => Failure(Unsortable)
    case Some(strs) =>
      var name :- TextAt(fields, "task_label");
      Success([Emission(GetKey(name, show(annoId)), Text(JStr(Join(SortStrings(strs), " "))))])
  }

  /** `select_label_annotation`: the label when `option` is truthy, else the value. */
  function SelectLabelAnnotation(fields: seq<(string, Json)>, annoId: Json, show: Json -> string)
    : (r: Result<seq<Emission>, FlattenError>)
    ensures r.Success? <==> TextAt(fields, "select_label").Success?
    ensures r.Success? ==> TextAt(fields, "select_label").Success? && |r.value| == 1 &&
                           r.value[0].key == GetKey(TextAt(fields, "select_label").value, show(annoId))
  {
    var name :- TextAt(fields, "select_label");
    var option := Get(fields, "option");
    var value := if option.Some? && Truthy(option.value) then Get(fields, "label").GetOr(JStr(""))
                 else Get(fields, "value").GetOr(JStr(""));
    Success([Emission(GetKey(name, show(annoId)), Select(value))])
  }

  /** `task_label_annotation`. */
  function TaskLabelAnnotation(fields: seq<(string, Json)>, annoId: Json, show: Json -> string)
    : (r: Result<seq<Emission>, FlattenError>)
    ensures r.Success? <==> TextAt(fields, "task_label").Success?
    ensures r.Success? ==> TextAt(fields, "task_label").Success? && |r.value| == 1 &&
                           r.value[0].key == GetKey(TextAt(fields, "task_label").value, show(annoId))
  {
    var name :- TextAt(fields, "task_label");
    Success([Emission(GetKey(name, show(annoId)), Text(Get(fields, "value").GetOr(JStr(""))))])
  }

  /** A tool annotation: the key from `tool_label` is built first, then the geometry. */
  function ToolAnnotation(fields: seq<(string, Json)>, annoId: Json, show: Json -> string,
                          geometry: Result<Field, FlattenError>)
    : (r: Result<seq<Emission>, FlattenError>)
    ensures r.Success? <==> TextAt(fields, "tool_label").Success? && geometry.Success?
    ensures r.Success? ==> r.value == [Emission(GetKey(TextAt(fields, "tool_label").value, show(annoId)), geometry.value)]
  {
    var name :- TextAt(fields, "tool_label");
    var field :- geometry;
    Success([Emission(GetKey(name, show(annoId)), field)])
  }

  /** The label list of `workflow_annotation`: the last `label_strings` entry whose path
      starts with the task id and ends with `details`, or none. Comparing a path with a task
      id that is not a string raises, once there is a path to compare. */
  function DetailLabels(labelStrings: seq<(string, seq<string>)>, annoId: Json): (r: Result<seq<string>, FlattenError>)
    ensures r.Failure? <==> |labelStrings| > 0 && !annoId.JStr?
  {
    if |labelStrings| == 0 then Success([])
    else if !annoId.JStr? then Failure(NotText("task"))
    else
      match Assoc.LastWhere(labelStrings, path => StartsWith(path, annoId.s) && EndsWith(path, "details"))
      case None => Success([])
      case Some(i) => Success(labelStrings[i].1)
  }

  // ----- The detail loop -----

  /** One answer of a multi-select detail: the value it shows and the label it leaves in the
      loop's `label` variable. */
  function ItemEntry(item: Json, vs: Resolver.ValueStrings): (r: Result<(Json, Json), FlattenError>)
    ensures r.Success? <==> item.JObj? && Has(item.fields, "value") && Hashable(Get(item.fields, "value").value)
    ensures r.Success? ==>
              var code := Get(item.fields, "value").value;
              match Assoc.Lookup(vs, KeyOf(code))
              case Some(d) => r.value == (JStr(d.0), JStr(d.1))
              case None => r.value == (code, Get(item.fields, "label").GetOr(JStr("unknown")))
  {
    var code :- ValueAt(item, "value");
    if !Hashable(code) then Failure(Unhashable)
    else match Assoc.Lookup(vs, KeyOf(code))
      case Some(d) => Success((JStr(d.0), JStr(d.1)))
      case None => Success((code, Get(item.fields, "label").GetOr(JStr("unknown"))))
  }

  /** The item loop of a multi-select detail: the shown values in order, and the label the
      last answer leaves behind (`prev` itself when there are no answers). */
  function DecodeItems(items: seq<Json>, vs: Resolver.ValueStrings, prev: Json)
    : (r: Result<(seq<Json>, Json), FlattenError>)
    ensures r.Success? <==> forall k :: 0 <= k < |items| ==> ItemEntry(items[k], vs).Success?
    ensures r.Success? ==> |r.value.0| == |items|
    ensures r.Success? ==> forall k :: 0 <= k < |items| ==> r.value.0[k] == ItemEntry(items[k], vs).value.0
    ensures r.Success? ==> r.value.1 == if |items| == 0 then prev else ItemEntry(items[|items| - 1], vs).value.1
  {
    if |items| == 0 then Success(([], prev))
    else
      var entry := ItemEntry(items[0], vs);
      if entry.Failure? then
        Failure(entry.error)
      else
        var rest := DecodeItems(items[1..], vs, entry.value.1);
        if rest.Failure? then
          Failure(rest.error)
        else
          Success(([entry.value.0] + rest.value.0, rest.value.1))
  }

  /** Reference: the answers a multi-select shows, the texts of its truthy values in order. */
  function Answers(values: seq<Json>): (r: seq<string>)
    ensures forall k :: 0 <= k < |r| ==> JStr(r[k]) in values && |r[k]| > 0
  {
    if |values| == 0 then []
    else (if Truthy(values[0]) && values[0].JStr? then [values[0].s] else []) + Answers(values[1..])
  }

  /** `",".join(v for v in values if v)`: it fails on a truthy value that is not a string,
      and otherwise joins the answers with commas. */
  function JoinTruthy(values: seq<Json>): (r: Result<string, FlattenError>)
    ensures r.Success? <==> forall k :: 0 <= k < |values| && Truthy(values[k]) ==> values[k].JStr?
    ensures r.Success? ==> r.value == Join(Answers(values), ",")
  {
    match AllStrings(TruthyOnly(values))
    case None => Failure(NotText("value"))
    case Some(strs) =>
      TruthyStrings(values);
      Success(Join(strs, ","))
  }

  function TruthyOnly(values: seq<Json>): (r: seq<Json>)
    ensures forall k :: 0 <= k < |r| ==> Truthy(r[k]) && r[k] in values
    ensures forall k :: 0 <= k < |values| && Truthy(values[k]) ==> values[k] in r
  {
    if |values| == 0 then []
    else (if Truthy(values[0]) then [values[0]] else []) + TruthyOnly(values[1..])
  }

  /** The strings of the truthy values are the answers. */
  lemma {:induction false} TruthyStrings(values: seq<Json>)
    requires AllStrings(TruthyOnly(values)).Some?
    ensures AllStrings(TruthyOnly(values)).value == Answers(values)
    decreases |values|
  {
    if |values| > 0 {
      var rest := TruthyOnly(values[1..]);
      if Truthy(values[0]) {
        assert TruthyOnly(values) == [values[0]] + rest;
        AllStringsCons(values[0], rest);
      } else {
        assert TruthyOnly(values) == rest;
      }
      TruthyStrings(values[1..]);
    }
  }

  lemma AllStringsCons(head: Json, rest: seq<Json>)
    requires AllStrings([head] + rest).Some?
    ensures head.JStr? && AllStrings(rest).Some?
    ensures AllStrings([head] + rest).value == [head.s] + AllStrings(rest).value
  {
    assert ([head] + rest)[1..] == rest;
  }

  /** Splitting the joined text on commas gives the answers back, when there is at least one
      answer and none holds a comma; there are no answers exactly when the text is empty. */
  lemma JoinTruthySplit(values: seq<Json>)
    requires JoinTruthy(values).Success?
    requires forall k :: 0 <= k < |values| && values[k].JStr? ==> ',' !in values[k].s
    ensures JoinTruthy(values).value == "" <==> |Answers(values)| == 0
    ensures |Answers(values)| > 0 ==> Split(JoinTruthy(values).value, ',') == Answers(values)
  {
    var answers := Answers(values);
    forall k | 0 <= k < |answers| ensures ',' !in answers[k] {
      var i :| 0 <= i < |values| && values[i] == JStr(answers[k]);
    }
    if |answers| > 0 {
      SplitJoin(answers, ',');
      JoinNonEmpty(answers, ",");
    }
  }

  lemma {:induction false} JoinNonEmpty(xs: seq<string>, sep: string)
    requires |xs| > 0 && |xs[0]| > 0
    ensures |Join(xs, sep)| > 0
  {
  }

  /** The key of a detail: `get_key(f"{tool_label}.{label}".strip(), anno_id)`. */
  function DetailKey(tool: Json, text: string, annoId: Json, show: Json -> string): (r: string)
    ensures StartsWith(r, "~" + show(annoId) + "~ ")
  {
    GetKey(Strip(show(tool) + "." + text), show(annoId))
  }

  /** The label of detail `i`: `labels[i]`, or `unknown` past the end of the list. */
  function DetailName(labels: seq<string>, i: nat): string {
    if i < |labels| then labels[i] else "unknown"
  }

  /** One pass of the detail loop, entered with the loop's `label` variable. A list value is
      decoded through the value strings and keyed by the label its last answer leaves; any
      other value is kept under `name`, the detail's own label. */
  function DetailEmission(detail: Json, name: string, tool: Json, annoId: Json, vs: Resolver.ValueStrings,
                          held: Json, show: Json -> string)
    : (r: Result<Emission, FlattenError>)
  {
    var outer :- ValueAt(detail, "value");
    if outer.JArr? then
      var decoded :- DecodeItems(outer.items, vs, held);
      var joined :- JoinTruthy(decoded.0);
      Success(Emission(DetailKey(tool, show(decoded.1), annoId, show), Text(JStr(joined))))
    else
      Success(Emission(DetailKey(tool, name, annoId, show), Text(outer)))
  }

  /** The label the detail loop starts with. */
  const Unknown: Json := JStr("unknown")

  /** The detail loop of `workflow_annotation` from detail `i` on, entered with the loop's
      `label` variable holding `held`: one text field per detail, each under the task id.
      After each detail, `label` holds that detail's key. */
  function DetailsFrom(details: seq<Json>, i: nat, held: Json, labels: seq<string>, tool: Json, annoId: Json,
                       vs: Resolver.ValueStrings, show: Json -> string)
    : (r: Result<seq<Emission>, FlattenError>)
    requires i <= |details|
    ensures r.Success? ==> |r.value| == |details| - i
    decreases |details| - i
  {
    if i == |details| then Success([])
    else
      var e :- DetailEmission(details[i], DetailName(labels, i), tool, annoId, vs, held, show);
      var rest :- DetailsFrom(details, i + 1, JStr(e.key), labels, tool, annoId, vs, show);
      Success([e] + rest)
  }

  /** The whole detail loop. */
  function DecodeDetails(details: seq<Json>, labels: seq<string>, tool: Json, annoId: Json,
                         vs: Resolver.ValueStrings, show: Json -> string)
    : Result<seq<Emission>, FlattenError>
  {
    DetailsFrom(details, 0, Unknown, labels, tool, annoId, vs, show)
  }

  /** Output `k` of a loop that succeeds is detail `k` emitted with the label held there: the
      label the loop was entered with at its first detail, and the previous detail's key
      after it. */
  lemma {:induction false} DetailsFromAt(details: seq<Json>, i: nat, held: Json, labels: seq<string>, tool: Json,
                                         annoId: Json, vs: Resolver.ValueStrings, show: Json -> string, k: nat)
    requires i <= k < |details|
    requires DetailsFrom(details, i, held, labels, tool, annoId, vs, show).Success?
    ensures var out := DetailsFrom(details, i, held, labels, tool, annoId, vs, show).value;
            var h := if k == i then held else JStr(out[k - i - 1].key);
            && DetailEmission(details[k], DetailName(labels, k), tool, annoId, vs, h, show).Success?
            && out[k - i] == DetailEmission(details[k], DetailName(labels, k), tool, annoId, vs, h, show).value
    decreases k - i
  {
    hide DetailEmission;
    var e := DetailEmission(details[i], DetailName(labels, i), tool, annoId, vs, held, show).value;
    var out := DetailsFrom(details, i, held, labels, tool, annoId, vs, show).value;
    var rest := DetailsFrom(details, i + 1, JStr(e.key), labels, tool, annoId, vs, show).value;
    assert out == [e] + rest;
    if k > i {
      DetailsFromAt(details, i + 1, JStr(e.key), labels, tool, annoId, vs, show, k);
      assert out[k - i] == rest[k - i - 1];
      assert out[k - i - 1] == if k == i + 1 then e else rest[k - i - 2];
    }
  }

  /** A detail that emits a field makes it text filed under the task id. */
  lemma EmissionKeyed(detail: Json, name: string, tool: Json, annoId: Json, vs: Resolver.ValueStrings,
                      held: Json, show: Json -> string)
    requires DetailEmission(detail, name, tool, annoId, vs, held, show).Success?
    ensures var e := DetailEmission(detail, name, tool, annoId, vs, held, show).value;
            e.field.Text? && StartsWith(e.key, "~" + show(annoId) + "~ ")
  {
  }

  /** Every field the detail loop emits is text filed under the task id. */
  lemma DetailsKeyed(details: seq<Json>, i: nat, held: Json, labels: seq<string>, tool: Json,
                     annoId: Json, vs: Resolver.ValueStrings, show: Json -> string)
    requires i <= |details|
    requires DetailsFrom(details, i, held, labels, tool, annoId, vs, show).Success?
    ensures var out := DetailsFrom(details, i, held, labels, tool, annoId, vs, show).value;
            KeysUnder(out, annoId, show) && forall k :: 0 <= k < |out| ==> out[k].field.Text?
  {
    hide DetailsFrom;
    hide DetailEmission;
    var out := DetailsFrom(details, i, held, labels, tool, annoId, vs, show).value;
    forall k | 0 <= k < |out|
      ensures out[k].field.Text? && StartsWith(out[k].key, "~" + show(annoId) + "~ ")
    {
      DetailKeyedAt(details, i, held, labels, tool, annoId, vs, show, i + k);
    }
  }

  lemma DetailKeyedAt(details: seq<Json>, i: nat, held: Json, labels: seq<string>, tool: Json,
                      annoId: Json, vs: Resolver.ValueStrings, show: Json -> string, k: nat)
    requires i <= k < |details|
    requires DetailsFrom(details, i, held, labels, tool, annoId, vs, show).Success?
    ensures var out := DetailsFrom(details, i, held, labels, tool, annoId, vs, show).value;
            out[k - i].field.Text? && StartsWith(out[k - i].key, "~" + show(annoId) + "~ ")
  {
    hide DetailsFrom;
    hide DetailEmission;
    DetailsFromAt(details, i, held, labels, tool, annoId, vs, show, k);
    var out := DetailsFrom(details, i, held, labels, tool, annoId, vs, show).value;
    var h := if k == i then held else JStr(out[k - i - 1].key);
    EmissionKeyed(details[k], DetailName(labels, k), tool, annoId, vs, h, show);
  }

  /** Output `i` of the detail loop is detail `i` emitted with the label the loop holds there:
      `unknown` at the first detail and the previous detail's key after it. */
  lemma DetailAt(details: seq<Json>, labels: seq<string>, tool: Json, annoId: Json,
                 vs: Resolver.ValueStrings, show: Json -> string, i: nat)
    requires i < |details|
    requires DecodeDetails(details, labels, tool, annoId, vs, show).Success?
    ensures var out := DecodeDetails(details, labels, tool, annoId, vs, show).value;
            var held := if i == 0 then Unknown else JStr(out[i - 1].key);
            && DetailEmission(details[i], DetailName(labels, i), tool, annoId, vs, held, show).Success?
            && out[i] == DetailEmission(details[i], DetailName(labels, i), tool, annoId, vs, held, show).value
  {
    hide DetailsFrom;
    hide DetailEmission;
    DetailsFromAt(details, 0, Unknown, labels, tool, annoId, vs, show, i);
  }

  /** A detail whose value is present and not a list. */
  predicate IsScalarDetail(detail: Json) {
    detail.JObj? && Has(detail.fields, "value") && !Get(detail.fields, "value").value.JArr?
  }

  /** A single-value detail is filed under the tool label joined to the detail's own label
      (`unknown` past the end of the label list) and shows its value unchanged, whatever the
      details before it were. */
  lemma DetailScalar(details: seq<Json>, labels: seq<string>, tool: Json, annoId: Json,
                     vs: Resolver.ValueStrings, show: Json -> string, i: nat)
    requires i < |details| && IsScalarDetail(details[i])
    requires DecodeDetails(details, labels, tool, annoId, vs, show).Success?
    ensures DecodeDetails(details, labels, tool, annoId, vs, show).value[i] ==
              Emission(GetKey(Strip(show(tool) + "." + DetailName(labels, i)), show(annoId)),
                       Text(Get(details[i].fields, "value").value))
  {
    DetailAt(details, labels, tool, annoId, vs, show, i);
  }

  /** A multi-select detail shows the answers of its items joined with commas, and is filed
      under the tool label joined to the label its last item leaves (the loop's label when it
      has no items). An item shows the decoded string of a code found in the value strings,
      labelled by the instruction it falls under; any other code shows itself, labelled by
      the item's own label or `unknown`. */
  lemma MultiSelectSpec(detail: Json, name: string, tool: Json, annoId: Json, vs: Resolver.ValueStrings,
                        held: Json, show: Json -> string, items: seq<Json>)
    requires detail.JObj? && Get(detail.fields, "value") == Some(JArr(items))
    requires DetailEmission(detail, name, tool, annoId, vs, held, show).Success?
    ensures forall k :: 0 <= k < |items| ==> ItemEntry(items[k], vs).Success?
    ensures var shown := DecodeItems(items, vs, held).value.0;
            var last := if |items| == 0 then held else ItemEntry(items[|items| - 1], vs).value.1;
            DetailEmission(detail, name, tool, annoId, vs, held, show).value ==
              Emission(DetailKey(tool, show(last), annoId, show), Text(JStr(Join(Answers(shown), ","))))
  {
  }

  // ----- Dispatch -----

  /** `workflow_annotation`. */
  function WorkflowAnnotation(fields: seq<(string, Json)>, ws: Resolver.WorkflowStrings, annoId: Json,
                              show: Json -> string)
    : (r: Result<seq<Emission>, FlattenError>)
    requires Has(fields, "tool_label") && Has(fields, "details")
    ensures r.Success? ==> KeysUnder(r.value, annoId, show)
  {
    var labels :- DetailLabels(ws.labelStrings, annoId);
    var details := Get(fields, "details").value;
    var items :- if Iterate(details).Some? then Success(Iterate(details).value) else Failure(NotIterable("details"));
    var tool := Get(fields, "tool_label").value;
    var out := DecodeDetails(items, labels, tool, annoId, ws.valueStrings, show);
    if out.Success? then
      DetailsKeyed(items, 0, Unknown, labels, tool, annoId, ws.valueStrings, show);
      out
    else out
  }

  /** `flatten_annotation`: the task id is the annotation's own `task` or the inherited one. */
  function Flatten(anno: Json, ws: Resolver.WorkflowStrings, annoId: Json, show: Json -> string)
    : (r: Result<seq<Emission>, FlattenError>)
    ensures !anno.JObj? ==> r == Failure(NotAMapping)
    ensures r.Success? ==> Qualified(r.value)
    decreases anno, 1
  {
    if !anno.JObj? then Failure(NotAMapping)
    else Dispatch(anno, ws, TaskId(anno.fields, annoId), show)
  }

  /** The `match` of `flatten_annotation`, once the task id is known. */
  function Dispatch(anno: Json, ws: Resolver.WorkflowStrings, id: Json, show: Json -> string)
    : (r: Result<seq<Emission>, FlattenError>)
    requires anno.JObj?
    ensures Classify(anno.fields) == Unmatched ==> r == Success([])
    ensures r.Success? ==> Qualified(r.value)
    decreases anno, 0
  {
    var fields := anno.fields;
    match Classify(fields)
    case ValueStrings => ListAnnotation(fields, id, show)
    case ValueList =>
      var i := Assoc.Find(fields, "value").value;
      FlattenEach(fields[i].1.items, ws, id, show)
    case SelectLabel => SelectLabelAnnotation(fields, id, show)
    case TaskLabel => TaskLabelAnnotation(fields, id, show)
    case BoxTool => ToolAnnotation(fields, id, show, BoxGeometry(fields))
    case LengthTool => ToolAnnotation(fields, id, show, LengthGeometry(fields))
    case PointTool => ToolAnnotation(fields, id, show, PointGeometry(fields))
    case DetailsTool =>
      var out := WorkflowAnnotation(fields, ws, id, show);
      if out.Success? then KeysUnderQualified(out.value, id, show); out else out
    case Unmatched => Success([])
  }

  /** `subtask_annotation`: each element in order, with the given task id inherited. */
  function FlattenEach(items: seq<Json>, ws: Resolver.WorkflowStrings, annoId: Json, show: Json -> string)
    : (r: Result<seq<Emission>, FlattenError>)
    ensures r.Success? ==> Qualified(r.value)
    decreases items
  {
    if |items| == 0 then Success([])
    else
      var first :- Flatten(items[0], ws, annoId, show);
      var rest :- FlattenEach(items[1..], ws, annoId, show);
      QualifiedAppend(first, rest);
      Success(first + rest)
  }

  /** `extract_annotations`: every top-level annotation, with the empty string as the
      inherited task id. */
  function FlattenAll(annotations: Json, ws: Resolver.WorkflowStrings, show: Json -> string)
    : (r: Result<seq<Emission>, FlattenError>)
    ensures Iterate(annotations).None? ==> r == Failure(NotIterable("annotations"))
    ensures r.Success? <==> (Iterate(annotations).Some? &&
              forall k :: 0 <= k < |Iterate(annotations).value| ==>
                Flatten(Iterate(annotations).value[k], ws, JStr(""), show).Success?)
    ensures r.Success? ==> Qualified(r.value)
  {
    match Iterate(annotations)
    case None => Failure(NotIterable("annotations"))
    case Some(items) =>
      FlattenEachSuccess(items, ws, JStr(""), show);
      FlattenEach(items, ws, JStr(""), show)
  }

  /** Every field key is task-qualified: it opens with `~`, as `get_key` builds it. */
  predicate Qualified(es: seq<Emission>) {
    forall k :: 0 <= k < |es| ==> StartsWith(es[k].key, "~")
  }

  lemma QualifiedAppend(a: seq<Emission>, b: seq<Emission>)
    requires Qualified(a) && Qualified(b)
    ensures Qualified(a + b)
  {
    forall k | 0 <= k < |a + b| ensures StartsWith((a + b)[k].key, "~") {
      if k >= |a| { assert (a + b)[k] == b[k - |a|]; }
    }
  }

  // ----- Properties -----

  /** Flattening a list of annotations fails exactly when one of them fails, and otherwise
      concatenates their fields in order. */
  lemma {:induction false} FlattenEachAppend(a: seq<Json>, b: seq<Json>, ws: Resolver.WorkflowStrings, id: Json,
                                             show: Json -> string)
    ensures FlattenEach(a + b, ws, id, show).Success? <==>
              FlattenEach(a, ws, id, show).Success? && FlattenEach(b, ws, id, show).Success?
    ensures FlattenEach(a + b, ws, id, show).Success? ==>
              FlattenEach(a + b, ws, id, show).value == FlattenEach(a, ws, id, show).value + FlattenEach(b, ws, id, show).value
    decreases |a|
  {
    hide Flatten;
    if |a| == 0 {
      assert a + b == b;
    } else {
      assert (a + b)[0] == a[0];
      assert (a + b)[1..] == a[1..] + b;
      FlattenEachAppend(a[1..], b, ws, id, show);
    }
  }

  /** The subtasks of a list all flatten, or the list fails. */
  lemma {:induction false} FlattenEachSuccess(items: seq<Json>, ws: Resolver.WorkflowStrings, id: Json, show: Json -> string)
    ensures FlattenEach(items, ws, id, show).Success? <==> forall k :: 0 <= k < |items| ==> Flatten(items[k], ws, id, show).Success?
    decreases |items|
  {
    hide Flatten;
    if |items| > 0 {
      FlattenEachSuccess(items[1..], ws, id, show);
      assert forall k :: 1 <= k < |items| ==> items[k] == items[1..][k - 1];
    }
  }

  /** An annotation that names its own task ignores the task id it would inherit. */
  lemma TaskOverride(anno: Json, ws: Resolver.WorkflowStrings, inherited: Json, t: Json, show: Json -> string)
    requires anno.JObj? && Get(anno.fields, "task") == Some(t)
    ensures Flatten(anno, ws, inherited, show) == Flatten(anno, ws, t, show)
  {
  }

  /** An annotation none of whose nested subtasks names a task. */
  predicate InheritsTask(anno: Json)
    decreases anno
  {
    anno.JObj? && !Has(anno.fields, "task") &&
    (Classify(anno.fields) == ValueList ==>
       var i := Assoc.Find(anno.fields, "value").value;
       forall k :: 0 <= k < |anno.fields[i].1.items| ==> InheritsTask(anno.fields[i].1.items[k]))
  }

  /** Every field key belongs to task `id`, shown as `str()` shows it. */
  predicate KeysUnder(es: seq<Emission>, id: Json, show: Json -> string) {
    forall k :: 0 <= k < |es| ==> StartsWith(es[k].key, "~" + show(id) + "~ ")
  }

  /** Without task ids of their own, nested annotations file every field under the
      inherited task. */
  lemma {:induction false} InheritedKeys(anno: Json, ws: Resolver.WorkflowStrings, id: Json, show: Json -> string)
    requires InheritsTask(anno) && Flatten(anno, ws, id, show).Success?
    ensures KeysUnder(Flatten(anno, ws, id, show).value, id, show)
    decreases anno, 1
  {
    var f := anno.fields;
    assert TaskId(f, id) == id;
    assert Flatten(anno, ws, id, show) == Dispatch(anno, ws, id, show);
    if Classify(f) == ValueList {
      var i := Assoc.Find(f, "value").value;
      InheritedKeysEach(f[i].1.items, ws, id, show);
    } else {
      LeafKeys(anno, ws, id, show);
    }
  }

  lemma LeafKeys(anno: Json, ws: Resolver.WorkflowStrings, id: Json, show: Json -> string)
    requires anno.JObj? && Classify(anno.fields) != ValueList && Dispatch(anno, ws, id, show).Success?
    ensures KeysUnder(Dispatch(anno, ws, id, show).value, id, show)
  {
    var f := anno.fields;
    var es := Dispatch(anno, ws, id, show).value;
    match Classify(f) {
      case ValueStrings => SingleKeyUnder(es, TextAt(f, "task_label").value, id, show);
      case SelectLabel => SingleKeyUnder(es, TextAt(f, "select_label").value, id, show);
      case TaskLabel => SingleKeyUnder(es, TextAt(f, "task_label").value, id, show);
      case BoxTool => SingleKeyUnder(es, TextAt(f, "tool_label").value, id, show);
      case LengthTool => SingleKeyUnder(es, TextAt(f, "tool_label").value, id, show);
      case PointTool => SingleKeyUnder(es, TextAt(f, "tool_label").value, id, show);
      case DetailsTool =>
      case Unmatched =>
    }
  }

  lemma KeysUnderQualified(es: seq<Emission>, id: Json, show: Json -> string)
    requires KeysUnder(es, id, show)
    ensures Qualified(es)
  {
    forall k | 0 <= k < |es| ensures StartsWith(es[k].key, "~") {
      assert es[k].key[..|"~" + show(id) + "~ "|] == "~" + show(id) + "~ ";
      assert es[k].key[..1] == "~";
    }
  }

  lemma SingleKeyUnder(es: seq<Emission>, text: string, id: Json, show: Json -> string)
    requires |es| == 1 && es[0].key == GetKey(text, show(id))
    ensures KeysUnder(es, id, show)
  {
  }

  lemma {:induction false} InheritedKeysEach(items: seq<Json>, ws: Resolver.WorkflowStrings, id: Json, show: Json -> string)
    requires forall k :: 0 <= k < |items| ==> InheritsTask(items[k])
    requires FlattenEach(items, ws, id, show).Success?
    ensures KeysUnder(FlattenEach(items, ws, id, show).value, id, show)
    decreases items, 0
  {
    if |items| > 0 {
      InheritedKeys(items[0], ws, id, show);
      InheritedKeysEach(items[1..], ws, id, show);
    }
  }

  /** A list of strings becomes one text field under its task label. When no string holds a
      space, splitting the text on spaces gives the strings back, sorted. It fails exactly when
      an element is not a string or the task label is missing or not text. */
  lemma ListSpec(fields: seq<(string, Json)>, id: Json, show: Json -> string)
    requires IsList(Get(fields, "value")) && |Get(fields, "value").value.items| > 0
    ensures var items := Get(fields, "value").value.items;
      ListAnnotation(fields, id, show).Success? <==>
        (forall k :: 0 <= k < |items| ==> items[k].JStr?) && TextAt(fields, "task_label").Success?
    ensures var items := Get(fields, "value").value.items; var r := ListAnnotation(fields, id, show);
      r.Success? ==>
        |r.value| == 1 && r.value[0].key == GetKey(TextAt(fields, "task_label").value, show(id)) &&
        r.value[0].field.Text? && r.value[0].field.value.JStr? &&
        ((forall k :: 0 <= k < |items| ==> ' ' !in items[k].s) ==>
           var parts := Split(r.value[0].field.value.s, ' ');
           multiset(parts) == multiset(AllStrings(items).value) &&
           forall i, j :: 0 <= i < j < |parts| ==> LessEq(parts[i], parts[j]))
  {
    var items := Get(fields, "value").value.items;
    var r := ListAnnotation(fields, id, show);
    if r.Success? {
      var strs := AllStrings(items).value;
      var sorted := SortStrings(strs);
      assert r.value[0].field == Text(JStr(Join(sorted, " ")));
      if forall k :: 0 <= k < |items| ==> ' ' !in items[k].s {
        forall k | 0 <= k < |sorted| ensures ' ' !in sorted[k] {
          assert sorted[k] in multiset(strs);
          var m :| 0 <= m < |strs| && strs[m] == sorted[k];
          assert items[m] == JStr(strs[m]);
        }
        assert |sorted| >= 1 by {
          assert |multiset(sorted)| == |multiset(strs)| == |strs| == |items|;
        }
        SplitJoin(sorted, ' ');
      }
    }
  }

  /** An annotation with a `select_label` and no list value flattens to one select field
      under its select label and its own task id (or the inherited one), holding its label
      when its option is set and its value otherwise, empty when absent. It fails exactly
      when the select label is missing or not text. */
  lemma SelectSpec(anno: Json, ws: Resolver.WorkflowStrings, inherited: Json, show: Json -> string)
    requires anno.JObj? && !IsList(Get(anno.fields, "value")) && Has(anno.fields, "select_label")
    ensures Flatten(anno, ws, inherited, show).Success? <==> TextAt(anno.fields, "select_label").Success?
    ensures var f := anno.fields; var r := Flatten(anno, ws, inherited, show); var option := Get(f, "option");
      r.Success? ==>
        && |r.value| == 1
        && r.value[0].key == GetKey(TextAt(f, "select_label").value, show(Get(f, "task").GetOr(inherited)))
        && r.value[0].field.Select?
        && (option.Some? && Truthy(option.value) ==> r.value[0].field.value == Get(f, "label").GetOr(JStr("")))
        && (!(option.Some? && Truthy(option.value)) ==> r.value[0].field.value == Get(f, "value").GetOr(JStr("")))
  {
    assert Classify(anno.fields) == SelectLabel;
  }

  /** An annotation with a `task_label`, no list value and no `select_label` flattens to one
      text field under its task label holding its value, empty when absent. */
  lemma TaskLabelSpec(anno: Json, ws: Resolver.WorkflowStrings, inherited: Json, show: Json -> string)
    requires anno.JObj? && !IsList(Get(anno.fields, "value"))
    requires !Has(anno.fields, "select_label") && Has(anno.fields, "task_label")
    ensures Flatten(anno, ws, inherited, show).Success? <==> TextAt(anno.fields, "task_label").Success?
    ensures var f := anno.fields; var r := Flatten(anno, ws, inherited, show);
      r.Success? ==>
        r.value == [Emission(GetKey(TextAt(f, "task_label").value, show(Get(f, "task").GetOr(inherited))),
                             Text(Get(f, "value").GetOr(JStr(""))))]
  {
    assert Classify(anno.fields) == TaskLabel;
  }

  /** A tool annotation with a `width` (and none of the earlier patterns) flattens to the box
      of its geometry under its tool label. */
  lemma BoxAnnotationSpec(anno: Json, ws: Resolver.WorkflowStrings, inherited: Json, show: Json -> string)
    requires anno.JObj? && Classify(anno.fields) == BoxTool
    ensures Flatten(anno, ws, inherited, show).Success? <==>
              TextAt(anno.fields, "tool_label").Success? && BoxGeometry(anno.fields).Success?
    ensures Flatten(anno, ws, inherited, show).Success? ==>
              Flatten(anno, ws, inherited, show).value ==
                [Emission(GetKey(TextAt(anno.fields, "tool_label").value, show(TaskId(anno.fields, inherited))),
                          BoxGeometry(anno.fields).value)]
  {
  }

  /** A tool annotation with an `x1` (and none of the earlier patterns) flattens to the
      rounded end points of its geometry under its tool label. */
  lemma LengthAnnotationSpec(anno: Json, ws: Resolver.WorkflowStrings, inherited: Json, show: Json -> string)
    requires anno.JObj? && Classify(anno.fields) == LengthTool
    ensures Flatten(anno, ws, inherited, show).Success? <==>
              TextAt(anno.fields, "tool_label").Success? && LengthGeometry(anno.fields).Success?
    ensures Flatten(anno, ws, inherited, show).Success? ==>
              Flatten(anno, ws, inherited, show).value ==
                [Emission(GetKey(TextAt(anno.fields, "tool_label").value, show(TaskId(anno.fields, inherited))),
                          LengthGeometry(anno.fields).value)]
  {
  }

  /** A tool annotation with an `x` (and none of the earlier patterns) flattens to the
      rounded point of its geometry under its tool label. */
  lemma PointAnnotationSpec(anno: Json, ws: Resolver.WorkflowStrings, inherited: Json, show: Json -> string)
    requires anno.JObj? && Classify(anno.fields) == PointTool
    ensures Flatten(anno, ws, inherited, show).Success? <==>
              TextAt(anno.fields, "tool_label").Success? && PointGeometry(anno.fields).Success?
    ensures Flatten(anno, ws, inherited, show).Success? ==>
              Flatten(anno, ws, inherited, show).value ==
                [Emission(GetKey(TextAt(anno.fields, "tool_label").value, show(TaskId(anno.fields, inherited))),
                          PointGeometry(anno.fields).value)]
  {
  }

  /** The member a leaf annotation takes its field label from. */
  function LabelMember(s: Shape): string {
    match s
    case SelectLabel => "select_label"
    case TaskLabel => "task_label"
    case _ => "tool_label"
  }

  /** A leaf annotation flattens to a single field, filed under its task id and the label
      its label member names. */
  lemma LeafKey(anno: Json, ws: Resolver.WorkflowStrings, inherited: Json, show: Json -> string)
    requires anno.JObj? && Classify(anno.fields) in {SelectLabel, TaskLabel, BoxTool, LengthTool, PointTool}
    requires Flatten(anno, ws, inherited, show).Success?
    ensures TextAt(anno.fields, LabelMember(Classify(anno.fields))).Success?
    ensures |Flatten(anno, ws, inherited, show).value| == 1
    ensures Flatten(anno, ws, inherited, show).value[0].key ==
              GetKey(TextAt(anno.fields, LabelMember(Classify(anno.fields))).value, show(TaskId(anno.fields, inherited)))
  {
  }

  /** The key of a leaf field reads back as the task id it was filed under and its label,
      stripped: the key loses nothing the row needs to tell two tasks or two labels apart. */
  lemma LeafKeyReadsBack(anno: Json, ws: Resolver.WorkflowStrings, inherited: Json, show: Json -> string)
    requires anno.JObj? && Classify(anno.fields) in {SelectLabel, TaskLabel, BoxTool, LengthTool, PointTool}
    requires '~' !in show(TaskId(anno.fields, inherited))
    requires Flatten(anno, ws, inherited, show).Success?
    ensures TextAt(anno.fields, LabelMember(Classify(anno.fields))).Success?
    ensures |Flatten(anno, ws, inherited, show).value| == 1
    ensures SplitKey(Flatten(anno, ws, inherited, show).value[0].key) ==
              Some((show(TaskId(anno.fields, inherited)), Strip(TextAt(anno.fields, LabelMember(Classify(anno.fields))).value)))
  {
    hide Flatten;
    LeafKey(anno, ws, inherited, show);
    var id := TaskId(anno.fields, inherited);
    var text := TextAt(anno.fields, LabelMember(Classify(anno.fields))).value;
    KeyRoundTrip(text, show(id));
  }

  /** An annotation that matches none of the patterns is skipped, whatever its task id. */
  lemma UnmatchedSkipped(anno: Json, ws: Resolver.WorkflowStrings, inherited: Json, show: Json -> string)
    requires anno.JObj? && Classify(anno.fields) == Unmatched
    ensures Flatten(anno, ws, inherited, show) == Success([])
  {
  }

  /** A leaf annotation whose task id is an integer files its field under the decimal digits
      of that integer, as an f-string shows it. */
  lemma IntegerTaskId(anno: Json, ws: Resolver.WorkflowStrings, inherited: Json, show: Json -> string, i: int)
    requires IsPyStr(show)
    requires anno.JObj? && Classify(anno.fields) in {SelectLabel, TaskLabel, BoxTool, LengthTool, PointTool}
    requires Get(anno.fields, "task") == Some(JInt(i))
    requires Flatten(anno, ws, inherited, show).Success?
    ensures |Flatten(anno, ws, inherited, show).value| == 1
    ensures StartsWith(Flatten(anno, ws, inherited, show).value[0].key, "~" + IntToString(i) + "~ ")
  {
    hide Flatten;
    LeafKey(anno, ws, inherited, show);
    assert TaskId(anno.fields, inherited) == JInt(i);
    assert show(JInt(i)) == IntToString(i);
  }
}
