/** The generic-table reader of `pylib/formats/common.py`: `name:type` column declarations,
    and the conversion of each cell of a table into the field its column's type calls for. */
module Common {
  import opened Wrappers
  import opened Strs
  import opened JsonValues
  import opened Fields
  import Assoc
  import Flattener

  /** The seven column types a declaration may name. */
  datatype ColumnType = SelectType | TextType | SameType | BoxType | PointType | NoOpType | LengthType

  const TypeNames: seq<string> := ["select", "text", "same", "box", "point", "noop", "length"]

  function TypeName(t: ColumnType): (r: string)
    ensures r in TypeNames
  {
    match t
    case SelectType => "select"
    case TextType => "text"
    case SameType => "same"
    case BoxType => "box"
    case PointType => "point"
    case NoOpType => "noop"
    case LengthType => "length"
  }

  /** The type a declaration's type name stands for; only the seven names are recognised. */
  function ParseType(s: string): (r: Option<ColumnType>)
    ensures r.None? <==> s !in TypeNames
    ensures r.Some? ==> TypeName(r.value) == s
  {
    if s == "select" then Some(SelectType)
    else if s == "text" then Some(TextType)
    else if s == "same" then Some(SameType)
    else if s == "box" then Some(BoxType)
    else if s == "point" then Some(PointType)
    else if s == "noop" then Some(NoOpType)
    else if s == "length" then Some(LengthType)
    else None
  }

  /** Every type is recognised by its own name. */
  lemma TypeNameRoundTrip(t: ColumnType)
    ensures ParseType(TypeName(t)) == Some(t)
  {
  }

  /** The reasons `validate_columns` rejects one declaration. */
  datatype ColumnError =
    | BadSpec(entry: string)          // not exactly one `:`
    | UnknownColumn(name: string)     // the name is not an input column
    | UnknownType(typeName: string)   // the type is not one of the seven names

  /** One `name:type` declaration, checked in the source's order: shape, column, type. */
  function ParseEntry(entry: string, columns: seq<string>): (r: Result<(string, ColumnType), ColumnError>)
    ensures r.Success? ==> r.value.0 in columns && entry == r.value.0 + ":" + TypeName(r.value.1)
    ensures r.Failure? && r.error.BadSpec? <==> |Split(entry, ':')| != 2
  {
    var parts := Split(entry, ':');
    if |parts| != 2 then Failure(BadSpec(entry))
    else if parts[0] !in columns then Failure(UnknownColumn(parts[0]))
    else match ParseType(parts[1])
      case None => Failure(UnknownType(parts[1]))
      case Some(t) =>
        assert parts[1..] == [parts[1]];
        assert Join(parts, ":") == parts[0] + ":" + parts[1];
        Success((parts[0], t))
  }

  /** A declaration written for a known column and type is read back as that pair. */
  lemma ParseEntryRoundTrip(name: string, t: ColumnType, columns: seq<string>)
    requires name in columns && ':' !in name
    ensures ParseEntry(name + ":" + TypeName(t), columns) == Success((name, t))
  {
    var parts := [name, TypeName(t)];
    assert ':' !in TypeName(t);
    assert parts[1..] == [TypeName(t)];
    assert Join(parts, [':']) == name + ":" + TypeName(t);
    SplitJoin(parts, ':');
  }

  /** The declarations after `",".join(args.column_types).split(",")`. */
  function Entries(columnTypes: seq<string>): seq<string> {
    Split(Join(columnTypes, ","), ',')
  }

  /** The verdict on each declaration, in order. */
  function ParseEntries(entries: seq<string>, columns: seq<string>)
    : (r: seq<Result<(string, ColumnType), ColumnError>>)
    ensures |r| == |entries|
    ensures forall k :: 0 <= k < |entries| ==> r[k] == ParseEntry(entries[k], columns)
  {
    seq(|entries|, k requires 0 <= k < |entries| => ParseEntry(entries[k], columns))
  }

  /** The values of the successful verdicts, in order. */
  function Successes<T, E>(rs: seq<Result<T, E>>): (r: seq<T>)
    ensures |r| <= |rs|
  {
    if |rs| == 0 then []
    else (if rs[0].Success? then [rs[0].value] else []) + Successes(rs[1..])
  }

  /** The errors of the failed verdicts, in order: together with the successes they account
      for every verdict, and there are none exactly when every verdict succeeded. */
  function Failures<T, E>(rs: seq<Result<T, E>>): (r: seq<E>)
    ensures |r| + |Successes(rs)| == |rs|
    ensures |r| == 0 <==> forall k :: 0 <= k < |rs| ==> rs[k].Success?
  {
    if |rs| == 0 then []
    else
      assert forall k :: 1 <= k < |rs| ==> rs[k] == rs[1..][k - 1];
      (if rs[0].Failure? then [rs[0].error] else []) + Failures(rs[1..])
  }

  /** When every verdict succeeded, the successes are all the values, in place. */
  lemma {:induction false} SuccessesAll<T, E>(rs: seq<Result<T, E>>)
    requires forall k :: 0 <= k < |rs| ==> rs[k].Success?
    ensures |Successes(rs)| == |rs|
    ensures forall k :: 0 <= k < |rs| ==> Successes(rs)[k] == rs[k].value
  {
    if |rs| > 0 {
      assert forall k :: 1 <= k < |rs| ==> rs[k] == rs[1..][k - 1];
      SuccessesAll(rs[1..]);
      var r := Successes(rs);
      assert r == [rs[0].value] + Successes(rs[1..]);
      assert forall k :: 1 <= k < |r| ==> r[k] == Successes(rs[1..])[k - 1];
    }
  }

  /** The accepted declarations, in order. */
  function Accepted(entries: seq<string>, columns: seq<string>): seq<(string, ColumnType)> {
    Successes(ParseEntries(entries, columns))
  }

  /** When every declaration is accepted, each one is kept, in its place. */
  lemma AcceptedAll(entries: seq<string>, columns: seq<string>)
    requires forall k :: 0 <= k < |entries| ==> ParseEntry(entries[k], columns).Success?
    ensures |Accepted(entries, columns)| == |entries|
    ensures forall k :: 0 <= k < |entries| ==> Accepted(entries, columns)[k] == ParseEntry(entries[k], columns).value
  {
    SuccessesAll(ParseEntries(entries, columns));
  }

  /** The errors of the rejected declarations, in order. */
  function Rejected(entries: seq<string>, columns: seq<string>): (r: seq<ColumnError>)
    ensures |r| + |Accepted(entries, columns)| == |entries|
    ensures |r| == 0 <==> forall k :: 0 <= k < |entries| ==> ParseEntry(entries[k], columns).Success?
  {
    Failures(ParseEntries(entries, columns))
  }

  /** `validate_columns`: every declaration is checked; if any is rejected all the errors are
      reported together, otherwise the declarations are assigned in order, so a column
      declared twice keeps its last type. */
  function ValidateColumns(columnTypes: seq<string>, columns: seq<string>)
    : (r: Result<seq<(string, ColumnType)>, seq<ColumnError>>)
    ensures r.Success? <==> forall k :: 0 <= k < |Entries(columnTypes)| ==> ParseEntry(Entries(columnTypes)[k], columns).Success?
    ensures r.Failure? ==> |r.error| > 0 && r.error == Rejected(Entries(columnTypes), columns)
    ensures r.Success? ==> Assoc.UniqueKeys(r.value) && forall n :: n in Assoc.Keys(r.value) ==> n in columns
  {
    var entries := Entries(columnTypes);
    var errors := Rejected(entries, columns);
    if |errors| > 0 then Failure(errors)
    else
      var accepted := Accepted(entries, columns);
      AcceptedAll(entries, columns);
      Assoc.KeysPutAll([], accepted);
      var r := Assoc.PutAll([], accepted);
      forall n | n in Assoc.Keys(r) ensures n in columns {
        Assoc.LookupNone(r, n);
        Assoc.LookupPutAll([], accepted, n);
        LastForIn(accepted, n);
        var k :| 0 <= k < |accepted| && accepted[k].0 == n;
        assert accepted[k] == ParseEntry(entries[k], columns).value;
      }
      Success(r)
  }

  lemma {:induction false} LastForIn<V>(adds: seq<(string, V)>, k: string)
    requires Assoc.LastFor(adds, k).Some?
    ensures exists i :: 0 <= i < |adds| && adds[i].0 == k
  {
    if Assoc.LastFor(adds[1..], k).Some? {
      LastForIn(adds[1..], k);
      var i :| 0 <= i < |adds[1..]| && adds[1..][i].0 == k;
      assert adds[i + 1].0 == k;
    }
  }

  /** On success each declared column has the type of its last declaration. */
  lemma ValidatedLastWins(columnTypes: seq<string>, columns: seq<string>, name: string)
    requires ValidateColumns(columnTypes, columns).Success?
    ensures Assoc.Lookup(ValidateColumns(columnTypes, columns).value, name)
            == Assoc.LastFor(Accepted(Entries(columnTypes), columns), name)
  {
    Assoc.LookupPutAll([], Accepted(Entries(columnTypes), columns), name);
  }

  /** No declarations at all is one malformed, empty declaration. */
  lemma NoDeclarations(columns: seq<string>)
    ensures ValidateColumns([], columns) == Failure([BadSpec("")])
  {
    assert Join([], ",") == "";
    assert Split("", ',') == [""];
    assert Split("", ':') == [""];
    assert Entries([]) == [""];
    assert ParseEntry("", columns) == Failure(BadSpec(""));
    assert [""][1..] == [];
    assert Rejected([""], columns) == [BadSpec("")] + Rejected([], columns) == [BadSpec("")];
    assert Rejected(Entries([]), columns) == [BadSpec("")];
  }

  // ----- Cells -----

  /** The column type whose cells produce fields of `f`'s kind. */
  function KindOf(f: Field): ColumnType {
    match f
    case Select(_) => SelectType
    case Text(_) => TextType
    case Same(_) => SameType
    case Box(_, _, _, _) => BoxType
    case Point(_, _) => PointType
    case NoOp(_) => NoOpType
    case Length(_, _, _, _) => LengthType
  }

  /** `column_types.get(name, "noop")`. */
  function TypeOf(types: seq<(string, ColumnType)>, name: string): ColumnType {
    Assoc.Lookup(types, name).GetOr(NoOpType)
  }

  const ZeroBox: Json := JObj([("x", JInt(0)), ("y", JInt(0)), ("width", JInt(0)), ("height", JInt(0))])
  const ZeroLength: Json := JObj([("x1", JInt(0)), ("y1", JInt(0)), ("x2", JInt(0)), ("y2", JInt(0))])
  const ZeroPoint: Json := JObj([("x", JInt(0)), ("y", JInt(0))])

  /** A geometry cell: its parsed JSON, or the all-zero geometry when the cell is empty. */
  function Geometry(value: string, zero: Json, parse: string -> Json): Json {
    if value != "" then parse(value) else zero
  }

  function MemberList(j: Json): Result<seq<(string, Json)>, Flattener.FlattenError> {
    if j.JObj? then Success(j.fields) else Failure(Flattener.NotAMapping)
  }

  /** The `match field_type` of `read_table` for one cell. */
  function CellField(t: ColumnType, value: string, parse: string -> Json): (r: Result<Field, Flattener.FlattenError>)
    ensures r.Success? ==> KindOf(r.value) == t
  {
    match t
    case BoxType =>
      var g :- MemberList(Geometry(value, ZeroBox, parse));
      Flattener.BoxGeometry(g)
    case LengthType =>
      var g :- MemberList(Geometry(value, ZeroLength, parse));
      Flattener.LengthGeometry(g)
    case PointType =>
      var g :- MemberList(Geometry(value, ZeroPoint, parse));
      Flattener.PointGeometry(g)
    case NoOpType => Success(NoOp(JStr(value)))
    case SameType => Success(Same(JStr(value)))
    case SelectType => Success(Select(JStr(value)))
    case TextType => Success(Text(JStr(value)))
  }

  /** Empty geometry cells are all-zero geometry, whatever the JSON parser does. */
  lemma EmptyBox(parse: string -> Json)
    ensures CellField(BoxType, "", parse) == Success(Box(0, 0, 0, 0))
  {
    var g := ZeroBox.fields;
    ZeroNumbers(g, "x", "y", "width", "height");
    RoundWhole(0);
    assert MemberList(Geometry("", ZeroBox, parse)) == Success(g);
  }

  lemma EmptyLength(parse: string -> Json)
    ensures CellField(LengthType, "", parse) == Success(Length(0, 0, 0, 0))
  {
    var g := ZeroLength.fields;
    ZeroNumbers(g, "x1", "y1", "x2", "y2");
    RoundWhole(0);
    assert Flattener.LengthGeometry(g) == Success(Length(0, 0, 0, 0));
    assert MemberList(Geometry("", ZeroLength, parse)) == Success(g);
    GeometryCell(LengthType, "", parse, g);
  }

  lemma EmptyPoint(parse: string -> Json)
    ensures CellField(PointType, "", parse) == Success(Point(0, 0))
  {
    var f := ZeroPoint.fields;
    assert Flattener.NumberAt(f, "x") == Success(0.0);
    assert Flattener.NumberAt(f, "y") == Success(0.0);
    RoundWhole(0);
  }

  /** A geometry cell whose text parses to an object is read exactly as the annotation
      flattener reads that object: the same numbers, rounded the same way, failing on the
      same missing or non-numeric member. */
  lemma GeometryCell(t: ColumnType, value: string, parse: string -> Json, g: seq<(string, Json)>)
    requires t == BoxType || t == LengthType || t == PointType
    requires MemberList(Geometry(value, if t == BoxType then ZeroBox else if t == LengthType then ZeroLength else ZeroPoint, parse)) == Success(g)
    ensures t == BoxType ==> CellField(t, value, parse) == Flattener.BoxGeometry(g)
    ensures t == LengthType ==> CellField(t, value, parse) == Flattener.LengthGeometry(g)
    ensures t == PointType ==> CellField(t, value, parse) == Flattener.PointGeometry(g)
  {
  }

  /** A geometry cell whose text does not parse to an object fails as indexing a non-dict
      does. */
  lemma GeometryNotObject(t: ColumnType, value: string, parse: string -> Json)
    requires t == BoxType || t == LengthType || t == PointType
    requires value != "" && !parse(value).JObj?
    ensures CellField(t, value, parse) == Failure(Flattener.NotAMapping)
  {
  }

  /** Four distinct keys bound to zero, in order, all read as the number zero. */
  lemma ZeroNumbers(f: seq<(string, Json)>, a: string, b: string, c: string, d: string)
    requires f == [(a, JInt(0)), (b, JInt(0)), (c, JInt(0)), (d, JInt(0))]
    requires a != b && a != c && a != d && b != c && b != d && c != d
    ensures Flattener.NumberAt(f, a) == Success(0.0) && Flattener.NumberAt(f, b) == Success(0.0)
    ensures Flattener.NumberAt(f, c) == Success(0.0) && Flattener.NumberAt(f, d) == Success(0.0)
  {
    var f1, f2, f3 := f[1..], f[2..], f[3..];
    assert f1[1..] == f2 && f2[1..] == f3;
    ZeroHead(f, a);
    NumberSkip(f, b);
    ZeroHead(f1, b);
    NumberSkip(f, c);
    NumberSkip(f1, c);
    ZeroHead(f2, c);
    NumberSkip(f, d);
    NumberSkip(f1, d);
    NumberSkip(f2, d);
    ZeroHead(f3, d);
  }

  lemma ZeroHead(f: seq<(string, Json)>, key: string)
    requires |f| > 0 && f[0] == (key, JInt(0))
    ensures Flattener.NumberAt(f, key) == Success(0.0)
  {
  }

  /** A first entry under another key does not change what a key reads as. */
  lemma NumberSkip(f: seq<(string, Json)>, key: string)
    requires |f| > 0 && f[0].0 != key
    ensures Flattener.NumberAt(f, key) == Flattener.NumberAt(f[1..], key)
  {
  }

  // ----- Rows -----

  /** The reasons `read_table` stops. */
  datatype TableError =
    | InvalidColumns(errors: seq<ColumnError>)
    | MissingGroup(column: string)
    | BadCell(column: string, error: Flattener.FlattenError)

  /** The columns other than the group column, in order. */
  function Others(columns: seq<string>, groupBy: string): (r: seq<string>)
    ensures |r| <= |columns|
    ensures forall k :: 0 <= k < |r| ==> r[k] != groupBy && r[k] in columns
    ensures forall k :: 0 <= k < |columns| && columns[k] != groupBy ==> columns[k] in r
  {
    if |columns| == 0 then []
    else (if columns[0] == groupBy then [] else [columns[0]]) + Others(columns[1..], groupBy)
  }

  /** Filtering distributes over concatenation, so the other columns keep their relative
      order: the ones from a part come out before the ones from a later part. */
  lemma {:induction false} OthersAppend(a: seq<string>, b: seq<string>, groupBy: string)
    ensures Others(a + b, groupBy) == Others(a, groupBy) + Others(b, groupBy)
    decreases |a|
  {
    if |a| == 0 {
      assert a + b == b;
    } else {
      assert (a + b)[1..] == a[1..] + b;
      OthersAppend(a[1..], b, groupBy);
    }
  }

  /** The per-column loop of `read_table` for one row: one field per column other than the
      group column, in column order, each of the kind its declared type calls for. */
  function OtherFields(types: seq<(string, ColumnType)>, groupBy: string, columns: seq<string>,
                       cells: seq<string>, parse: string -> Json): (r: Result<seq<Emission>, TableError>)
    requires |cells| == |columns|
    ensures r.Success? ==> |r.value| == |Others(columns, groupBy)|
    ensures r.Success? <==> CellsConvert(types, groupBy, columns, cells, parse)
    ensures r.Failure? ==> r.error.BadCell?
  {
    if |columns| == 0 then Success([])
    else
      var head := ColumnField(types, groupBy, columns[0], cells[0], parse);
      assert forall k :: 1 <= k < |columns| ==> columns[k] == columns[1..][k - 1] && cells[k] == cells[1..][k - 1];
      if head.Failure? then Failure(head.error)
      else
        var rest := OtherFields(types, groupBy, columns[1..], cells[1..], parse);
        if rest.Failure? then Failure(rest.error) else Success(head.value + rest.value)
  }

  /** Every cell outside the group column converts under its column's declared type. */
  predicate CellsConvert(types: seq<(string, ColumnType)>, groupBy: string, columns: seq<string>,
                         cells: seq<string>, parse: string -> Json)
    requires |cells| == |columns|
  {
    forall k :: 0 <= k < |columns| && columns[k] != groupBy ==>
      CellField(TypeOf(types, columns[k]), cells[k], parse).Success?
  }

  /** A row that fails reports the first cell, in column order, that does not convert, with
      that cell's own error. */
  lemma {:induction false} OtherFieldsFirstError(types: seq<(string, ColumnType)>, groupBy: string, columns: seq<string>,
                                                 cells: seq<string>, parse: string -> Json)
    requires |cells| == |columns|
    requires OtherFields(types, groupBy, columns, cells, parse).Failure?
    ensures exists k :: FirstBadCell(types, groupBy, columns, cells, parse, k) &&
              OtherFields(types, groupBy, columns, cells, parse).error ==
                BadCell(columns[k], CellField(TypeOf(types, columns[k]), cells[k], parse).error)
  {
    var head := ColumnField(types, groupBy, columns[0], cells[0], parse);
    if head.Failure? {
      assert FirstBadCell(types, groupBy, columns, cells, parse, 0);
    } else {
      OtherFieldsFirstError(types, groupBy, columns[1..], cells[1..], parse);
      var k :| FirstBadCell(types, groupBy, columns[1..], cells[1..], parse, k) &&
               OtherFields(types, groupBy, columns[1..], cells[1..], parse).error ==
                 BadCell(columns[1..][k], CellField(TypeOf(types, columns[1..][k]), cells[1..][k], parse).error);
      assert columns[k + 1] == columns[1..][k] && cells[k + 1] == cells[1..][k];
      assert forall j :: 1 <= j < k + 1 ==> columns[j] == columns[1..][j - 1] && cells[j] == cells[1..][j - 1];
      assert FirstBadCell(types, groupBy, columns, cells, parse, k + 1);
    }
  }

  /** Column `k` is the first non-group column whose cell does not convert. */
  predicate FirstBadCell(types: seq<(string, ColumnType)>, groupBy: string, columns: seq<string>,
                         cells: seq<string>, parse: string -> Json, k: int)
    requires |cells| == |columns|
  {
    && 0 <= k < |columns| && columns[k] != groupBy
    && CellField(TypeOf(types, columns[k]), cells[k], parse).Failure?
    && forall j :: 0 <= j < k && columns[j] != groupBy ==> CellField(TypeOf(types, columns[j]), cells[j], parse).Success?
  }

  /** The fields of a row come one per non-group column, in column order, each of the kind
      its column's declared type calls for. */
  lemma {:induction false} OtherFieldsKinds(types: seq<(string, ColumnType)>, groupBy: string, columns: seq<string>,
                                            cells: seq<string>, parse: string -> Json)
    requires |cells| == |columns|
    requires OtherFields(types, groupBy, columns, cells, parse).Success?
    ensures var fs := OtherFields(types, groupBy, columns, cells, parse).value;
      forall k :: 0 <= k < |fs| ==>
        fs[k].key == Others(columns, groupBy)[k] && KindOf(fs[k].field) == TypeOf(types, fs[k].key)
  {
    if |columns| > 0 {
      var head := ColumnField(types, groupBy, columns[0], cells[0], parse).value;
      var rest := OtherFields(types, groupBy, columns[1..], cells[1..], parse).value;
      OtherFieldsKinds(types, groupBy, columns[1..], cells[1..], parse);
      var fs := OtherFields(types, groupBy, columns, cells, parse).value;
      var names, later := Others(columns, groupBy), Others(columns[1..], groupBy);
      assert fs == head + rest;
      assert names == (if columns[0] == groupBy then [] else [columns[0]]) + later;
      forall k | 0 <= k < |fs|
        ensures fs[k].key == names[k] && KindOf(fs[k].field) == TypeOf(types, fs[k].key)
      {
        if k >= |head| {
          assert fs[k] == rest[k - |head|];
          assert names[k] == later[k - |head|];
        }
      }
    }
  }

  /** One pass of the per-column loop: nothing for the group column, otherwise the cell
      converted by its column's type, or the error that stops the row. */
  function ColumnField(types: seq<(string, ColumnType)>, groupBy: string, column: string,
                       cell: string, parse: string -> Json): (r: Result<seq<Emission>, TableError>)
    ensures r.Success? ==> |r.value| == if column == groupBy then 0 else 1
    ensures r.Success? && column != groupBy ==>
              r.value[0].key == column && KindOf(r.value[0].field) == TypeOf(types, column)
  {
    if column == groupBy then Success([])
    else
      var f := CellField(TypeOf(types, column), cell, parse);
      if f.Failure? then Failure(BadCell(column, f.error)) else Success([Emission(column, f.value)])
  }

  function ColumnIndex(columns: seq<string>, name: string): (i: nat)
    requires name in columns
    ensures i < |columns| && columns[i] == name
  {
    if columns[0] == name then 0 else 1 + ColumnIndex(columns[1..], name)
  }

  /** One row of `read_table`: the group column as a same field first, then the others. */
  function RowFields(types: seq<(string, ColumnType)>, groupBy: string, columns: seq<string>,
                     cells: seq<string>, parse: string -> Json): (r: Result<seq<Emission>, TableError>)
    requires |cells| == |columns| && groupBy in columns
    ensures r.Success? ==> |r.value| == 1 + |Others(columns, groupBy)|
    ensures r.Success? ==> r.value[0] == Emission(groupBy, Same(JStr(cells[ColumnIndex(columns, groupBy)])))
    ensures r.Success? <==> CellsConvert(types, groupBy, columns, cells, parse)
    ensures r.Failure? ==> r.error.BadCell?
  {
    var rest := OtherFields(types, groupBy, columns, cells, parse);
    if rest.Failure? then Failure(rest.error)
    else Success([Emission(groupBy, Same(JStr(cells[ColumnIndex(columns, groupBy)])))] + rest.value)
  }

  /** After the group field, a row holds one field per other column, in column order, each of
      the kind its column's declared type calls for. */
  lemma RowFieldsKinds(types: seq<(string, ColumnType)>, groupBy: string, columns: seq<string>,
                       cells: seq<string>, parse: string -> Json)
    requires |cells| == |columns| && groupBy in columns
    requires RowFields(types, groupBy, columns, cells, parse).Success?
    ensures var fs := RowFields(types, groupBy, columns, cells, parse).value;
      forall k :: 1 <= k < |fs| ==>
        fs[k].key == Others(columns, groupBy)[k - 1] && KindOf(fs[k].field) == TypeOf(types, fs[k].key)
  {
    OtherFieldsKinds(types, groupBy, columns, cells, parse);
    var fs := RowFields(types, groupBy, columns, cells, parse).value;
    var rest := OtherFields(types, groupBy, columns, cells, parse).value;
    assert fs[1..] == rest;
    forall k | 1 <= k < |fs|
      ensures fs[k].key == Others(columns, groupBy)[k - 1] && KindOf(fs[k].field) == TypeOf(types, fs[k].key)
    {
      assert fs[k] == rest[k - 1];
    }
  }

  /** The sort key of a row: its group cell. */
  function GroupCell(g: nat): seq<string> -> string {
    (cells: seq<string>) => if g < |cells| then cells[g] else ""
  }

  function TableRows(types: seq<(string, ColumnType)>, groupBy: string, columns: seq<string>,
                     rows: seq<seq<string>>, parse: string -> Json): (r: Result<seq<seq<Emission>>, TableError>)
    requires groupBy in columns
    requires forall k :: 0 <= k < |rows| ==> |rows[k]| == |columns|
    ensures r.Success? ==> |r.value| == |rows|
    ensures r.Success? ==> forall k :: 0 <= k < |rows| ==>
              RowFields(types, groupBy, columns, rows[k], parse) == Success(r.value[k])
  {
    if |rows| == 0 then Success([])
    else
      var first :- RowFields(types, groupBy, columns, rows[0], parse);
      var rest :- TableRows(types, groupBy, columns, rows[1..], parse);
      Success([first] + rest)
  }

  /** The rows convert exactly when each one does; otherwise the error is a cell's. */
  lemma {:induction false} TableRowsConvert(types: seq<(string, ColumnType)>, groupBy: string, columns: seq<string>,
                                            rows: seq<seq<string>>, parse: string -> Json)
    requires groupBy in columns && Fits(rows, |columns|)
    ensures TableRows(types, groupBy, columns, rows, parse).Success? <==> RowsConvert(types, groupBy, columns, rows, parse)
    ensures TableRows(types, groupBy, columns, rows, parse).Failure? ==>
              TableRows(types, groupBy, columns, rows, parse).error.BadCell?
  {
    if |rows| > 0 {
      assert Fits(rows[1..], |columns|);
      TableRowsConvert(types, groupBy, columns, rows[1..], parse);
      assert forall k :: 1 <= k < |rows| ==> rows[k] == rows[1..][k - 1];
    }
  }

  /** Every row converts: each of its non-group cells converts under its column's type. */
  predicate RowsConvert(types: seq<(string, ColumnType)>, groupBy: string, columns: seq<string>,
                        rows: seq<seq<string>>, parse: string -> Json)
    requires groupBy in columns && Fits(rows, |columns|)
  {
    forall k :: 0 <= k < |rows| ==> RowFields(types, groupBy, columns, rows[k], parse).Success?
  }

  /** `df.sort_values([group_by])`: the rows ordered by their group cell. */
  function TableOrder(rows: seq<seq<string>>, g: nat): (r: seq<seq<string>>)
    ensures multiset(r) == multiset(rows) && |r| == |rows|
    ensures SortedBy(r, GroupCell(g))
    ensures forall k :: 0 <= k < |r| ==> r[k] in rows
  {
    var r := SortBy(rows, GroupCell(g));
    assert forall k :: 0 <= k < |r| ==> r[k] in multiset(rows);
    assert |r| == |multiset(r)|;
    r
  }

  /** `read_table`: declarations are validated first, then the rows are sorted on the group
      column and converted one by one. */
  function ReadTable(columnTypes: seq<string>, groupBy: string, columns: seq<string>,
                     rows: seq<seq<string>>, parse: string -> Json): (r: Result<seq<seq<Emission>>, TableError>)
    requires forall k :: 0 <= k < |rows| ==> |rows[k]| == |columns|
    ensures r.Success? ==> groupBy in columns && ValidateColumns(columnTypes, columns).Success? && |r.value| == |rows|
    ensures ValidateColumns(columnTypes, columns).Failure? ==>
              r == Failure(InvalidColumns(ValidateColumns(columnTypes, columns).error))
    ensures ValidateColumns(columnTypes, columns).Success? && groupBy !in columns ==> r == Failure(MissingGroup(groupBy))
    ensures r.Success? ==> Fits(TableOrder(rows, ColumnIndex(columns, groupBy)), |columns|)
    ensures r.Success? ==> forall k :: 0 <= k < |r.value| ==>
              RowFields(ValidateColumns(columnTypes, columns).value, groupBy, columns,
                        TableOrder(rows, ColumnIndex(columns, groupBy))[k], parse) == Success(r.value[k])
    ensures ValidateColumns(columnTypes, columns).Success? && groupBy in columns ==>
              Fits(TableOrder(rows, ColumnIndex(columns, groupBy)), |columns|)
    ensures ValidateColumns(columnTypes, columns).Success? && groupBy in columns ==>
              (r.Success? <==> RowsConvert(ValidateColumns(columnTypes, columns).value, groupBy, columns,
                                           TableOrder(rows, ColumnIndex(columns, groupBy)), parse))
    ensures ValidateColumns(columnTypes, columns).Success? && groupBy in columns && r.Failure? ==> r.error.BadCell?
  {
    match ValidateColumns(columnTypes, columns)
    case Failure(errors) => Failure(InvalidColumns(errors))
    case Success(types) =>
      if groupBy !in columns then Failure(MissingGroup(groupBy))
      else
        var sorted := TableOrder(rows, ColumnIndex(columns, groupBy));
        SortedFits(rows, ColumnIndex(columns, groupBy), |columns|);
        TableRowsConvert(types, groupBy, columns, sorted, parse);
        TableRows(types, groupBy, columns, sorted, parse)
  }

  /** Every row has `n` cells. */
  predicate Fits(rows: seq<seq<string>>, n: nat) {
    forall k :: 0 <= k < |rows| ==> |rows[k]| == n
  }

  /** Sorting keeps every row whole. */
  lemma SortedFits(rows: seq<seq<string>>, g: nat, n: nat)
    requires Fits(rows, n)
    ensures Fits(TableOrder(rows, g), n)
  {
    var sorted := TableOrder(rows, g);
    forall k | 0 <= k < |sorted| ensures |sorted[k]| == n {
      assert sorted[k] in rows;
    }
  }

  /** The group value a converted row starts with. */
  function GroupValue(row: seq<Emission>): string {
    if |row| > 0 && row[0].field.Same? && row[0].field.value.JStr? then row[0].field.value.s else ""
  }

  /** A converted row starts with its group cell. */
  lemma RowGroupValue(types: seq<(string, ColumnType)>, groupBy: string, columns: seq<string>,
                      cells: seq<string>, parse: string -> Json)
    requires |cells| == |columns| && groupBy in columns
    requires RowFields(types, groupBy, columns, cells, parse).Success?
    ensures GroupValue(RowFields(types, groupBy, columns, cells, parse).value) == GroupCell(ColumnIndex(columns, groupBy))(cells)
  {
  }

  /** The rows come out ordered by their group value. */
  lemma ReadTableOrder(columnTypes: seq<string>, groupBy: string, columns: seq<string>,
                       rows: seq<seq<string>>, parse: string -> Json)
    requires forall k :: 0 <= k < |rows| ==> |rows[k]| == |columns|
    requires ReadTable(columnTypes, groupBy, columns, rows, parse).Success?
    ensures var out := ReadTable(columnTypes, groupBy, columns, rows, parse).value;
      forall i, j :: 0 <= i < j < |out| ==> LessEq(GroupValue(out[i]), GroupValue(out[j]))
  {
    var types := ValidateColumns(columnTypes, columns).value;
    var g := ColumnIndex(columns, groupBy);
    var sorted := TableOrder(rows, g);
    var out := ReadTable(columnTypes, groupBy, columns, rows, parse).value;
    assert Fits(sorted, |columns|);
    forall k | 0 <= k < |out| ensures GroupValue(out[k]) == GroupCell(g)(sorted[k]) {
      assert RowFields(types, groupBy, columns, sorted[k], parse) == Success(out[k]);
      RowGroupValue(types, groupBy, columns, sorted[k], parse);
    }
  }
}
