/** The row pass of length reconciliation (`reconcile_row` in
    `pylib/column_types/length.py`): a field whose name mentions a pixel length and a scale
    such as `2 mm` fixes a pixels-per-unit factor, and every pixel-length field gains a
    sibling in those units. */
module LengthRow {
  import opened Wrappers
  import opened Strs
  import Assoc
  import Scale
  import LengthType

  /** A reconciled value: a number, or anything else (text, an empty cell). */
  datatype RowValue = Num(n: real) | Text(s: string)

  /** A reconciled row, in column order. */
  type Row = seq<(string, RowValue)>

  const PixelMarker := "length pixels"

  /** `key.find("length pixels") > -1`. */
  predicate IsPixelKey(key: string) {
    Contains(key, PixelMarker)
  }

  /** A pixel-length field whose name carries a scale annotation. */
  predicate IsScaleKey(key: string) {
    IsPixelKey(key) && Scale.Search(key).Some?
  }

  /** The first field of the row that carries the scale, if any. */
  function ScaleField(row: Row): (r: Option<nat>)
    ensures r.None? <==> forall i :: 0 <= i < |row| ==> !IsScaleKey(row[i].0)
    ensures r.Some? ==> r.value < |row| && IsScaleKey(row[r.value].0)
    ensures r.Some? ==> forall j :: 0 <= j < r.value ==> !IsScaleKey(row[j].0)
  {
    Assoc.FirstWhere(row, IsScaleKey)
  }

  /** The unit text of the annotation (case as written) and the pixels per unit. */
  datatype Conversion = Conversion(units: string, factor: real)

  /** The annotation `m` turns `value` pixels into `c`: the units are the annotated ones
      and `c.factor` units of the annotated scale make `value`. */
  predicate Converts(m: Scale.ScaleMatch, value: RowValue, c: Conversion)
    requires forall k :: 0 <= k < |m.scale| ==> Scale.IsScaleChar(m.scale[k])
  {
    && c.units == m.units
    && value.Num?
    && Scale.ParseScale(m.scale).Some?
    && Scale.ParseScale(m.scale).value > 0.0
    && Scaled(c.factor, Scale.ParseScale(m.scale).value) == value.n
  }

  /** The conversion the annotation `m` of the field `key` fixes: `value / float(scale)`.
      `float` rejects a scale like `1.2.3` before the division is attempted, and dividing
      text raises before a zero divisor is noticed. */
  function FieldConversion(m: Scale.ScaleMatch, key: string, value: RowValue): (r: Result<Conversion, LengthType.LengthError>)
    requires forall k :: 0 <= k < |m.scale| ==> Scale.IsScaleChar(m.scale[k])
    ensures r.Success? ==> Converts(m, value, r.value)
    ensures r.Failure? ==> forall c :: !Converts(m, value, c)
    ensures r.Failure? ==>
              if Scale.ParseScale(m.scale).None? then r.error == LengthType.BadScale(m.scale)
              else if !value.Num? then r.error == LengthType.NotANumber(key)
              else r.error == LengthType.ZeroScale(key)
  {
    match Scale.ParseScale(m.scale)
    case None => Failure(LengthType.BadScale(m.scale))
    case Some(scale) =>
      if !value.Num? then Failure(LengthType.NotANumber(key))
      else if scale == 0.0 then Failure(LengthType.ZeroScale(key))
      else
        QuotientTimes(value.n, scale);
        Success(Conversion(m.units, value.n / scale))
  }

  /** `units` of a scale of `scale` pixels each. */
  function Scaled(units: real, scale: real): real {
    units * scale
  }

  lemma QuotientTimes(a: real, d: real)
    requires d != 0.0
    ensures Scaled(a / d, d) == a
  {
  }

  /** The conversion a scale field fixes. */
  function FieldSearched(field: (string, RowValue)): (r: Result<Conversion, LengthType.LengthError>)
    requires IsScaleKey(field.0)
  {
    FieldConversion(Scale.Search(field.0).value, field.0, field.1)
  }

  /** The first loop of `reconcile_row`: the conversion the first scale field fixes, if
      there is one. */
  function RowConversion(row: Row): (r: Result<Option<Conversion>, LengthType.LengthError>)
    ensures r == Success(None) <==> ScaleField(row).None?
    ensures r.Success? && r.value.Some? ==>
              ScaleField(row).Some? &&
              Converts(Scale.Search(row[ScaleField(row).value].0).value, row[ScaleField(row).value].1, r.value.value)
    ensures r.Success? && r.value.Some? ==> Scale.IsUnit(r.value.value.units)
    ensures r.Failure? ==>
              ScaleField(row).Some? && FieldSearched(row[ScaleField(row).value]) == Failure(r.error)
  {
    match ScaleField(row)
    case None => Success(None)
    case Some(i) =>
      match FieldSearched(row[i])
      case Failure(e) => Failure(e)
      case Success(c) => Success(Some(c))
  }

  /** The pixel-length fields of the row, in order. */
  function PixelEntries(row: Row): (r: Row)
    ensures |r| <= |row|
    ensures forall k :: 0 <= k < |r| ==> r[k] in row && IsPixelKey(r[k].0)
    ensures forall k :: 0 <= k < |row| && IsPixelKey(row[k].0) ==> row[k] in r
    ensures Assoc.UniqueKeys(row) ==> Assoc.UniqueKeys(r)
  {
    if |row| == 0 then []
    else
      var rest := PixelEntries(row[1..]);
      assert forall k :: 0 <= k < |rest| ==> rest[k] in row[1..];
      if IsPixelKey(row[0].0) then [row[0]] + rest else rest
  }

  /** `key.replace("pixels", units)`. */
  function Converted(key: string, units: string): string {
    ReplaceAll(key, "pixels", units)
  }

  /** `value * factor`. */
  function InUnits(pixels: real, factor: real): real {
    pixels * factor
  }

  /** The assignments of the second loop: each pixel-length field, renamed into the units,
      holding its value times the factor. Multiplying text by a number raises. */
  function Additions(entries: Row, c: Conversion): (r: Result<Row, LengthType.LengthError>)
    ensures r.Success? <==> forall k :: 0 <= k < |entries| ==> entries[k].1.Num?
    ensures r.Success? ==> |r.value| == |entries|
    ensures r.Success? ==> forall k :: 0 <= k < |entries| ==>
              r.value[k] == (Converted(entries[k].0, c.units), Num(InUnits(entries[k].1.n, c.factor)))
    ensures r.Failure? ==> exists k :: 0 <= k < |entries| && !entries[k].1.Num? && r.error == LengthType.NotANumber(entries[k].0)
  {
    if |entries| == 0 then Success([])
    else if !entries[0].1.Num? then Failure(LengthType.NotANumber(entries[0].0))
    else
      match Additions(entries[1..], c)
      case Failure(e) =>
        assert exists k :: 0 <= k < |entries[1..]| && !entries[1..][k].1.Num? && e == LengthType.NotANumber(entries[1..][k].0);
        var k :| 0 <= k < |entries[1..]| && !entries[1..][k].1.Num? && e == LengthType.NotANumber(entries[1..][k].0);
        assert entries[k + 1] == entries[1..][k];
        Failure(e)
      case Success(rest) =>
        var adds := [(Converted(entries[0].0, c.units), Num(InUnits(entries[0].1.n, c.factor)))] + rest;
        assert forall k :: 1 <= k < |entries| ==> entries[k] == entries[1..][k - 1] && adds[k] == rest[k - 1];
        Success(adds)
  }

  /** The second loop of `reconcile_row` with the conversion `c`: it fails on the first
      pixel-length field that holds no number, and otherwise assigns every addition.
      As written, the loop assigns into the dict it is iterating over (length.py:54-57); a
      plain dict raises `RuntimeError` on the next step once an assignment adds a key. The
      model reads the pixel-length fields from the row as it was before the loop and then
      assigns the additions, which is the evident intent. */
  function ConvertRow(row: Row, c: Conversion): (r: Result<Row, LengthType.LengthError>)
    ensures r.Failure? <==> exists k :: 0 <= k < |row| && IsPixelKey(row[k].0) && !row[k].1.Num?
    ensures r.Success? ==> |row| <= |r.value| && Assoc.Keys(r.value)[..|row|] == Assoc.Keys(row)
    ensures r.Success? && Assoc.UniqueKeys(row) ==> Assoc.UniqueKeys(r.value)
  {
    var entries := PixelEntries(row);
    match Additions(entries, c)
    case Failure(e) =>
      var k :| 0 <= k < |entries| && !entries[k].1.Num? && e == LengthType.NotANumber(entries[k].0);
      var j :| 0 <= j < |row| && row[j] == entries[k];
      Failure(e)
    case Success(adds) =>
      Assoc.KeysPutAll(row, adds);
      Success(Assoc.PutAll(row, adds))
  }

  /** `reconcile_row`: without a scale field the row is left alone; otherwise every
      pixel-length field is copied into the annotated units. The row keeps its columns in
      place, and new columns come after them. */
  function ReconcileRow(row: Row): (r: Result<Row, LengthType.LengthError>)
    ensures ScaleField(row).None? ==> r == Success(row)
    ensures r.Success? ==> |row| <= |r.value| && Assoc.Keys(r.value)[..|row|] == Assoc.Keys(row)
    ensures r.Success? && Assoc.UniqueKeys(row) ==> Assoc.UniqueKeys(r.value)
    ensures r.Failure? <==>
              || RowConversion(row).Failure?
              || (RowConversion(row).value.Some? &&
                  exists k :: 0 <= k < |row| && IsPixelKey(row[k].0) && !row[k].1.Num?)
  {
    match RowConversion(row)
    case Failure(e) => Failure(e)
    case Success(None) => Success(row)
    case Success(Some(c)) => ConvertRow(row, c)
  }

  /** A name in the annotated units contains neither `pixels` nor, therefore, the pixel
      marker: the converted copies are never taken for pixel-length fields. */
  lemma ConvertedNotPixel(key: string, units: string)
    requires Scale.IsUnit(units)
    ensures !Contains(Converted(key, units), "pixels")
    ensures !IsPixelKey(Converted(key, units))
  {
    assert Disjoint(units, "pixels");
    ReplaceRemoves(key, "pixels", units);
    if IsPixelKey(Converted(key, units)) {
      assert PixelMarker == "length " + "pixels";
      ContainsSuffix(Converted(key, units), "length ", "pixels");
    }
  }

  /** The pixel-length fields of a row are those of its first field, then those of the rest. */
  lemma PixelEntriesCons(x: (string, RowValue), rest: Row)
    ensures PixelEntries([x] + rest) == (if IsPixelKey(x.0) then [x] else []) + PixelEntries(rest)
  {
    assert ([x] + rest)[1..] == rest;
  }

  /** Assigning a field that is not a pixel-length field leaves the pixel-length fields. */
  lemma {:induction false} PixelEntriesPut(m: Row, k: string, v: RowValue)
    requires !IsPixelKey(k)
    ensures PixelEntries(Assoc.Put(m, k, v)) == PixelEntries(m)
    decreases |m|
  {
    var m' := Assoc.Put(m, k, v);
    if |m| == 0 {
      assert m' == [(k, v)] + [];
      PixelEntriesCons((k, v), []);
    } else {
      assert m == [m[0]] + m[1..];
      if m[0].0 == k {
        assert m' == [(k, v)] + m[1..];
        hide PixelEntries, Assoc.Put;
        PixelEntriesCons((k, v), m[1..]);
        PixelEntriesCons(m[0], m[1..]);
      } else {
        PixelEntriesPut(m[1..], k, v);
        assert m' == [m[0]] + Assoc.Put(m[1..], k, v);
        hide PixelEntries, Assoc.Put;
        PixelEntriesCons(m[0], Assoc.Put(m[1..], k, v));
        PixelEntriesCons(m[0], m[1..]);
      }
    }
  }

  lemma {:induction false} PixelEntriesPutAll(m: Row, adds: Row)
    requires forall q :: 0 <= q < |adds| ==> !IsPixelKey(adds[q].0)
    ensures PixelEntries(Assoc.PutAll(m, adds)) == PixelEntries(m)
    decreases |adds|
  {
    if |adds| > 0 {
      PixelEntriesPut(m, adds[0].0, adds[0].1);
      PixelEntriesPutAll(Assoc.Put(m, adds[0].0, adds[0].1), adds[1..]);
    }
  }

  /** A row that extends another's columns finds the same scale field. */
  lemma ScaleFieldPrefix(a: Row, b: Row)
    requires |a| <= |b| && Assoc.Keys(b)[..|a|] == Assoc.Keys(a)
    requires ScaleField(a).Some?
    ensures ScaleField(b) == ScaleField(a)
  {
    Assoc.FirstWherePrefix(a, b, IsScaleKey);
  }

  /** The pixel-length fields and the assignments the second loop makes. */
  function RowAdditions(row: Row, c: Conversion): Result<Row, LengthType.LengthError> {
    Additions(PixelEntries(row), c)
  }

  /** A converted row is the original row with the additions assigned. */
  lemma ReconciledRow(row: Row)
    requires ReconcileRow(row).Success? && ScaleField(row).Some?
    ensures RowConversion(row).Success? && RowConversion(row).value.Some?
    ensures RowAdditions(row, RowConversion(row).value.value).Success?
    ensures ReconcileRow(row).value == Assoc.PutAll(row, RowAdditions(row, RowConversion(row).value.value).value)
  {
  }

  /** The addition made for a pixel-length field is its converted name and value. */
  lemma AdditionOf(row: Row, c: Conversion, k: nat) returns (p: nat)
    requires RowAdditions(row, c).Success?
    requires k < |row| && IsPixelKey(row[k].0)
    ensures p < |PixelEntries(row)| && PixelEntries(row)[p] == row[k]
    ensures row[k].1.Num?
    ensures RowAdditions(row, c).value[p] == (Converted(row[k].0, c.units), Num(InUnits(row[k].1.n, c.factor)))
  {
    var entries := PixelEntries(row);
    p :| 0 <= p < |entries| && entries[p] == row[k];
  }

  /** Every addition is named after some pixel-length field of the row. */
  lemma AdditionFrom(row: Row, c: Conversion, q: nat) returns (j: nat)
    requires RowAdditions(row, c).Success? && q < |RowAdditions(row, c).value|
    ensures j < |row| && IsPixelKey(row[j].0) && PixelEntries(row)[q] == row[j]
    ensures RowAdditions(row, c).value[q].0 == Converted(row[j].0, c.units)
  {
    var entries := PixelEntries(row);
    assert entries[q] in row;
    j :| 0 <= j < |row| && row[j] == entries[q];
  }

  /** Each pixel-length field gains a sibling named in the annotated units, holding its
      value times the factor (when no two of them convert to the same name). */
  lemma ConvertedField(row: Row, k: nat)
    requires Assoc.UniqueKeys(row)
    requires ReconcileRow(row).Success? && ScaleField(row).Some?
    requires k < |row| && IsPixelKey(row[k].0)
    requires forall j :: 0 <= j < |row| && j != k && IsPixelKey(row[j].0) ==>
               Converted(row[j].0, RowConversion(row).value.value.units) != Converted(row[k].0, RowConversion(row).value.value.units)
    ensures row[k].1.Num?
    ensures Assoc.Lookup(ReconcileRow(row).value, Converted(row[k].0, RowConversion(row).value.value.units))
            == Some(Num(row[k].1.n * RowConversion(row).value.value.factor))
  {
    ReconciledRow(row);
    var c := RowConversion(row).value.value;
    var adds := RowAdditions(row, c).value;
    var p := AdditionOf(row, c, k);
    forall q | 0 <= q < |adds| && q != p
      ensures adds[q].0 != adds[p].0
    {
      var j := AdditionFrom(row, c, q);
      assert PixelEntries(row)[q].0 != PixelEntries(row)[p].0;
    }
    Assoc.LastForOnly(adds, p);
    Assoc.LookupPutAll(row, adds, adds[p].0);
  }

  /** A field no pixel-length field converts to keeps its value; in particular every
      pixel-length field keeps its own. */
  lemma KeptField(row: Row, key: string)
    requires ReconcileRow(row).Success?
    requires ScaleField(row).Some? ==>
               IsPixelKey(key) ||
               forall j :: 0 <= j < |row| && IsPixelKey(row[j].0) ==>
                 Converted(row[j].0, RowConversion(row).value.value.units) != key
    ensures Assoc.Lookup(ReconcileRow(row).value, key) == Assoc.Lookup(row, key)
  {
    if ScaleField(row).Some? {
      ReconciledRow(row);
      var c := RowConversion(row).value.value;
      var adds := RowAdditions(row, c).value;
      forall q | 0 <= q < |adds|
        ensures adds[q].0 != key
      {
        var j := AdditionFrom(row, c, q);
        ConvertedNotPixel(row[j].0, c.units);
      }
      Assoc.LastForNone(adds, key);
      Assoc.LookupPutAll(row, adds, key);
    }
  }

  /** Running the row pass on its own result changes nothing more: the converted copies
      are not pixel-length fields, so the scale field, its conversion and the additions are
      the same the second time, and assigning them again is idle. */
  lemma ReconcileRowIdempotent(row: Row)
    requires Assoc.UniqueKeys(row) && ReconcileRow(row).Success?
    ensures ReconcileRow(ReconcileRow(row).value) == ReconcileRow(row)
  {
    if ScaleField(row).Some? {
      ReconciledRow(row);
      var c := RowConversion(row).value.value;
      var adds := RowAdditions(row, c).value;
      var row' := Assoc.PutAll(row, adds);
      AdditionsNotPixel(row, c);
      Assoc.KeysPutAll(row, adds);
      ScaleFieldPrefix(row, row');
      var i := ScaleField(row).value;
      SameField(row, adds, i);
      SameConversion(row, row', i);
      PixelEntriesPutAll(row, adds);
      Assoc.PutAllIdempotent(row, adds);
      Reconverted(row', c, adds);
    }
  }

  /** No addition is a pixel-length field. */
  lemma AdditionsNotPixel(row: Row, c: Conversion)
    requires RowAdditions(row, c).Success? && Scale.IsUnit(c.units)
    ensures forall q :: 0 <= q < |RowAdditions(row, c).value| ==> !IsPixelKey(RowAdditions(row, c).value[q].0)
  {
    var adds := RowAdditions(row, c).value;
    forall q | 0 <= q < |adds|
      ensures !IsPixelKey(adds[q].0)
    {
      var j := AdditionFrom(row, c, q);
      ConvertedNotPixel(row[j].0, c.units);
    }
  }

  /** Two rows with the same scale field at the same place fix the same conversion. */
  lemma SameConversion(a: Row, b: Row, i: nat)
    requires ScaleField(a) == Some(i) && ScaleField(b) == Some(i)
    requires i < |a| && i < |b| && b[i] == a[i]
    ensures RowConversion(b) == RowConversion(a)
  {
  }

  /** A row whose conversion and additions are known reconciles to the row with the
      additions assigned. */
  lemma Reconverted(row: Row, c: Conversion, adds: Row)
    requires RowConversion(row) == Success(Some(c))
    requires RowAdditions(row, c) == Success(adds)
    ensures ReconcileRow(row) == Success(Assoc.PutAll(row, adds))
  {
  }

  /** Assignments to fields that are not pixel-length fields leave a pixel-length field
      where it was, with its value. */
  lemma SameField(row: Row, adds: Row, i: nat)
    requires Assoc.UniqueKeys(row)
    requires forall q :: 0 <= q < |adds| ==> !IsPixelKey(adds[q].0)
    requires i < |row| && IsPixelKey(row[i].0)
    ensures i < |Assoc.PutAll(row, adds)| && Assoc.PutAll(row, adds)[i] == row[i]
  {
    var row' := Assoc.PutAll(row, adds);
    Assoc.KeysPutAll(row, adds);
    assert Assoc.Keys(row')[..|row|][i] == Assoc.Keys(row')[i];
    Assoc.LastForNone(adds, row[i].0);
    Assoc.LookupPutAll(row, adds, row[i].0);
    Assoc.LookupUnique(row, i);
    Assoc.LookupUnique(row', i);
  }
}
