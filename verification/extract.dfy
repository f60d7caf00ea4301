/** The per-row extractors of `pylib/formats/nfn.py` other than the annotation flattener:
    subject data and the few miscellaneous columns. */
module NfnExtract {
  import opened Wrappers
  import opened Strs
  import opened JsonValues
  import opened Fields
  import opened Keys
  import Assoc
  import Flattener

  const SubjectPrefix := "subject_"

  /** The entries of one subject other than `retired`, in order. */
  function Kept(entries: seq<(string, Json)>): (r: seq<(string, Json)>)
    ensures forall k :: 0 <= k < |r| ==> r[k].0 != "retired" && r[k] in entries
    ensures forall k :: 0 <= k < |entries| && entries[k].0 != "retired" ==> entries[k] in r
    ensures |r| <= |entries|
  {
    if |entries| == 0 then []
    else (if entries[0].0 == "retired" then [] else [entries[0]]) + Kept(entries[1..])
  }

  /** Filtering distributes over concatenation, so the kept entries keep their relative
      order: what is kept from a part comes out before what is kept from a later part. */
  lemma {:induction false} KeptAppend(a: seq<(string, Json)>, b: seq<(string, Json)>)
    ensures Kept(a + b) == Kept(a) + Kept(b)
    decreases |a|
  {
    if |a| == 0 {
      assert a + b == b;
    } else {
      assert (a + b)[1..] == a[1..] + b;
      KeptAppend(a[1..], b);
    }
  }

  /** The fields of one subject: each kept entry under its sanitised, prefixed name. */
  function SubjectFields(entries: seq<(string, Json)>): (r: seq<Emission>)
    ensures |r| == |Kept(entries)|
    ensures forall k :: 0 <= k < |r| ==>
              r[k] == Emission(SubjectPrefix + SanitizeKey(Kept(entries)[k].0), Same(Kept(entries)[k].1))
  {
    var kept := Kept(entries);
    seq(|kept|, k requires 0 <= k < |kept| => Emission(SubjectPrefix + SanitizeKey(kept[k].0), Same(kept[k].1)))
  }

  /** `extract_subject_data`: the entries of every subject, subject by subject. A document
      that is not an object, or a subject that is not one, is an error. */
  function ExtractSubjectData(doc: Json): (r: Result<seq<Emission>, Flattener.FlattenError>)
    ensures r.Success? <==> doc.JObj? && forall k :: 0 <= k < |doc.fields| ==> doc.fields[k].1.JObj?
    ensures r.Failure? ==> r.error == Flattener.NotAMapping
    ensures r.Success? ==> forall e :: e in r.value ==> StartsWith(e.key, SubjectPrefix) && e.field.Same?
  {
    if !doc.JObj? then Failure(Flattener.NotAMapping) else SubjectsFields(Assoc.Values(doc.fields))
  }

  function SubjectsFields(subjects: seq<Json>): (r: Result<seq<Emission>, Flattener.FlattenError>)
    ensures r.Success? <==> forall k :: 0 <= k < |subjects| ==> subjects[k].JObj?
    ensures r.Failure? ==> r.error == Flattener.NotAMapping
    ensures r.Success? ==> forall e :: e in r.value ==> StartsWith(e.key, SubjectPrefix) && e.field.Same?
  {
    if |subjects| == 0 then Success([])
    else if !subjects[0].JObj? then Failure(Flattener.NotAMapping)
    else
      var rest :- SubjectsFields(subjects[1..]);
      SubjectFieldsShape(subjects[0].fields);
      Success(SubjectFields(subjects[0].fields) + rest)
  }

  /** The fields come subject by subject: those of an earlier group of subjects before those
      of a later one, and the whole fails exactly when a part does. */
  lemma {:induction false} SubjectsFieldsAppend(a: seq<Json>, b: seq<Json>)
    ensures SubjectsFields(a + b).Success? <==> SubjectsFields(a).Success? && SubjectsFields(b).Success?
    ensures SubjectsFields(a + b).Success? ==>
              SubjectsFields(a + b).value == SubjectsFields(a).value + SubjectsFields(b).value
    decreases |a|
  {
    hide SubjectFields, SanitizeKey, StartsWith, IsWordChar;
    if |a| == 0 {
      assert a + b == b;
    } else {
      var ab := a + b;
      assert ab[0] == a[0];
      assert ab[1..] == a[1..] + b;
      SubjectsFieldsAppend(a[1..], b);
      if SubjectsFields(ab).Success? {
        assert SubjectsFields(ab).value == SubjectFields(a[0].fields) + SubjectsFields(a[1..] + b).value;
        assert SubjectsFields(a).value == SubjectFields(a[0].fields) + SubjectsFields(a[1..]).value;
      }
    }
  }

  /** Every subject-data field is named `subject_` followed by word characters, holds the
      subject's value unchanged, and the `retired` entry is never among them. */
  lemma SubjectFieldsShape(entries: seq<(string, Json)>)
    ensures forall e :: e in SubjectFields(entries) ==>
              StartsWith(e.key, SubjectPrefix) && e.field.Same? &&
              (forall c :: c in e.key[|SubjectPrefix|..] ==> IsWordChar(c))
    ensures forall e :: e in SubjectFields(entries) ==> exists k :: 0 <= k < |entries| && entries[k].0 != "retired" && e.field.value == entries[k].1
  {
    var r := SubjectFields(entries);
    forall e | e in r
      ensures StartsWith(e.key, SubjectPrefix) && e.field.Same?
      ensures forall c :: c in e.key[|SubjectPrefix|..] ==> IsWordChar(c)
      ensures exists k :: 0 <= k < |entries| && entries[k].0 != "retired" && e.field.value == entries[k].1
    {
      var i :| 0 <= i < |r| && r[i] == e;
      var kept := Kept(entries)[i];
      var name := SanitizeKey(kept.0);
      assert e.key == SubjectPrefix + name;
      assert e.key[..|SubjectPrefix|] == SubjectPrefix;
      assert e.key[|SubjectPrefix|..] == name;
      var k :| 0 <= k < |entries| && entries[k] == kept;
    }
  }

  /** An entry name made of word characters, not starting or ending with `_`, is kept as
      written after the prefix. */
  lemma CleanSubjectName(entries: seq<(string, Json)>, k: nat)
    requires k < |Kept(entries)|
    requires CleanName(Kept(entries)[k].0)
    ensures SubjectFields(entries)[k].key == SubjectPrefix + Kept(entries)[k].0
  {
    var kept := Kept(entries);
    var name := kept[k].0;
    SanitizeClean(name);
    assert SubjectFields(entries)[k] == Emission(SubjectPrefix + SanitizeKey(name), Same(kept[k].1));
  }

  /** The raw-row columns `extract_misc_data` copies when present. */
  const MiscColumns: seq<string> := ["gold_standard", "expert", "workflow_version"]

  /** `extract_misc_data` over the columns `wanted`: each one present in the raw row becomes
      a no-op field holding the raw text, in the order of `wanted`. */
  function MiscFields(rawRow: seq<(string, string)>, wanted: seq<string>): (r: seq<Emission>)
    ensures |r| <= |wanted|
    ensures forall k :: 0 <= k < |r| ==>
              r[k].key in wanted && Assoc.Lookup(rawRow, r[k].key).Some? &&
              r[k].field == NoOp(JStr(Assoc.Lookup(rawRow, r[k].key).value))
  {
    if |wanted| == 0 then []
    else
      var rest := MiscFields(rawRow, wanted[1..]);
      match Assoc.Lookup(rawRow, wanted[0])
      case None => rest
      case Some(v) => [Emission(wanted[0], NoOp(JStr(v)))] + rest
  }

  /** Every wanted column present in the raw row is copied. */
  lemma {:induction false} MiscFieldsComplete(rawRow: seq<(string, string)>, wanted: seq<string>, c: string)
    requires c in wanted && c in Assoc.Keys(rawRow)
    ensures exists k :: 0 <= k < |MiscFields(rawRow, wanted)| && MiscFields(rawRow, wanted)[k].key == c
  {
    var r := MiscFields(rawRow, wanted);
    var head := MiscHead(rawRow, wanted[0]);
    MiscFieldsStep(rawRow, wanted);
    if wanted[0] == c {
      Assoc.LookupNone(rawRow, c);
      assert r[0] == head[0];
    } else {
      assert c in wanted[1..] by { assert wanted == [wanted[0]] + wanted[1..]; }
      MiscFieldsComplete(rawRow, wanted[1..], c);
      var rest := MiscFields(rawRow, wanted[1..]);
      var k :| 0 <= k < |rest| && rest[k].key == c;
      assert r[|head| + k] == rest[k];
    }
  }

  /** The field `extract_misc_data` copies for the column `c`, if the raw row has it. */
  function MiscHead(rawRow: seq<(string, string)>, c: string): (r: seq<Emission>)
    ensures |r| <= 1
    ensures |r| == 1 <==> Assoc.Lookup(rawRow, c).Some?
  {
    match Assoc.Lookup(rawRow, c)
    case None => []
    case Some(v) => [Emission(c, NoOp(JStr(v)))]
  }

  lemma MiscFieldsStep(rawRow: seq<(string, string)>, wanted: seq<string>)
    requires |wanted| > 0
    ensures MiscFields(rawRow, wanted) == MiscHead(rawRow, wanted[0]) + MiscFields(rawRow, wanted[1..])
  {
  }

  /** Without repeated columns in `wanted`, no column is copied twice. */
  lemma {:induction false} MiscFieldsDistinct(rawRow: seq<(string, string)>, wanted: seq<string>)
    requires forall i, j :: 0 <= i < j < |wanted| ==> wanted[i] != wanted[j]
    ensures forall i, j :: 0 <= i < j < |MiscFields(rawRow, wanted)| ==>
              MiscFields(rawRow, wanted)[i].key != MiscFields(rawRow, wanted)[j].key
  {
    if |wanted| > 0 {
      MiscFieldsDistinct(rawRow, wanted[1..]);
      var rest := MiscFields(rawRow, wanted[1..]);
      var r := MiscFields(rawRow, wanted);
      if Assoc.Lookup(rawRow, wanted[0]).Some? {
        assert r[1..] == rest;
        forall i, j | 0 <= i < j < |r| ensures r[i].key != r[j].key {
          assert r[j] == rest[j - 1];
          if i > 0 {
            assert r[i] == rest[i - 1];
          } else {
            assert rest[j - 1].key in wanted[1..];
          }
        }
      } else {
        assert r == rest;
      }
    }
  }

  /** `extract_misc_data`: the gold-standard, expert and workflow-version columns, each at
      most once and each exactly when the raw row has it. */
  function ExtractMiscData(rawRow: seq<(string, string)>): (r: seq<Emission>)
    ensures forall i, j :: 0 <= i < j < |r| ==> r[i].key != r[j].key
    ensures forall k :: 0 <= k < |r| ==>
              r[k].key in MiscColumns && Assoc.Lookup(rawRow, r[k].key).Some? &&
              r[k].field == NoOp(JStr(Assoc.Lookup(rawRow, r[k].key).value))
    ensures forall c :: c in MiscColumns && c in Assoc.Keys(rawRow) ==> exists k :: 0 <= k < |r| && r[k].key == c
  {
    MiscFieldsDistinct(rawRow, MiscColumns);
    forall c | c in MiscColumns && c in Assoc.Keys(rawRow)
      ensures exists k :: 0 <= k < |MiscFields(rawRow, MiscColumns)| && MiscFields(rawRow, MiscColumns)[k].key == c
    {
      MiscFieldsComplete(rawRow, MiscColumns, c);
    }
    MiscFields(rawRow, MiscColumns)
  }
}
