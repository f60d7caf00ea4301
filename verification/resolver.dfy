/** The workflow-string resolver of `pylib/formats/nfn.py` (`get_workflow_strings`): from a
    workflow's `strings` object and `tasks` tree it builds the instruction labels of every
    parent task path and the decoding of every coded answer value. */
module Resolver {
  import opened Wrappers
  import opened Strs
  import opened JsonValues
  import Assoc

  /** `label_strings`: parent task path -> instruction texts, in document order.
      `value_strings`: coded value -> (its human string, the instruction label it falls under),
      the coded value compared as a dict key is. */
  datatype WorkflowStrings = WorkflowStrings(
    labelStrings: seq<(string, seq<string>)>,
    valueStrings: seq<(HashKey, (string, string))>)

  /** The most recent workflow version's two JSON documents, already parsed. */
  datatype WorkflowDoc = WorkflowDoc(strings: seq<(string, Json)>, tasks: Json)

  datatype ResolverError =
    | InstructionNotText(key: string)   // `value.strip()` on a non-string instruction
    | LabelUnhashable                    // `strings.get(label)` with a list or dict label
    | StringNotText(key: string)         // `string.strip()` on a truthy non-string entry
    | CodeUnhashable                     // a list or dict as a coded value

  const InstructionSuffix := "instruction"

  const NoStrings := WorkflowStrings([], [])

  predicate IsInstructionKey(key: string) {
    EndsWith(key, InstructionSuffix)
  }

  /** `".".join(key.split(".")[:-1])`: the task path an instruction key documents. */
  function InstructionPath(key: string): string {
    DropLastComponent(key)
  }

  /** `".".join(key.split(".")[:-2])`: the path whose label list the instruction joins. */
  function ParentPath(key: string): string {
    var parts := Split(key, '.');
    Join(parts[..if |parts| >= 2 then |parts| - 2 else 0], ".")
  }

  /** The parent path is the instruction path with its own last component dropped. */
  lemma ParentIsGrandparent(key: string)
    ensures ParentPath(key) == DropLastComponent(InstructionPath(key))
  {
    var parts := Split(key, '.');
    if |parts| >= 2 {
      var front := parts[..|parts| - 1];
      SplitJoin(front, '.');
      assert Split(InstructionPath(key), '.') == front;
      assert front[..|front| - 1] == parts[..|parts| - 2];
    } else {
      assert InstructionPath(key) == "";
    }
  }

  /** What the first loop of `get_workflow_strings` has built after some entries. */
  datatype Collected = Collected(
    instructions: seq<(string, string)>,
    labelStrings: seq<(string, seq<string>)>)

  /** `label_strings[key].append(text)` on a defaultdict of lists. */
  function AppendLabel(ls: seq<(string, seq<string>)>, key: string, text: string): seq<(string, seq<string>)> {
    Assoc.Put(ls, key, Assoc.Lookup(ls, key).GetOr([]) + [text])
  }

  /** One iteration of the instruction loop. */
  function CollectStep(c: Collected, key: string, value: Json): Result<Collected, ResolverError> {
    if !IsInstructionKey(key) then Success(c)
    else if !value.JStr? then Failure(InstructionNotText(key))
    else
      var text := Strip(value.s);
      var instructions := Assoc.Put(c.instructions, InstructionPath(key), text);
      var parent := ParentPath(key);
      if parent == "" then Success(Collected(instructions, c.labelStrings))
      else Success(Collected(instructions, AppendLabel(c.labelStrings, parent, text)))
  }

  /** The instruction loop over the `strings` entries, in order. */
  function CollectInstructions(strings: seq<(string, Json)>): Result<Collected, ResolverError>
    decreases |strings|
  {
    if |strings| == 0 then Success(Collected([], []))
    else
      var c :- CollectInstructions(strings[..|strings| - 1]);
      CollectStep(c, strings[|strings| - 1].0, strings[|strings| - 1].1)
  }

  /** Reference: the stripped instruction texts whose parent path is `p`, in document order. */
  function TextsUnder(strings: seq<(string, Json)>, p: string): seq<string>
    decreases |strings|
  {
    if |strings| == 0 then []
    else
      var (k, v) := strings[|strings| - 1];
      TextsUnder(strings[..|strings| - 1], p)
        + (if IsInstructionKey(k) && ParentPath(k) == p && v.JStr? then [Strip(v.s)] else [])
  }

  /** Reference: the stripped text of the last instruction documenting task path `path`. */
  function LastInstruction(strings: seq<(string, Json)>, path: string): Option<string>
    decreases |strings|
  {
    if |strings| == 0 then None
    else
      var (k, v) := strings[|strings| - 1];
      if IsInstructionKey(k) && InstructionPath(k) == path && v.JStr? then Some(Strip(v.s))
      else LastInstruction(strings[..|strings| - 1], path)
  }

  /** The loop fails exactly when some instruction entry is not a string. */
  lemma {:induction false} CollectFails(strings: seq<(string, Json)>)
    ensures CollectInstructions(strings).Failure?
            <==> exists i :: 0 <= i < |strings| && IsInstructionKey(strings[i].0) && !strings[i].1.JStr?
    decreases |strings|
  {
    if |strings| > 0 {
      var front := strings[..|strings| - 1];
      CollectFails(front);
      if exists i :: 0 <= i < |front| && IsInstructionKey(front[i].0) && !front[i].1.JStr? {
        var i :| 0 <= i < |front| && IsInstructionKey(front[i].0) && !front[i].1.JStr?;
        assert strings[i] == front[i];
      }
      if exists i :: 0 <= i < |strings| && IsInstructionKey(strings[i].0) && !strings[i].1.JStr? {
        var i :| 0 <= i < |strings| && IsInstructionKey(strings[i].0) && !strings[i].1.JStr?;
        if i < |front| { assert front[i] == strings[i]; }
      }
    }
  }

  /** `label_strings[p]` holds every instruction text whose parent path is `p`, in document
      order; an empty parent path never gets a list. */
  lemma {:induction false} LabelStringsSpec(strings: seq<(string, Json)>, p: string)
    requires CollectInstructions(strings).Success?
    ensures var ls := CollectInstructions(strings).value.labelStrings;
            Assoc.Lookup(ls, p) == if p == "" || |TextsUnder(strings, p)| == 0 then None
                                  else Some(TextsUnder(strings, p))
    decreases |strings|
  {
    if |strings| > 0 {
      var n := |strings| - 1;
      var front := strings[..n];
      var k, v := strings[n].0, strings[n].1;
      var c := CollectInstructions(front).value;
      LabelStringsSpec(front, p);
      assert CollectInstructions(strings) == CollectStep(c, k, v);
      assert TextsUnder(strings, p) == TextsUnder(front, p)
        + (if IsInstructionKey(k) && ParentPath(k) == p && v.JStr? then [Strip(v.s)] else []);
      if IsInstructionKey(k) && ParentPath(k) != "" {
        var text := Strip(v.s);
        var old_ := Assoc.Lookup(c.labelStrings, ParentPath(k)).GetOr([]);
        Assoc.LookupPut(c.labelStrings, ParentPath(k), old_ + [text], p);
        assert v.JStr?;
        assert CollectInstructions(strings).value.labelStrings == Assoc.Put(c.labelStrings, ParentPath(k), old_ + [text]);
        if ParentPath(k) == p {
          assert v.JStr?;
          assert old_ == TextsUnder(front, p);
          assert TextsUnder(strings, p) == old_ + [text];
          assert Assoc.Lookup(CollectInstructions(strings).value.labelStrings, p) == Some(TextsUnder(strings, p));
        } else {
          assert TextsUnder(strings, p) == TextsUnder(front, p);
          assert Assoc.Lookup(CollectInstructions(strings).value.labelStrings, p) == Assoc.Lookup(c.labelStrings, p);
        }
      } else {
        assert CollectInstructions(strings).value.labelStrings == c.labelStrings;
        assert p != "" ==> TextsUnder(strings, p) == TextsUnder(front, p);
      }
    }
  }

  /** `instructions[path]` is the text of the last instruction documenting `path`. */
  lemma {:induction false} InstructionsSpec(strings: seq<(string, Json)>, path: string)
    requires CollectInstructions(strings).Success?
    ensures Assoc.Lookup(CollectInstructions(strings).value.instructions, path) == LastInstruction(strings, path)
    decreases |strings|
  {
    if |strings| > 0 {
      var front := strings[..|strings| - 1];
      var (k, v) := strings[|strings| - 1];
      InstructionsSpec(front, path);
      var c := CollectInstructions(front).value;
      if IsInstructionKey(k) && v.JStr? {
        Assoc.LookupPut(c.instructions, InstructionPath(k), Strip(v.s), path);
      }
    }
  }

  /** The non-empty parent paths of the instruction entries, in document order. */
  function ParentPaths(strings: seq<(string, Json)>): seq<string>
    decreases |strings|
  {
    if |strings| == 0 then []
    else
      var k := strings[|strings| - 1].0;
      ParentPaths(strings[..|strings| - 1]) + (if IsInstructionKey(k) && ParentPath(k) != "" then [ParentPath(k)] else [])
  }

  /** `label_strings` lists its parent paths in the order the instructions first name them. */
  lemma {:induction false} LabelKeysOrder(strings: seq<(string, Json)>)
    requires CollectInstructions(strings).Success?
    ensures Assoc.Keys(CollectInstructions(strings).value.labelStrings) == Assoc.FirstSeen(ParentPaths(strings))
    decreases |strings|
  {
    if |strings| > 0 {
      var n := |strings| - 1;
      var front := strings[..n];
      var k, v := strings[n].0, strings[n].1;
      var c := CollectInstructions(front).value;
      LabelKeysOrder(front);
      assert CollectInstructions(strings) == CollectStep(c, k, v);
      var pp := ParentPaths(front);
      if IsInstructionKey(k) && ParentPath(k) != "" {
        var p := ParentPath(k);
        assert ParentPaths(strings) == pp + [p];
        assert (pp + [p])[..|pp|] == pp;
        assert CollectInstructions(strings).value.labelStrings == AppendLabel(c.labelStrings, p, Strip(v.s));
        var keys := Assoc.Keys(c.labelStrings);
        assert p in keys <==> p in Assoc.FirstSeen(pp);
      } else {
        assert ParentPaths(strings) == pp + [];
        assert pp + [] == pp;
      }
    }
  }

  /** The instruction label of a coded value: the text of the last instruction whose path
      prefixes the value's label, or "" when none does. */
  function BestLabel(instructions: seq<(string, string)>, target: string): (r: string)
    ensures (forall i :: 0 <= i < |instructions| ==> !StartsWith(target, instructions[i].0)) ==> r == ""
    ensures (exists i :: 0 <= i < |instructions| && StartsWith(target, instructions[i].0))
            ==> exists i :: && 0 <= i < |instructions| && StartsWith(target, instructions[i].0)
                            && r == instructions[i].1
                            && forall j :: i < j < |instructions| ==> !StartsWith(target, instructions[j].0)
  {
    match Assoc.LastWhere(instructions, path => StartsWith(target, path))
    case None => ""
    case Some(i) => instructions[i].1
  }

  type ValueStrings = seq<(HashKey, (string, string))>

  /** A coded node that gets a decoding: its label is a string naming a non-empty string
      entry, and its code can be a dict key. */
  predicate Decodes(code: Json, labelRef: Json, strings: seq<(string, Json)>) {
    && labelRef.JStr? && Get(strings, labelRef.s).Some?
    && Get(strings, labelRef.s).value.JStr? && |Get(strings, labelRef.s).value.s| > 0
    && Hashable(code)
  }

  /** The decoding of such a node: the named string and the best instruction label of the
      label reference, both stripped. */
  function Decoding(labelRef: Json, strings: seq<(string, Json)>, instructions: seq<(string, string)>): (string, string)
    requires labelRef.JStr? && Get(strings, labelRef.s).Some? && Get(strings, labelRef.s).value.JStr?
  {
    (Strip(Get(strings, labelRef.s).value.s), BestLabel(instructions, Strip(labelRef.s)))
  }

  /** The ways the `{value, label}` case raises: a label that cannot be looked up, or one
      naming a truthy entry that is not a string or whose code cannot be a dict key. */
  predicate DecodeFails(code: Json, labelRef: Json, strings: seq<(string, Json)>) {
    || !Hashable(labelRef)
    || (&& labelRef.JStr? && Get(strings, labelRef.s).Some? && Truthy(Get(strings, labelRef.s).value)
        && (!Get(strings, labelRef.s).value.JStr? || !Hashable(code)))
  }

  /** The `{value, label}` case of `_task_dive`. */
  function DecodeNode(code: Json, labelRef: Json, strings: seq<(string, Json)>,
                      instructions: seq<(string, string)>, acc: ValueStrings): (r: Result<ValueStrings, ResolverError>)
    ensures r.Success? && !Decodes(code, labelRef, strings) ==> r.value == acc
    ensures r.Failure? <==> DecodeFails(code, labelRef, strings)
  {
    if !Hashable(labelRef) then Failure(LabelUnhashable)
    else if !labelRef.JStr? then Success(acc)
    else
      match Get(strings, labelRef.s)
      case None => Success(acc)
      case Some(str) =>
        if !Truthy(str) then Success(acc)
        else if !str.JStr? then Failure(StringNotText(labelRef.s))
        else if !Hashable(code) then Failure(CodeUnhashable)
        else Success(Assoc.Put(acc, KeyOf(code), Decoding(labelRef, strings, instructions)))
  }

  /** A decoded node binds its code, as a dict key, to its decoding; every other key keeps
      its value, and a node that does not decode changes nothing. */
  lemma DecodeNodeSpec(code: Json, labelRef: Json, strings: seq<(string, Json)>,
                       instructions: seq<(string, string)>, acc: ValueStrings, k: HashKey)
    requires DecodeNode(code, labelRef, strings, instructions, acc).Success?
    ensures Assoc.Lookup(DecodeNode(code, labelRef, strings, instructions, acc).value, k) ==
              if Decodes(code, labelRef, strings) && KeyOf(code) == k then Some(Decoding(labelRef, strings, instructions))
              else Assoc.Lookup(acc, k)
  {
    if Decodes(code, labelRef, strings) {
      DecodeNodePut(code, labelRef, strings, instructions, acc);
      Assoc.LookupPut(acc, KeyOf(code), Decoding(labelRef, strings, instructions), k);
    }
  }

  lemma DecodeNodePut(code: Json, labelRef: Json, strings: seq<(string, Json)>,
                      instructions: seq<(string, string)>, acc: ValueStrings)
    requires Decodes(code, labelRef, strings)
    ensures DecodeNode(code, labelRef, strings, instructions, acc) ==
              Success(Assoc.Put(acc, KeyOf(code), Decoding(labelRef, strings, instructions)))
  {
    assert Truthy(Get(strings, labelRef.s).value);
  }

  /** Number of children `_task_dive` descends into. */
  function Width(node: Json): nat {
    match node
    case JObj(fields) => |fields|
    case JArr(items) => |items|
    case _ => 0
  }

  predicate IsCodedNode(node: Json) {
    node.JObj? && Has(node.fields, "value") && Has(node.fields, "label")
  }

  /** `_task_dive`: a `{value, label}` mapping is decoded and not descended into; any other
      mapping or list is descended into child by child, in order. */
  function Dive(node: Json, strings: seq<(string, Json)>, instructions: seq<(string, string)>,
                acc: ValueStrings): Result<ValueStrings, ResolverError>
    decreases node, Width(node) + 1
  {
    if IsCodedNode(node) then
      DecodeNode(Get(node.fields, "value").value, Get(node.fields, "label").value, strings, instructions, acc)
    else DiveFrom(node, 0, strings, instructions, acc)
  }

  function DiveFrom(node: Json, i: nat, strings: seq<(string, Json)>, instructions: seq<(string, string)>,
                    acc: ValueStrings): Result<ValueStrings, ResolverError>
    decreases node, Width(node) - i
  {
    if i >= Width(node) then Success(acc)
    else
      var child := if node.JObj? then node.fields[i].1 else node.items[i];
      var acc' :- Dive(child, strings, instructions, acc);
      DiveFrom(node, i + 1, strings, instructions, acc')
  }

  /** `get_workflow_strings`: without a workflow document the lookups are empty.
      As written, the function returns a bare empty dict in that case (line 291), which the
      flattener then reads `label_strings` from; it calls `.items()` on the parsed strings and
      then `.items()` and `.get` on the result (lines 298, 302 and 316), which a dict view
      does not have; and it stores each decoding as the one-entry dict `{string: label}`
      (line 321), which the flattener unpacks as a pair (line 195). The model follows the
      evident intent on all three: empty lookups, `strings` as the parsed object, and each
      code bound to the pair (string, label). */
  function Build(doc: Option<WorkflowDoc>): (r: Result<WorkflowStrings, ResolverError>)
    ensures doc.None? ==> r == Success(WorkflowStrings([], []))
    ensures doc.Some? && CollectInstructions(doc.value.strings).Failure? ==>
              r == Failure(CollectInstructions(doc.value.strings).error)
    ensures doc.Some? && r.Success? ==>
              && CollectInstructions(doc.value.strings).Success?
              && r.value.labelStrings == CollectInstructions(doc.value.strings).value.labelStrings
              && LabelsFromInstructions(r.value.valueStrings, CollectInstructions(doc.value.strings).value.instructions)
    ensures doc.Some? && CollectInstructions(doc.value.strings).Success? ==>
              (r.Success? <==> AllDecode(CodedNodes(doc.value.tasks), doc.value.strings))
  {
    match doc
    case None => Success(NoStrings)
    case Some(d) =>
      var c :- CollectInstructions(d.strings);
      DiveKeepsLabels(d.tasks, d.strings, c.instructions, []);
      DiveDecodesCodedNodes(d.tasks, d.strings, c.instructions, []);
      DecodeAllSucceeds(CodedNodes(d.tasks), d.strings, c.instructions, []);
      var vs :- Dive(d.tasks, d.strings, c.instructions, []);
      Success(WorkflowStrings(c.labelStrings, vs))
  }

  /** A coded node whose label is a list raises, though the instruction pass succeeds. */
  lemma UnhashableLabelFails()
    ensures Build(Some(WorkflowDoc([], JObj([("value", JInt(1)), ("label", JArr([]))])))) == Failure(LabelUnhashable)
  {
    var node := JObj([("value", JInt(1)), ("label", JArr([]))]);
    assert Get(node.fields, "value") == Some(JInt(1));
    assert Get(node.fields, "label") == Some(JArr([]));
    assert IsCodedNode(node);
  }

  // ----- The decodings of a whole task tree -----

  /** Reference: the (value, label) pairs of the `{value, label}` mappings of a task tree,
      in the order `_task_dive` meets them; nothing inside such a mapping is visited. */
  function CodedNodes(node: Json): seq<(Json, Json)>
    decreases node, Width(node) + 1
  {
    if IsCodedNode(node) then [(Get(node.fields, "value").value, Get(node.fields, "label").value)]
    else CodedFrom(node, 0)
  }

  function CodedFrom(node: Json, i: nat): seq<(Json, Json)>
    decreases node, Width(node) - i
  {
    if i >= Width(node) then []
    else
      var child := if node.JObj? then node.fields[i].1 else node.items[i];
      CodedNodes(child) + CodedFrom(node, i + 1)
  }

  /** Reference: decoding the pairs one after another. */
  function DecodeAll(pairs: seq<(Json, Json)>, strings: seq<(string, Json)>, instructions: seq<(string, string)>,
                     acc: ValueStrings): Result<ValueStrings, ResolverError>
    decreases |pairs|
  {
    if |pairs| == 0 then Success(acc)
    else
      var acc' :- DecodeNode(pairs[0].0, pairs[0].1, strings, instructions, acc);
      DecodeAll(pairs[1..], strings, instructions, acc')
  }

  /** No `{value, label}` pair raises. */
  predicate AllDecode(pairs: seq<(Json, Json)>, strings: seq<(string, Json)>) {
    forall k :: 0 <= k < |pairs| ==> !DecodeFails(pairs[k].0, pairs[k].1, strings)
  }

  /** Decoding a run of pairs succeeds exactly when none of them raises, whatever was
      decoded before. */
  lemma {:induction false} DecodeAllSucceeds(pairs: seq<(Json, Json)>, strings: seq<(string, Json)>,
                                             instructions: seq<(string, string)>, acc: ValueStrings)
    ensures DecodeAll(pairs, strings, instructions, acc).Success? <==> AllDecode(pairs, strings)
    decreases |pairs|
  {
    if |pairs| > 0 {
      var r := DecodeNode(pairs[0].0, pairs[0].1, strings, instructions, acc);
      assert forall k :: 1 <= k < |pairs| ==> pairs[k] == pairs[1..][k - 1];
      if r.Success? {
        DecodeAllSucceeds(pairs[1..], strings, instructions, r.value);
      }
    }
  }

  /** Decoding two runs of pairs is decoding the first, then the second. */
  lemma {:induction false} DecodeAllAppend(a: seq<(Json, Json)>, b: seq<(Json, Json)>, strings: seq<(string, Json)>,
                                           instructions: seq<(string, string)>, acc: ValueStrings)
    ensures DecodeAll(a + b, strings, instructions, acc) ==
              match DecodeAll(a, strings, instructions, acc)
              case Failure(e) => Failure(e)
              case Success(mid) => DecodeAll(b, strings, instructions, mid)
    decreases |a|
  {
    if |a| == 0 {
      assert a + b == b;
    } else {
      assert (a + b)[0] == a[0];
      assert (a + b)[1..] == a[1..] + b;
      var r := DecodeNode(a[0].0, a[0].1, strings, instructions, acc);
      if r.Success? {
        DecodeAllAppend(a[1..], b, strings, instructions, r.value);
      }
    }
  }

  /** `_task_dive` decodes exactly the `{value, label}` mappings of the tree, in order. */
  lemma {:induction false} DiveDecodesCodedNodes(node: Json, strings: seq<(string, Json)>,
                                                 instructions: seq<(string, string)>, acc: ValueStrings)
    ensures Dive(node, strings, instructions, acc) == DecodeAll(CodedNodes(node), strings, instructions, acc)
    decreases node, Width(node) + 1
  {
    if IsCodedNode(node) {
      var pair := (Get(node.fields, "value").value, Get(node.fields, "label").value);
      assert CodedNodes(node) == [pair];
      assert [pair][1..] == [];
    } else {
      DiveFromDecodes(node, 0, strings, instructions, acc);
    }
  }

  lemma {:induction false} DiveFromDecodes(node: Json, i: nat, strings: seq<(string, Json)>,
                                           instructions: seq<(string, string)>, acc: ValueStrings)
    ensures DiveFrom(node, i, strings, instructions, acc) == DecodeAll(CodedFrom(node, i), strings, instructions, acc)
    decreases node, Width(node) - i
  {
    if i < Width(node) {
      var child := if node.JObj? then node.fields[i].1 else node.items[i];
      DiveDecodesCodedNodes(child, strings, instructions, acc);
      DecodeAllAppend(CodedNodes(child), CodedFrom(node, i + 1), strings, instructions, acc);
      var r := Dive(child, strings, instructions, acc);
      if r.Success? {
        DiveFromDecodes(node, i + 1, strings, instructions, r.value);
      }
    }
  }

  /** Reference: the decoding of the last pair that decodes to dict key `k`, if any. */
  function LastDecoding(pairs: seq<(Json, Json)>, k: HashKey, strings: seq<(string, Json)>,
                        instructions: seq<(string, string)>): Option<(string, string)>
    decreases |pairs|
  {
    if |pairs| == 0 then None
    else
      match LastDecoding(pairs[1..], k, strings, instructions)
      case Some(d) => Some(d)
      case None =>
        var (code, labelRef) := pairs[0];
        if Decodes(code, labelRef, strings) && KeyOf(code) == k then Some(Decoding(labelRef, strings, instructions))
        else None
  }

  /** After decoding a run of pairs, a key holds the decoding of the last pair with that key,
      or what it held before when no pair has it. */
  lemma {:induction false} DecodeAllLookup(pairs: seq<(Json, Json)>, strings: seq<(string, Json)>,
                                           instructions: seq<(string, string)>, acc: ValueStrings, k: HashKey)
    requires DecodeAll(pairs, strings, instructions, acc).Success?
    ensures Assoc.Lookup(DecodeAll(pairs, strings, instructions, acc).value, k) ==
              match LastDecoding(pairs, k, strings, instructions)
              case Some(d) => Some(d)
              case None => Assoc.Lookup(acc, k)
    decreases |pairs|
  {
    if |pairs| > 0 {
      var (code, labelRef) := pairs[0];
      var mid := DecodeNode(code, labelRef, strings, instructions, acc).value;
      DecodeAllLookup(pairs[1..], strings, instructions, mid, k);
      DecodeNodeSpec(code, labelRef, strings, instructions, acc, k);
    }
  }

  /** The decodings of a whole workflow: a coded value holds the string and label of the
      last `{value, label}` mapping of the task tree that decodes to it, and nothing when
      none does. */
  lemma BuildValueStrings(d: WorkflowDoc, k: HashKey)
    requires Build(Some(d)).Success?
    ensures CollectInstructions(d.strings).Success?
    ensures Assoc.Lookup(Build(Some(d)).value.valueStrings, k) ==
              LastDecoding(CodedNodes(d.tasks), k, d.strings, CollectInstructions(d.strings).value.instructions)
  {
    var c := CollectInstructions(d.strings).value;
    DiveDecodesCodedNodes(d.tasks, d.strings, c.instructions, []);
    DecodeAllLookup(CodedNodes(d.tasks), d.strings, c.instructions, [], k);
  }

  /** Every decoded label is "" or the text of some instruction. */
  ghost predicate LabelsFromInstructions(vs: ValueStrings, instructions: seq<(string, string)>) {
    forall i :: 0 <= i < |vs| ==> vs[i].1.1 == "" || vs[i].1.1 in Assoc.Values(instructions)
  }

  lemma DecodeKeepsLabels(code: Json, labelRef: Json, strings: seq<(string, Json)>,
                          instructions: seq<(string, string)>, acc: ValueStrings)
    requires LabelsFromInstructions(acc, instructions)
    ensures DecodeNode(code, labelRef, strings, instructions, acc).Success?
            ==> LabelsFromInstructions(DecodeNode(code, labelRef, strings, instructions, acc).value, instructions)
  {
    var r := DecodeNode(code, labelRef, strings, instructions, acc);
    if r.Success? && Decodes(code, labelRef, strings) {
      var entry := Decoding(labelRef, strings, instructions);
      DecodeNodePut(code, labelRef, strings, instructions, acc);
      var l := entry.1;
      assert l == "" || l in Assoc.Values(instructions);
      forall i | 0 <= i < |r.value|
        ensures r.value[i].1.1 == "" || r.value[i].1.1 in Assoc.Values(instructions)
      {
        Assoc.PutEntries(acc, KeyOf(code), entry, i);
        if r.value[i] != (KeyOf(code), entry) {
          var j :| 0 <= j < |acc| && acc[j] == r.value[i];
        }
      }
    }
  }

  /** Every label the resolver records is empty or the text of one of the instructions. */
  lemma DiveKeepsLabels(node: Json, strings: seq<(string, Json)>, instructions: seq<(string, string)>,
                        acc: ValueStrings)
    requires LabelsFromInstructions(acc, instructions)
    ensures Dive(node, strings, instructions, acc).Success?
            ==> LabelsFromInstructions(Dive(node, strings, instructions, acc).value, instructions)
    decreases node, Width(node) + 1
  {
    if IsCodedNode(node) {
      DecodeKeepsLabels(Get(node.fields, "value").value, Get(node.fields, "label").value, strings, instructions, acc);
    } else {
      DiveFromKeepsLabels(node, 0, strings, instructions, acc);
    }
  }

  lemma DiveFromKeepsLabels(node: Json, i: nat, strings: seq<(string, Json)>, instructions: seq<(string, string)>,
                            acc: ValueStrings)
    requires LabelsFromInstructions(acc, instructions)
    ensures DiveFrom(node, i, strings, instructions, acc).Success?
            ==> LabelsFromInstructions(DiveFrom(node, i, strings, instructions, acc).value, instructions)
    decreases node, Width(node) - i
  {
    if i < Width(node) {
      var child := if node.JObj? then node.fields[i].1 else node.items[i];
      DiveKeepsLabels(child, strings, instructions, acc);
      var r := Dive(child, strings, instructions, acc);
      if r.Success? {
        DiveFromKeepsLabels(node, i + 1, strings, instructions, r.value);
      }
    }
  }
}
