# Notes from Nature transcription readers, modelled in Dafny

This project models the core of the reconciliation tool's input readers and of its
line-length column type:

- **The Notes from Nature classification reader** (`pylib/formats/nfn.py`):
  - `get_workflow_strings` resolves coded answers through the workflow's strings and
    tasks documents (module `Resolver`).
  - The annotation flattener turns each nested annotation into the ordered `add_field`
    calls of typed fields (module `Flattener`).
  - Each field is filed under a task-qualified key (`get_key`) (module `Keys`).
  - Module `NfnExtract` covers the subject-data and miscellaneous-column extractors.
  - Module `Keys` also covers the workflow-name clean-up and the subject-id group key.
- **The generic table reader** (`pylib/formats/common.py`): `validate_columns` parses the
  `name:type` declarations, and `read_table` turns a CSV/JSON table, sorted by its
  group-by column, into rows of typed fields (module `Common`).
- **The length column type** (`pylib/column_types/length.py`):
  - `SCALE_RE` is modelled as a regular-expression search (module `Scale`).
  - `reconcile` averages the line records of a group and measures the mean line
    (module `LengthType`).
  - `reconcile_row` converts the pixel-length fields of a reconciled row to the units
    of its scale bar (module `LengthRow`).

Supporting modules:

| module | holds |
|---|---|
| `Wrappers` | `Option` and `Result` |
| `Strs` | Python's string built-ins |
| `WordChars` | Python's Unicode `\w` |
| `Assoc` | insertion-ordered dicts as association lists |
| `JsonValues` | parsed JSON, `bool()`, `round()` and dict-key equality |
| `Fields` | the typed field values and the `add_field` call |

Python exceptions and `error_exit` calls are modelled as the `Failure` of a `Result`.
Each error variant names the exception's cause.

Things the readers get from outside are parameters:

| parameter | stands for | constrained by |
|---|---|---|
| `parse` | `json.loads` of a cell | — |
| `show` | `str()` in an f-string | `JsonValues.IsPyStr` |
| `sqrt` | `math.sqrt` | `LengthType.IsSqrt`, where a lemma needs it |
| `plural` | inflect's `P` | — |

## Model

| member | source | states |
|---|---|---|
| JsonValues.AsNumber | pylib/formats/nfn.py:139-142 | the value `round` and `+` accept is defined exactly for ints, floats and booleans; an int is its own value, and the value is non-zero exactly when the JSON value is truthy |
| JsonValues.RoundSpec | pylib/formats/nfn.py:139 | `round(x)` is an integer at most half a unit from `x`, and on an exact tie it is the even neighbour |
| JsonValues.KeyOf | pylib/formats/nfn.py:194 | a dict key compares numerically exactly when the value is a number (bool, int or float), by that number |
| JsonValues.KeyOfEquality | pylib/formats/nfn.py:194 | string keys match only equal strings, and ints only equal ints; `True`, `1` and `1.0` are one key, as are `False`, `0` and `0.0` |
| JsonValues.Iterate | pylib/formats/nfn.py:185 | `for … in` fails exactly on null, booleans and numbers; a list yields its items, and the iteration is empty exactly when the value is falsy |
| Strs.Strip | pylib/formats/nfn.py:218 | `str.strip()` is no longer than its input and neither starts nor ends with whitespace |
| Strs.StripSlice | pylib/formats/nfn.py:218 | `str.strip()` is a slice of its input with only whitespace cut off before it and after it |
| Strs.StripIdempotent | pylib/formats/nfn.py:205-206 | stripping a stripped string changes nothing, so `get_key` of an already-stripped label keeps it |
| Strs.Split | pylib/formats/nfn.py:304 | `str.split(sep)` gives at least one part, no part holds the separator, and joining the parts with the separator gives back the input |
| Strs.SplitJoin | pylib/formats/nfn.py:304-305 | splitting a join of separator-free parts gives back the parts |
| Strs.SortStrings | pylib/formats/nfn.py:118 | `sorted` of strings is ordered by code point and is a permutation of its input |
| Strs.ReplaceAbsent | pylib/column_types/length.py:56 | `str.replace` leaves a string without the pattern unchanged |
| Strs.ReplaceRemoves | pylib/column_types/length.py:56 | after `str.replace` with a replacement sharing no character with the pattern, the pattern no longer occurs |
| Strs.IntToString | pylib/formats/nfn.py:218 | `str()` of an int is a minus sign exactly for negatives, followed by decimal digits whose value is the magnitude and that have no leading zero |
| Assoc.LookupPut | pylib/formats/common.py:38 | after `d[k] = v`, `d[k]` is `v`, and every other key keeps its value |
| Assoc.LookupPutAll | pylib/column_types/length.py:54-57 | after a series of assignments, a key holds its last assigned value, or its old one if it was never assigned |
| Assoc.KeysPutAll | pylib/column_types/length.py:57 | assignments keep the existing keys in order, append new keys at the end, and keep keys distinct |
| Assoc.PutAllIdempotent | pylib/column_types/length.py:57 | repeating the same assignments changes nothing |
| Resolver.ParentIsGrandparent | pylib/formats/nfn.py:304-308 | the label-strings path of an instruction key is the parent of its instruction path |
| Resolver.CollectFails | pylib/formats/nfn.py:302-306 | the instruction pass fails exactly when some key ending in `instruction` holds a non-string |
| Resolver.LabelStringsSpec | pylib/formats/nfn.py:301-310 | `label_strings[p]` holds, in document order, the stripped instructions two levels below `p`; there is no entry for the empty path or for a path without such instructions |
| Resolver.InstructionsSpec | pylib/formats/nfn.py:300-307 | `instructions[path]` is the stripped text of the last instruction key with that path |
| Resolver.LabelKeysOrder | pylib/formats/nfn.py:301-310 | the keys of `label_strings` are the non-empty parent paths in order of first appearance, as the `defaultdict` creates them |
| Resolver.BestLabel | pylib/formats/nfn.py:319-320 | the label is the instruction text of the last instruction path that prefixes the target, or empty when none does |
| Resolver.DecodeNode | pylib/formats/nfn.py:315-321 | a `{value, label}` node raises exactly when its label is unhashable, or when its label names a truthy entry that is not text or its code is unhashable; a node that does not decode changes nothing |
| Resolver.DecodeNodeSpec | pylib/formats/nfn.py:315-321 | a decoded node binds its code, compared by Python `==`, to the stripped string and its best instruction label; every other key keeps its value |
| Resolver.DiveDecodesCodedNodes | pylib/formats/nfn.py:313-327 | `_task_dive` equals decoding, in order, the `{value, label}` mappings found depth-first through dict values and list items, without descending into a matched mapping |
| Resolver.DecodeAllLookup | pylib/formats/nfn.py:321 | after decoding a list of nodes, a key holds the decoding of the last node with that code that decodes, or its old value |
| Resolver.BuildValueStrings | pylib/formats/nfn.py:298-332 | with a workflow document, `value_strings[k]` is the decoding of the last coded node of the task tree whose code equals `k` and whose label names a non-empty string |
| Resolver.DiveKeepsLabels | pylib/formats/nfn.py:319-321 | every label stored in `value_strings` is one of the instruction texts or empty |
| Resolver.Build | pylib/formats/nfn.py:289-332 | without a workflow document both lookups are empty; with one, it fails when the instruction pass fails, and otherwise succeeds exactly when no `{value, label}` node of the task tree raises; on success `label_strings` is the instruction pass's and every label stored in `value_strings` is an instruction text or empty |
| Resolver.DecodeAllSucceeds | pylib/formats/nfn.py:315-321 | decoding a run of coded nodes succeeds exactly when none of them raises |
| Resolver.UnhashableLabelFails | pylib/formats/nfn.py:315-316 | a coded node whose label is a list raises, although the instruction pass succeeds |
| Keys.GetKey | pylib/formats/nfn.py:217-218 | every key starts with `~<task id>~ ` |
| Keys.KeyRoundTrip | pylib/formats/nfn.py:217-218 | a key reads back as its task id and its stripped label when the id has no `~` |
| Keys.KeysDistinct | pylib/formats/nfn.py:217-218 | when neither task id has `~`, two keys are equal exactly when their task ids and stripped labels are |
| Keys.ReplaceNonWordRuns | pylib/formats/nfn.py:234 | the substitution leaves only word characters and never lengthens the name |
| Keys.ReplaceKeepsWords | pylib/formats/nfn.py:234 | a name of word characters is unchanged by the substitution |
| Keys.ReplaceKeepsEnds | pylib/formats/nfn.py:234 | a word character at either end of the name survives the substitution at that end |
| Keys.ReplaceWordRun | pylib/formats/nfn.py:234 | a leading run of word characters is copied unchanged and the substitution goes on after it |
| Keys.DropNonWordRun | pylib/formats/nfn.py:234 | the run of non-word characters the pattern consumes is the whole run, up to the next word character |
| Keys.NonWordRun | pylib/formats/nfn.py:234 | a leading run of non-word characters becomes exactly one `_` |
| Keys.WordThenNonWordRun | pylib/formats/nfn.py:234 | a word run followed by a non-word run becomes the word run and one `_`, and the rest is substituted on its own |
| Keys.SanitizeKey | pylib/formats/nfn.py:234-235 | the column name is no longer than the key, consists of word characters, and does not start with `_` |
| Keys.SanitizeClean | pylib/formats/nfn.py:234-235 | a name of word characters that neither starts nor ends with `_` is kept as it is |
| Keys.SanitizeAccented | pylib/formats/nfn.py:234 | `\w` is Unicode-aware: `café` is kept whole |
| Keys.SanitizeNoWordChars | pylib/formats/nfn.py:234-235 | a key of non-word characters only becomes the empty name |
| Keys.UnderscoreEnds | pylib/formats/nfn.py:234-235 | for a word-character name, every leading `_` is dropped and at most one trailing `_` |
| Keys.UnderscoreEndsExample | pylib/formats/nfn.py:235 | `__a__` becomes `a_`: only one trailing `_` goes |
| Keys.StripWorkflowPrefix | pylib/formats/nfn.py:281 | a name without `_` is kept; otherwise the result is what follows the first `_` |
| Keys.GroupKey | pylib/formats/nfn.py:53 | the group key is the longest comma-free prefix of the subject ids |
| Flattener.ClassifyFirstMatch | pylib/formats/nfn.py:89-107 | an annotation takes a case exactly when that case's pattern matches and no earlier pattern does |
| Flattener.Flatten | pylib/formats/nfn.py:85-87 | an annotation that is not a mapping fails; every field of one that flattens has a task-qualified key |
| Flattener.Dispatch | pylib/formats/nfn.py:89-107 | an annotation that matches no pattern adds no field, and every field of a matched one has a task-qualified key |
| Flattener.FlattenEach | pylib/formats/nfn.py:113-114 | every field of a flattened subtask list has a task-qualified key |
| Flattener.FlattenAll | pylib/formats/nfn.py:81-82 | annotations that cannot be iterated fail; otherwise the list flattens exactly when each annotation does, and every key is task-qualified |
| Flattener.QualifiedAppend | pylib/formats/nfn.py:81-82 | joining two lists of task-qualified fields keeps them task-qualified |
| Flattener.NumberAt | pylib/formats/nfn.py:139-142 | a coordinate is read exactly when the member is present and numeric; otherwise the error says whether it was missing or not a number |
| Flattener.BoxGeometry | pylib/formats/nfn.py:138-143 | a box is built exactly when `x`, `width`, `y` and `height` are numbers |
| Flattener.LengthGeometry | pylib/formats/nfn.py:150-155 | a line is built exactly when `x1`, `y1`, `x2` and `y2` are numbers |
| Flattener.PointGeometry | pylib/formats/nfn.py:162-165 | a point is built exactly when `x` and `y` are numbers |
| Flattener.BoxSpec | pylib/formats/nfn.py:135-144 | a box is built exactly when `x`, `width`, `y` and `height` are numbers; each edge is `round` of its sum, and whole inputs give an extent equal to the width and height |
| Flattener.LengthSpec | pylib/formats/nfn.py:147-156 | a length is built exactly when the four endpoints are numbers, and each is rounded |
| Flattener.PointSpec | pylib/formats/nfn.py:159-166 | a point is built exactly when `x` and `y` are numbers, and each is rounded |
| Flattener.ToolAnnotation | pylib/formats/nfn.py:135-166 | a tool annotation succeeds exactly when its label is text and its geometry builds, and gives one field of that geometry under the tool label's key |
| Flattener.DetailLabels | pylib/formats/nfn.py:178-182 | choosing the detail labels fails exactly when there are label strings and the task id is not a string, since `startswith` then raises |
| Flattener.ItemEntry | pylib/formats/nfn.py:192-202 | an item decodes exactly when it is a mapping with a hashable `value`; a known code shows its decoded string and instruction label, and an unknown one shows itself with the item's label or `unknown` |
| Flattener.DecodeItems | pylib/formats/nfn.py:190-202 | every item decodes, in order, and the label the loop leaves is that of the last item, or the incoming label when there are no items |
| Flattener.Answers | pylib/formats/nfn.py:204 | the answers kept are non-empty strings taken from the values |
| Flattener.JoinTruthy | pylib/formats/nfn.py:204 | the join succeeds exactly when every truthy value is a string, and then it is the comma-join of the non-empty answers |
| Flattener.TruthyOnly | pylib/formats/nfn.py:204 | the filter keeps exactly the truthy values |
| Flattener.TruthyStrings | pylib/formats/nfn.py:204 | the kept truthy strings are exactly the answers |
| Flattener.JoinTruthySplit | pylib/formats/nfn.py:204 | the joined value is empty exactly when there are no answers, and splitting it on commas gives back the answers when none holds a comma |
| Flattener.DetailKey | pylib/formats/nfn.py:205-206 | a detail key is filed under the annotation's task id |
| Flattener.DetailsFromAt | pylib/formats/nfn.py:185-214 | the k-th detail field is the k-th detail emitted with the label the loop holds then: `unknown` before the first detail, and after it the key of the previous field |
| Flattener.DetailAt | pylib/formats/nfn.py:185-214 | the same, for the whole details list |
| Flattener.DetailsKeyed | pylib/formats/nfn.py:205-213 | every detail field is a text field filed under the annotation's task id |
| Flattener.DetailScalar | pylib/formats/nfn.py:210-214 | a single-value detail is filed under the tool label joined to its own label (`unknown` past the end of the labels) and shows its value unchanged |
| Flattener.MultiSelectSpec | pylib/formats/nfn.py:189-207 | a multi-select detail shows the comma-join of its decoded answers, filed under the tool label joined to the label its last item leaves |
| Flattener.WorkflowAnnotation | pylib/formats/nfn.py:169-214 | every field of a details annotation is filed under its task id |
| Flattener.FlattenEachAppend | pylib/formats/nfn.py:81-82 | flattening a list of annotations fails exactly when a part fails, and otherwise concatenates their fields in order |
| Flattener.FlattenEachSuccess | pylib/formats/nfn.py:110-114 | a subtask list flattens exactly when each of its subtasks does |
| Flattener.TaskOverride | pylib/formats/nfn.py:87 | an annotation's own `task` replaces the inherited task id |
| Flattener.InheritedKeys | pylib/formats/nfn.py:85-114 | nested annotations without their own `task` file every field under the inherited task id |
| Flattener.ListAnnotation | pylib/formats/nfn.py:117-120 | a list annotation succeeds exactly when its values are all strings and its task label is text; unsortable values fail as such; its one field is filed under the task label |
| Flattener.SelectLabelAnnotation | pylib/formats/nfn.py:123-127 | a select annotation succeeds exactly when its select label is text, and gives one field under that label |
| Flattener.TaskLabelAnnotation | pylib/formats/nfn.py:130-132 | a task-label annotation succeeds exactly when its task label is text, and gives one field under that label |
| Flattener.ListSpec | pylib/formats/nfn.py:117-120 | a list of strings succeeds exactly when every value is a string and the task label is text; its one text field holds the values sorted, as a permutation joined with spaces |
| Flattener.SelectSpec | pylib/formats/nfn.py:123-127 | a select annotation gives one select field under its key, showing its `label` when `option` is truthy and its `value` otherwise, each defaulting to empty |
| Flattener.TaskLabelSpec | pylib/formats/nfn.py:130-132 | a task-label annotation gives one text field of its `value` (empty by default) under its key |
| Flattener.BoxAnnotationSpec | pylib/formats/nfn.py:98-99 | a box annotation succeeds exactly when its tool label is text and its box builds, and gives exactly that box under its key |
| Flattener.LengthAnnotationSpec | pylib/formats/nfn.py:100-101 | the same for a length annotation and its line |
| Flattener.PointAnnotationSpec | pylib/formats/nfn.py:102-103 | the same for a point annotation and its point |
| Flattener.LeafKeyReadsBack | pylib/formats/nfn.py:85-166 | a leaf annotation gives one field whose key reads back as its task id and its stripped label |
| Flattener.UnmatchedSkipped | pylib/formats/nfn.py:106-107 | an annotation that matches no pattern adds no field |
| Flattener.IntegerTaskId | pylib/formats/nfn.py:87 | an integer task id is filed under its decimal digits, as `str()` formats it |
| NfnExtract.Kept | pylib/formats/nfn.py:232-233 | the subject entries kept are exactly those other than `retired` |
| NfnExtract.KeptAppend | pylib/formats/nfn.py:232-233 | the filter distributes over concatenation, so kept entries keep their relative order |
| NfnExtract.SubjectFieldsShape | pylib/formats/nfn.py:231-236 | every subject field is a same-field named `subject_` and word characters, and holds the value of an entry other than `retired` |
| NfnExtract.SubjectsFields | pylib/formats/nfn.py:231-232 | reading the subjects fails, as not a mapping, exactly when one of them is not a mapping; every field is a same-field named `subject_…` |
| NfnExtract.SubjectsFieldsAppend | pylib/formats/nfn.py:231-236 | subjects read one after another: a list reads exactly when both its parts do, giving the fields of the first part, then those of the second |
| NfnExtract.ExtractSubjectData | pylib/formats/nfn.py:229-236 | the subject data reads exactly when it is a mapping of mappings, fails as not a mapping otherwise, and gives same-fields named `subject_…` |
| NfnExtract.CleanSubjectName | pylib/formats/nfn.py:234-236 | a clean key is used unchanged after the prefix |
| NfnExtract.MiscFields | pylib/formats/nfn.py:252-256 | every misc field is a wanted column present in the row, holding that cell |
| NfnExtract.MiscFieldsComplete | pylib/formats/nfn.py:254-256 | every wanted column present in the row gives a field |
| NfnExtract.MiscFieldsDistinct | pylib/formats/nfn.py:253-256 | distinct wanted columns give distinct field keys |
| NfnExtract.ExtractMiscData | pylib/formats/nfn.py:252-256 | the misc fields are exactly the present `gold_standard`, `expert` and `workflow_version` cells, each once |
| Common.ParseType | pylib/formats/common.py:35-36 | a type name is accepted exactly when it is one of the seven types |
| Common.TypeNameRoundTrip | pylib/formats/common.py:35 | every column type is accepted under its own name |
| Common.ParseEntry | pylib/formats/common.py:28-38 | an accepted declaration is a known column, a colon and a valid type; a declaration fails as malformed exactly when it does not split into two parts |
| Common.ParseEntryRoundTrip | pylib/formats/common.py:30-38 | a colon-free column name and a type, joined by a colon, parse back to themselves |
| Common.Rejected | pylib/formats/common.py:40-41 | one error is collected per rejected declaration, and none exactly when every declaration parses |
| Common.ValidateColumns | pylib/formats/common.py:16-46 | validation succeeds exactly when every comma-separated declaration parses; otherwise all errors are reported; a result has distinct keys, all of them columns |
| Common.ValidatedLastWins | pylib/formats/common.py:38 | a column declared twice takes its last declared type |
| Common.NoDeclarations | pylib/formats/common.py:18-30 | with no declarations the single empty entry fails as malformed |
| Common.CellField | pylib/formats/common.py:74-114 | a cell that converts becomes a field of its column's type |
| Common.EmptyBox | pylib/formats/common.py:78-79 | an empty box cell is the zero box |
| Common.EmptyLength | pylib/formats/common.py:89-90 | an empty length cell is the zero line |
| Common.EmptyPoint | pylib/formats/common.py:101 | an empty point cell is the zero point |
| Common.GeometryCell | pylib/formats/common.py:74-105 | a geometry cell is built from its parsed object exactly as an annotation's geometry is |
| Common.GeometryNotObject | pylib/formats/common.py:77 | a non-empty geometry cell that does not parse to an object fails |
| Common.Others | pylib/formats/common.py:68-70 | the columns visited after the group-by field are exactly the other columns |
| Common.OthersAppend | pylib/formats/common.py:68-70 | the filter distributes over concatenation, so the other columns keep their relative order |
| Common.OtherFieldsKinds | pylib/formats/common.py:68-114 | each other column gives a field named after it, of its declared type or `noop` |
| Common.OtherFields | pylib/formats/common.py:68-114 | the column loop succeeds exactly when every non-group cell converts under its column's type, gives one field per other column, and otherwise fails with a bad cell |
| Common.OtherFieldsFirstError | pylib/formats/common.py:68-114 | a failing row reports the first cell, in column order, that does not convert, with that cell's own error |
| Common.ColumnField | pylib/formats/common.py:68-72 | the group-by column gives no field here, and any other column gives one of its type |
| Common.RowFields | pylib/formats/common.py:60-114 | each row starts with a same-field of its group-by cell; it converts exactly when every other cell does, and otherwise fails with a bad cell |
| Common.RowFieldsKinds | pylib/formats/common.py:60-114 | the rest of the row is one typed field per other column, in column order |
| Common.TableOrder | pylib/formats/common.py:54 | the rows are a permutation of the input, sorted by the group-by cell |
| Common.TableRowsConvert | pylib/formats/common.py:60-116 | the rows convert exactly when each row does; otherwise the error is a bad cell |
| Common.ReadTable | pylib/formats/common.py:49-118 | reading fails with the validation errors, or when the group-by column is missing; with valid declarations and the group-by column it succeeds exactly when every row of the sorted rows converts, and otherwise fails with a bad cell, as reading or rounding a geometry cell raises; a table has one row per input row, each the fields of the sorted rows |
| Common.ReadTableOrder | pylib/formats/common.py:54-65 | the rows of the table come in order of their group values |
| LengthType.Lines | pylib/column_types/length.py:20 | every line has a truthy `x1`, there are no more lines than records, and there are none exactly when no record is an object with a truthy `x1` |
| LengthType.Column | pylib/column_types/length.py:34-37 | a coordinate column is read exactly when every line has that coordinate as a number, and it lists them in order |
| LengthType.SquaredLength | pylib/column_types/length.py:34-39 | the squared mean length is defined exactly when the four columns read, and it is non-negative |
| LengthType.MeanBetween | pylib/column_types/length.py:34-37 | `statistics.mean` lies between any lower and any upper bound of its values |
| LengthType.MeanDiffs | pylib/column_types/length.py:34-39 | the difference of two means over equally many values is the mean of the pointwise differences |
| LengthType.SquaredLengthOfDisplacements | pylib/column_types/length.py:34-39 | the squared length is the square of the mean of `x1 - x2` plus the square of the mean of `y1 - y2`, line by line |
| LengthType.Reconcile | pylib/column_types/length.py:17-39 | a group fails as not a record exactly when a record is not an object; with no line it is an empty cell with the "no lines" note; with lines it succeeds exactly when the squared mean length is defined, and otherwise fails because a line lacks a coordinate or holds a non-number; a success is the square root of the squared mean length with the count note |
| LengthType.MissingEndFails | pylib/column_types/length.py:20-35 | a line with `x1` but no `y1` fails as a missing `y1` |
| LengthType.ReconcileLength | pylib/column_types/length.py:39 | with a true square root, the length is the non-negative root of the squared mean length |
| LengthType.SingleLine | pylib/column_types/length.py:17-39 | a group with one line measures that line's segment |
| LengthType.SwapEndpoints | pylib/column_types/length.py:34-39 | when each record's `x1` and `x2` are truthy together, swapping the two endpoints of every record does not change the result |
| LengthType.ZeroStartIsNoLine | pylib/column_types/length.py:20 | a line starting at `x1 = 0` is not counted, since `0` is falsy |
| LengthType.ThreeFourFive | pylib/column_types/length.py:17-39 | a 3-4-5 line measures 5 |
| Scale.UnitEnd | pylib/column_types/length.py:12 | the unit after the scale is `mm`, `cm`, `dm` or `m` in any case, followed by a word boundary, and it is the only such unit there |
| Scale.MatchAt | pylib/column_types/length.py:11-14 | a match has a non-empty scale of digits and dots and a unit |
| Scale.MatchAtSound | pylib/column_types/length.py:11-14 | a match found at a position is a match of the expression there |
| Scale.MatchAtComplete | pylib/column_types/length.py:11-14 | a match of the expression at a position is the one found there |
| Scale.FirstMatch | pylib/column_types/length.py:46 | the search returns the leftmost position with a match |
| Scale.Search | pylib/column_types/length.py:11-14 | a match found has a non-empty scale of digits and dots and a unit |
| Scale.SearchFindsLeftmost | pylib/column_types/length.py:46 | `SCALE_RE.search` finds the leftmost match of the expression |
| Scale.SearchNone | pylib/column_types/length.py:46 | the search finds nothing when the expression matches nowhere |
| Scale.AccentedUnitNoMatch | pylib/column_types/length.py:12 | `\b` is Unicode-aware: `mm` followed by `é` is not a unit, so `2 mmé` has no match at its start |
| Scale.ParseScale | pylib/column_types/length.py:48 | `float(scale)` succeeds exactly on a well-formed decimal, and the value is non-negative |
| Scale.ParseScaleValue | pylib/column_types/length.py:48 | a decimal with a dot reads as its digits shifted by the fraction length |
| Scale.ParseScaleWhole | pylib/column_types/length.py:48 | a run of digits reads as its value |
| LengthRow.ScaleField | pylib/column_types/length.py:45-49 | the scale field is the first field whose name has `length pixels` and a scale match, and there is none exactly when no field qualifies |
| LengthRow.FieldConversion | pylib/column_types/length.py:47-48 | a scale field gives a conversion exactly when its scale parses, its value is a number and the scale is not zero; otherwise the error names which |
| LengthRow.RowConversion | pylib/column_types/length.py:44-52 | the row converts exactly when it has a scale field, through that field's first match, into that match's unit |
| LengthRow.PixelEntries | pylib/column_types/length.py:54-55 | the pixel-length fields are exactly those whose name has `length pixels` |
| LengthRow.Additions | pylib/column_types/length.py:55-57 | each pixel-length field gives its name with `pixels` replaced by the unit and its value times the factor, and a non-number fails |
| LengthRow.ConvertRow | pylib/column_types/length.py:54-57 | conversion fails exactly when a pixel-length field is not a number; it keeps the existing keys in order and keeps them distinct |
| LengthRow.ReconcileRow | pylib/column_types/length.py:42-57 | a row without a scale field is returned unchanged; the row fails exactly when the conversion fails or a pixel-length field is not a number; keys are kept in order and stay distinct |
| LengthRow.ConvertedNotPixel | pylib/column_types/length.py:56 | a converted name is no longer a pixel-length name |
| LengthRow.ReconciledRow | pylib/column_types/length.py:54-57 | a converted row is the row with every addition assigned in order |
| LengthRow.ConvertedField | pylib/column_types/length.py:56-57 | the converted field holds the pixel value times the factor |
| LengthRow.KeptField | pylib/column_types/length.py:54-57 | every field other than a converted name keeps its value |
| LengthRow.ReconcileRowIdempotent | pylib/column_types/length.py:42-57 | reconciling a reconciled row changes nothing |

## Left out

- **Outside calls.** `json.loads`, `math.sqrt`, inflect's `P` and `str()` are parameters (`parse`, `sqrt`, `plural`, `show`).
  - Parse errors of `json.loads` are not modelled.
  - `show` is pinned down only on strings, ints, booleans and None. How floats, lists and dicts print is left open.
- **Numbers.** Numbers are exact reals, not IEEE doubles.
  - NaN, infinities and rounding error in sums and means are not modelled.
  - `statistics.mean` is the exact mean.
- **Reading the files.** The CSV files and the `pandas` frames are out of scope: `read`'s loop, the workflow-id filter, `iloc[-1]` and `fillna`.
  - The readers start from parsed rows, the parsed workflow documents, and the cells as strings.
- Common.ReadTable: string cells only. Cells are modelled as strings, which is what the callers' `dtype=str` reading gives. A numeric or float cell from an untyped frame is not modelled.
- Common.TableOrder: stable sort. This is a stable insertion sort. `pandas`' default `quicksort` is not stable, so rows with equal group values may come out in another relative order.
- **Failures leave no partial row.** A failure is an outcome; the fields a Python row had already received before the exception are not modelled.
- `extract_metadata` is not modelled: it depends on `dateutil`'s date parser.
- `get_workflow_id` is not modelled: it is a `pandas` query plus `error_exit`.
- `warnings.warn` for missing column types is not modelled. It prints and does not change the result.
- The `Row` and `Table` classes are not part of this model. How a row resolves a repeated key is left to them, so the readers' output is the ordered list of `add_field` calls.
- The printed message for an unmatched annotation is not modelled.
- **Duplicate JSON members.** A JSON object is read through its first member of a name. It stands for a parsed document only when names are distinct, because `json.loads` keeps the last member of a repeated name.
- **Unicode version.** `\w` follows the Unicode 15.0 tables of Python 3.12.
- Resolver.Build: three statements model the evident intent, not the code as written.
  - Without a workflow document, line 291 returns a bare `{}`. The model returns empty lookups.
  - Lines 298 and 302 call `.items()` twice, which raises. The model iterates the strings once.
  - Line 321 stores a one-entry dict `{string: label}`, but line 195 unpacks a `(value, label)` pair. The model stores the pair.
- LengthRow.ConvertRow: reads from a snapshot. As written, lines 54-57 assign into the dict they iterate over, and Python raises `RuntimeError` once a new key is added. The model reads the pixel-length fields from the row before the loop, then assigns.
- **Two behaviours of the code that are easy to misread.**
  - length.py:20 keeps only records with a truthy `x1`, so a line starting at `x1 = 0` is not counted (`LengthType.ZeroStartIsNoLine`).
  - length.py:57 multiplies the pixel length by the factor; it does not divide.
- LengthType.SwapEndpoints: holds only when each record's `x1` and `x2` are truthy together. The record `{x1: 1, y1: 0, x2: 0, y2: 0}` gives an ok cell, but after the swap its `x1` is `0`, the record is no line, and the cell is empty.
