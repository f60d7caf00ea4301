/** The small string rules of `pylib/formats/nfn.py`: task-qualified field keys, subject-data
    key sanitising, workflow-name prefix stripping and the subject group key. */
module Keys {
  import opened Wrappers
  import opened Strs
  import WordChars

  /** `get_key`: `~<task id>~ <text, stripped>`. */
  function GetKey(text: string, annoId: string): (r: string)
    ensures StartsWith(r, "~" + annoId + "~ ")
    ensures StartsWith(r, "~")
  {
    var marker := "~" + annoId + "~ ";
    assert (marker + Strip(text))[..|marker|] == marker;
    assert (marker + Strip(text))[..1] == "~";
    marker + Strip(text)
  }

  /** Reads a qualified key back into its task id and text. */
  function SplitKey(key: string): Option<(string, string)> {
    if |key| == 0 || key[0] != '~' || '~' !in key[1..] then None
    else
      var i := IndexOf(key[1..], '~');
      var rest := key[i + 2..];
      if |rest| > 0 && rest[0] == ' ' then Some((key[1..i + 1], rest[1..])) else None
  }

  /** Reading a key back gives the task id and the stripped text it was built from. */
  lemma KeyRoundTrip(text: string, annoId: string)
    requires '~' !in annoId
    ensures SplitKey(GetKey(text, annoId)) == Some((annoId, Strip(text)))
  {
    assert GetKey(text, annoId) == "~" + annoId + "~ " + Strip(text);
    SplitKeyOf(annoId, Strip(text));
  }

  lemma SplitKeyOf(id: string, t: string)
    requires '~' !in id
    ensures SplitKey("~" + id + "~ " + t) == Some((id, t))
  {
    var key := "~" + id + "~ " + t;
    var n := |id|;
    var tail := key[1..];
    assert tail == id + "~ " + t;
    assert tail[..n] == id;
    IndexOfAt(tail, '~', n);
    assert key[1..n + 1] == id;
    assert key[n + 2..] == " " + t;
  }

  /** Keys are distinct exactly when their task ids or stripped labels are: two tasks never
      share a key for the same text. */
  lemma KeysDistinct(text1: string, id1: string, text2: string, id2: string)
    requires '~' !in id1 && '~' !in id2
    ensures GetKey(text1, id1) == GetKey(text2, id2) <==> id1 == id2 && Strip(text1) == Strip(text2)
  {
    KeyRoundTrip(text1, id1);
    KeyRoundTrip(text2, id2);
  }

  /** `re.sub(r'\W+', '_', key)`: every run of non-word characters becomes one underscore. */
  function ReplaceNonWordRuns(s: string): (r: string)
    ensures |r| <= |s|
    ensures forall k :: 0 <= k < |r| ==> IsWordChar(r[k])
    decreases |s|
  {
    if |s| == 0 then ""
    else if IsWordChar(s[0]) then [s[0]] + ReplaceNonWordRuns(s[1..])
    else "_" + ReplaceNonWordRuns(DropNonWord(s[1..]))
  }

  /** Text of word characters only has no run to replace. */
  lemma {:induction false} ReplaceKeepsWords(s: string)
    requires forall k :: 0 <= k < |s| ==> IsWordChar(s[k])
    ensures ReplaceNonWordRuns(s) == s
    decreases |s|
  {
    if |s| > 0 {
      ReplaceKeepsWords(s[1..]);
    }
  }

  /** A word character at either end of the text survives the replacement at that end. */
  lemma {:induction false} ReplaceKeepsEnds(s: string)
    ensures |s| > 0 && IsWordChar(s[0]) ==> ReplaceNonWordRuns(s) != [] && ReplaceNonWordRuns(s)[0] == s[0]
    ensures |s| > 0 && IsWordChar(s[|s| - 1])
            ==> var r := ReplaceNonWordRuns(s); |r| > 0 && r[|r| - 1] == s[|s| - 1]
    decreases |s|
  {
    hide IsWordChar;
    if |s| > 0 {
      if IsWordChar(s[0]) {
        ReplaceKeepsEnds(s[1..]);
        if |s| > 1 {
          assert s[1..][|s[1..]| - 1] == s[|s| - 1];
        }
      } else {
        var d := DropNonWord(s[1..]);
        ReplaceKeepsEnds(d);
        if IsWordChar(s[|s| - 1]) {
          assert |s| > 1;
          assert s[1..][|s[1..]| - 1] == s[|s| - 1];
          assert d[|d| - 1] == s[|s| - 1];
        }
      }
    }
  }

  function DropNonWord(s: string): (r: string)
    ensures |r| <= |s| && r == s[|s| - |r|..]
    ensures |r| > 0 ==> IsWordChar(r[0])
    ensures |s| > 0 && IsWordChar(s[|s| - 1]) ==> |r| > 0
    decreases |s|
  {
    if |s| > 0 && !IsWordChar(s[0]) then DropNonWord(s[1..]) else s
  }

  function DropLeadingUnderscores(s: string): (r: string)
    ensures |r| <= |s| && r == s[|s| - |r|..]
    ensures |r| > 0 ==> r[0] != '_'
    decreases |s|
  {
    if |s| > 0 && s[0] == '_' then DropLeadingUnderscores(s[1..]) else s
  }

  predicate AllWord(s: string) {
    forall k :: 0 <= k < |s| ==> IsWordChar(s[k])
  }

  predicate NoWord(s: string) {
    forall k :: 0 <= k < |s| ==> !IsWordChar(s[k])
  }

  /** A run of word characters passes through unchanged, whatever follows it. */
  lemma {:induction false} ReplaceWordRun(w: string, rest: string)
    requires AllWord(w)
    ensures ReplaceNonWordRuns(w + rest) == w + ReplaceNonWordRuns(rest)
    decreases |w|
  {
    hide IsWordChar;
    if |w| > 0 {
      assert (w + rest)[0] == w[0];
      assert (w + rest)[1..] == w[1..] + rest;
      ReplaceWordRun(w[1..], rest);
      assert w == [w[0]] + w[1..];
    } else {
      assert w + rest == rest;
    }
  }

  /** Dropping non-word characters stops exactly at the next word character. */
  lemma {:induction false} DropNonWordRun(n: string, rest: string)
    requires NoWord(n)
    requires |rest| > 0 ==> IsWordChar(rest[0])
    ensures DropNonWord(n + rest) == rest
    decreases |n|
  {
    hide IsWordChar;
    if |n| > 0 {
      assert (n + rest)[0] == n[0];
      assert (n + rest)[1..] == n[1..] + rest;
      DropNonWordRun(n[1..], rest);
    } else {
      assert n + rest == rest;
    }
  }

  /** A whole maximal run of non-word characters, however long, becomes one `_`. */
  lemma NonWordRun(n: string, rest: string)
    requires |n| > 0 && NoWord(n)
    requires |rest| > 0 ==> IsWordChar(rest[0])
    ensures ReplaceNonWordRuns(n + rest) == "_" + ReplaceNonWordRuns(rest)
  {
    hide IsWordChar;
    var s := n + rest;
    assert s[0] == n[0] && !IsWordChar(s[0]);
    assert s[1..] == n[1..] + rest;
    NoWordTail(n);
    ReplaceNonWordHead(s);
    DropNonWordRun(n[1..], rest);
    hide ReplaceNonWordRuns, DropNonWord, NoWord;
  }

  /** One step of the substitution on text that opens with a non-word character. */
  lemma ReplaceNonWordHead(s: string)
    requires |s| > 0 && !IsWordChar(s[0])
    ensures ReplaceNonWordRuns(s) == "_" + ReplaceNonWordRuns(DropNonWord(s[1..]))
  {
  }

  lemma NoWordTail(n: string)
    requires |n| > 0 && NoWord(n)
    ensures NoWord(n[1..])
  {
    hide IsWordChar;
    assert forall k :: 0 <= k < |n[1..]| ==> n[1..][k] == n[k + 1];
  }

  /** Word run, non-word run, and the rest: the word run is kept and the non-word run is
      replaced by a single `_`, so `re.sub(r'\W+', '_', ...)` works run by run. */
  lemma WordThenNonWordRun(w: string, n: string, rest: string)
    requires AllWord(w) && |n| > 0 && NoWord(n)
    requires |rest| > 0 ==> IsWordChar(rest[0])
    ensures ReplaceNonWordRuns(w + n + rest) == w + "_" + ReplaceNonWordRuns(rest)
  {
    hide IsWordChar, ReplaceNonWordRuns;
    assert w + n + rest == w + (n + rest);
    ReplaceWordRun(w, n + rest);
    NonWordRun(n, rest);
  }

  /** The subject-data column name of `extract_subject_data`: non-word runs become `_`, then
      `re.sub(r'^_+|_$', '', key)` drops all leading underscores and one trailing one. */
  function SanitizeKey(key: string): (r: string)
    ensures |r| <= |key|
    ensures forall k :: 0 <= k < |r| ==> IsWordChar(r[k])
    ensures |r| > 0 ==> r[0] != '_'
  {
    var t := DropLeadingUnderscores(ReplaceNonWordRuns(key));
    if |t| > 0 && t[|t| - 1] == '_' then t[..|t| - 1] else t
  }

  /** A name of word characters that neither starts nor ends with `_`. */
  predicate CleanName(key: string) {
    && (forall k :: 0 <= k < |key| ==> IsWordChar(key[k]))
    && (|key| > 0 ==> key[0] != '_' && key[|key| - 1] != '_')
  }

  /** A key of word characters that neither starts nor ends with `_` is kept as it is. */
  lemma SanitizeClean(key: string)
    requires CleanName(key)
    ensures SanitizeKey(key) == key
  {
    ReplaceKeepsWords(key);
  }

  lemma {:induction false} DropUnderscoreRun(u: string, t: string)
    requires forall k :: 0 <= k < |u| ==> u[k] == '_'
    requires |t| > 0 ==> t[0] != '_'
    ensures DropLeadingUnderscores(u + t) == t
    decreases |u|
  {
    hide IsWordChar;
    if |u| > 0 {
      assert (u + t)[0] == '_';
      assert (u + t)[1..] == u[1..] + t;
      DropUnderscoreRun(u[1..], t);
    } else {
      assert u + t == t;
    }
  }

  lemma UnderscoreIsWord()
    ensures IsWordChar('_')
  {
  }

  lemma LetterIsWord()
    ensures IsWordChar('a')
  {
  }

  /** On word characters, every leading `_` goes but only one trailing `_` does. */
  lemma UnderscoreEnds(u: string, t: string)
    requires forall k :: 0 <= k < |u| ==> u[k] == '_'
    requires AllWord(t) && (|t| > 0 ==> t[0] != '_')
    ensures SanitizeKey(u + t) == if |t| > 0 && t[|t| - 1] == '_' then t[..|t| - 1] else t
  {
    UnderscoreIsWord();
    hide IsWordChar;
    assert AllWord(u + t) by {
      forall k | 0 <= k < |u + t| ensures IsWordChar((u + t)[k]) {
        if k >= |u| { assert (u + t)[k] == t[k - |u|]; }
      }
    }
    ReplaceKeepsWords(u + t);
    DropUnderscoreRun(u, t);
  }

  /** `__a__` becomes `a_`: two leading underscores go, one of the two trailing ones stays. */
  lemma UnderscoreEndsExample()
    ensures SanitizeKey("__a__") == "a_"
  {
    hide IsWordChar, SanitizeKey;
    UnderscoreIsWord();
    LetterIsWord();
    assert AllWord("a__");
    assert "__a__" == "__" + "a__";
    UnderscoreEnds("__", "a__");
    assert "a__"[..2] == "a_";
  }

  /** Accented letters are word characters, so an accented name passes through. */
  lemma SanitizeAccented()
    ensures SanitizeKey("café") == "café"
  {
    WordChars.InRangesAt('é' as int, WordChars.RowRanges(0), 6);
    assert IsWordChar('é');
    SanitizeClean("café");
  }

  /** A key that is all non-word characters sanitises to the empty name. */
  lemma SanitizeNoWordChars(key: string)
    requires forall k :: 0 <= k < |key| ==> !IsWordChar(key[k])
    ensures SanitizeKey(key) == ""
  {
    if |key| > 0 {
      assert DropNonWord(key[1..]) == "";
      assert ReplaceNonWordRuns(key) == "_";
    }
  }

  /** `re.sub(r"^[^_]*_", "", name)`: drops the text up to and including the first `_`. */
  function StripWorkflowPrefix(name: string): (r: string)
    ensures '_' !in name ==> r == name
    ensures '_' in name ==> exists p :: '_' !in p && name == p + "_" + r
  {
    if '_' in name then
      var i := IndexOf(name, '_');
      assert name == name[..i] + "_" + name[i + 1..];
      name[i + 1..]
    else name
  }

  /** `subject_ids.split(",", 1)[0]`: the text before the first comma. */
  function GroupKey(subjectIds: string): (r: string)
    ensures ',' !in r
    ensures StartsWith(subjectIds, r)
    ensures r == subjectIds || subjectIds[|r|] == ','
  {
    if ',' in subjectIds then subjectIds[..IndexOf(subjectIds, ',')] else subjectIds
  }
}
