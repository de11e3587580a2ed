/**
  `getOptionFromMessageContent` (src/events/message/9_processPrefixCommand.ts,
  lines 58-70): the first match of the regular expression
  `${flagName} (.)` or `${flagName} (.[^${prefix}]*)` in the content.

  `flagName` is read as literal text and `prefix` as the set of characters the
  negated class `[^...]` excludes (an empty prefix gives `[^]`, which excludes
  nothing). `.` is any character but a line terminator, and the starred class
  is greedy.
 */
module OptionExtractor {
  import opened Wrappers
  import opened JsString

  /** `${flagName} (.)` matches at index `i`: the flag name, one space, then a
      character that is not a line terminator. */
  predicate FlagAt(content: string, flagName: string, i: nat) {
    && i + |flagName| + 2 <= |content|
    && content[i..i + |flagName|] == flagName
    && content[i + |flagName|] == ' '
    && !IsLineTerminator(content[i + |flagName| + 1])
  }

  /** The first index at or after `from` where the flag matches: the regular
      expression search tries each start index in turn. */
  function LeftmostFlag(content: string, flagName: string, from: nat): (r: Option<nat>)
    decreases |content| - from
    ensures r.Some? ==> from <= r.value && FlagAt(content, flagName, r.value)
    ensures r.Some? ==> forall j :: from <= j < r.value ==> !FlagAt(content, flagName, j)
    ensures r.None? ==> forall j :: from <= j ==> !FlagAt(content, flagName, j)
  {
    if from + |flagName| + 2 > |content| then None
    else if FlagAt(content, flagName, from) then Some(from)
    else LeftmostFlag(content, flagName, from + 1)
  }

  /** A matching index with no match before it is the one the search finds. */
  lemma {:induction false} LeftmostIsFirstMatch(content: string, flagName: string, i: nat)
    requires FlagAt(content, flagName, i)
    requires forall j :: 0 <= j < i ==> !FlagAt(content, flagName, j)
    ensures LeftmostFlag(content, flagName, 0) == Some(i)
  {
    var r := LeftmostFlag(content, flagName, 0);
    assert r.Some? && r.value <= i;
  }

  /** Where the greedy run `[^${prefix}]*` that starts at `k` stops. */
  function RunEnd(content: string, prefix: string, k: nat): (e: nat)
    requires k <= |content|
    decreases |content| - k
    ensures k <= e <= |content|
    ensures forall i :: k <= i < e ==> content[i] !in prefix
    ensures e == |content| || content[e] in prefix
  {
    if k == |content| || content[k] in prefix then k else RunEnd(content, prefix, k + 1)
  }

  /** `s` is the text the expression matches when the search finds it at `i`:
      no earlier index matches, the flag name, a space and one non-line-terminator
      character come first, and with `allowSpaces` a maximal run of characters
      outside `prefix` follows. */
  ghost predicate MatchedAt(content: string, prefix: string, flagName: string, allowSpaces: bool, i: nat, s: string) {
    && FlagAt(content, flagName, i)
    && (forall j :: 0 <= j < i ==> !FlagAt(content, flagName, j))
    && |flagName| + 2 <= |s|
    && i + |s| <= |content|
    && content[i..i + |s|] == s
    && if allowSpaces then
         && (forall k :: i + |flagName| + 2 <= k < i + |s| ==> content[k] !in prefix)
         && (i + |s| == |content| || content[i + |s|] in prefix)
       else
         |s| == |flagName| + 2
  }

  /** `getOptionFromMessageContent(content, prefix, flagName, allowSpaces)`:
      `match[0]` of the first match, or null. */
  function GetOption(content: string, prefix: string, flagName: string, allowSpaces: bool): (r: Option<string>)
    ensures r.None? <==> forall j :: !FlagAt(content, flagName, j)
    ensures r.Some? ==> exists i :: MatchedAt(content, prefix, flagName, allowSpaces, i, r.value)
    ensures r.Some? ==> StartsWith(r.value, flagName + " ") && !IsLineTerminator(r.value[|flagName| + 1])
    ensures r.Some? && !allowSpaces ==> |r.value| == |flagName| + 2
  {
    match LeftmostFlag(content, flagName, 0)
    case None => None
    case Some(i) =>
      var end := if allowSpaces then RunEnd(content, prefix, i + |flagName| + 2) else i + |flagName| + 2;
      var s := content[i..end];
      assert MatchedAt(content, prefix, flagName, allowSpaces, i, s);
      Some(s)
  }

  /** Any end index with the two properties of `RunEnd` is `RunEnd`. */
  lemma {:induction false} RunEndIsUnique(content: string, prefix: string, k: nat, e: nat)
    requires k <= e <= |content|
    requires forall i :: k <= i < e ==> content[i] !in prefix
    requires e == |content| || content[e] in prefix
    ensures e == RunEnd(content, prefix, k)
    decreases e - k
  {
    if k < e {
      RunEndIsUnique(content, prefix, k + 1, e);
    }
  }

  /** The match is unique: the description in `MatchedAt` fixes both the index
      and the text, so it is a complete specification of `GetOption`. */
  lemma MatchIsUnique(content: string, prefix: string, flagName: string, allowSpaces: bool, i: nat, s: string, i': nat, s': string)
    requires MatchedAt(content, prefix, flagName, allowSpaces, i, s)
    requires MatchedAt(content, prefix, flagName, allowSpaces, i', s')
    ensures i == i' && s == s'
  {
    assert !(i < i') && !(i' < i);
    if allowSpaces {
      RunEndIsUnique(content, prefix, i + |flagName| + 2, i + |s|);
      RunEndIsUnique(content, prefix, i + |flagName| + 2, i + |s'|);
    }
  }

  /** With spaces allowed the value runs up to, not including, the next `-`. */
  lemma ValueRunsToNextFlag()
    ensures GetOption("-f hello world -g bye", "-", "-f", true) == Some("-f hello world ")
  {
    var content := "-f hello world -g bye";
    assert FlagAt(content, "-f", 0);
    assert RunEnd(content, "-", 4) == 15 by {
      RunEndIsUnique(content, "-", 4, 15);
    }
    assert LeftmostFlag(content, "-f", 0) == Some(0);
    assert content[0..15] == "-f hello world ";
  }

  /** Without spaces the value is exactly one character. */
  lemma ValueIsOneCharacter()
    ensures GetOption("-f hello world -g bye", "-", "-g", false) == Some("-g b")
  {
    var content := "-f hello world -g bye";
    NoFlagBeforeIndex15(content);
    assert FlagAt(content, "-g", 15);
    LeftmostIsFirstMatch(content, "-g", 15);
    assert content[15..19] == "-g b";
  }

  lemma NoFlagBeforeIndex15(content: string)
    requires content == "-f hello world -g bye"
    ensures forall j :: 0 <= j < 15 ==> !FlagAt(content, "-g", j)
  {
    var before := "f hello world -";
    assert content == "-" + before + "g bye";
    assert 'g' !in before;
    forall j | 0 <= j < 15 ensures !FlagAt(content, "-g", j) {
      assert content[j + 1] == before[j];
      assert content[j..j + 2][1] == content[j + 1];
    }
  }
}
