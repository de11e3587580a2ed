/**
  `unique(arr, prop, copy)` (src/utils/jsTools/jT_array.ts, lines 7-21): keeps
  the first item for each key, in input order. The key of an item is the item
  itself, or `getProp(item, prop)` for an object; here it is the function `key`.
 */
module ArrayTools {

  /** The keys carried by the items of `s`. */
  ghost function KeysOf<T, K>(s: seq<T>, key: T -> K): set<K> {
    set i | 0 <= i < |s| :: key(s[i])
  }

  /** No two items of `s` share a key. */
  ghost predicate DistinctKeys<T, K>(s: seq<T>, key: T -> K) {
    forall i, j :: 0 <= i < j < |s| ==> key(s[i]) != key(s[j])
  }

  /** `s[i]` is the first item of `s` that carries its key. */
  ghost predicate IsFirst<T, K>(s: seq<T>, key: T -> K, i: nat)
    requires i < |s|
  {
    forall j :: 0 <= j < i ==> key(s[j]) != key(s[i])
  }

  /** The items of `s` that are first with their key, in their order in `s`. */
  ghost function Deduplicated<T, K>(s: seq<T>, key: T -> K): seq<T> {
    if s == [] then []
    else
      var init, last := s[..|s| - 1], s[|s| - 1];
      if key(last) in KeysOf(init, key) then Deduplicated(init, key)
      else Deduplicated(init, key) + [last]
  }

  /** The positions in `s` of the items `Deduplicated` keeps. */
  ghost function FirstPositions<T, K>(s: seq<T>, key: T -> K): seq<nat> {
    if s == [] then []
    else
      var init, last := s[..|s| - 1], s[|s| - 1];
      if key(last) in KeysOf(init, key) then FirstPositions(init, key)
      else FirstPositions(init, key) + [|s| - 1]
  }

  lemma KeysOfSnoc<T, K>(s: seq<T>, x: T, key: T -> K)
    ensures KeysOf(s + [x], key) == KeysOf(s, key) + {key(x)}
  {
    var t := s + [x];
    forall k | k in KeysOf(t, key) ensures k in KeysOf(s, key) + {key(x)} {
      var i :| 0 <= i < |t| && key(t[i]) == k;
      if i < |s| { assert t[i] == s[i]; }
    }
    forall k | k in KeysOf(s, key) ensures k in KeysOf(t, key) {
      var i :| 0 <= i < |s| && key(s[i]) == k;
      assert t[i] == s[i];
    }
    assert key(x) == key(t[|s|]);
  }

  /** `unique`: a `Map` of the keys seen so far, and the items pushed in order. */
  method Unique<T, K(==)>(arr: seq<T>, key: T -> K) returns (arrNew: seq<T>)
    ensures arrNew == Deduplicated(arr, key)
  {
    arrNew := [];
    var seen: map<K, bool> := map[];
    for i := 0 to |arr|
      invariant arrNew == Deduplicated(arr[..i], key)
      invariant seen.Keys == KeysOf(arr[..i], key)
    {
      var item := arr[i];
      var prop := key(item);
      assert arr[..i + 1] == arr[..i] + [item];
      assert arr[..i + 1][..i] == arr[..i];
      KeysOfSnoc(arr[..i], item, key);
      if prop !in seen {
        seen := seen[prop := true];
        arrNew := arrNew + [item];
      }
    }
    assert arr[..|arr|] == arr;
  }

  /** The output is a subsequence of the input, and each kept item is the first
      item of the input that carries its key. */
  lemma {:induction false} DeduplicatedIsSubsequence<T, K>(s: seq<T>, key: T -> K)
    ensures var r, pos := Deduplicated(s, key), FirstPositions(s, key);
      && |pos| == |r|
      && (forall j :: 0 <= j < |pos| ==> pos[j] < |s| && r[j] == s[pos[j]] && IsFirst(s, key, pos[j]))
      && (forall j, j' :: 0 <= j < j' < |pos| ==> pos[j] < pos[j'])
  {
    if s != [] {
      var init, last := s[..|s| - 1], s[|s| - 1];
      DeduplicatedIsSubsequence(init, key);
      var pos := FirstPositions(init, key);
      forall j | 0 <= j < |pos| ensures IsFirst(s, key, pos[j]) {
        assert IsFirst(init, key, pos[j]);
        assert forall m :: 0 <= m <= pos[j] ==> s[m] == init[m];
      }
      if key(last) !in KeysOf(init, key) {
        forall m | 0 <= m < |s| - 1 ensures key(s[m]) != key(last) {
          assert s[m] == init[m];
        }
      }
    }
  }

  /** Every key of the input is carried by some output item. */
  lemma {:induction false} DeduplicatedKeepsEveryKey<T, K>(s: seq<T>, key: T -> K)
    ensures KeysOf(Deduplicated(s, key), key) == KeysOf(s, key)
  {
    if s != [] {
      var init, last := s[..|s| - 1], s[|s| - 1];
      assert s == init + [last];
      DeduplicatedKeepsEveryKey(init, key);
      KeysOfSnoc(init, last, key);
      if key(last) !in KeysOf(init, key) {
        KeysOfSnoc(Deduplicated(init, key), last, key);
      }
    }
  }

  /** No two output items share a key. */
  lemma {:induction false} DeduplicatedHasDistinctKeys<T, K>(s: seq<T>, key: T -> K)
    ensures DistinctKeys(Deduplicated(s, key), key)
  {
    if s != [] {
      var init, last := s[..|s| - 1], s[|s| - 1];
      DeduplicatedHasDistinctKeys(init, key);
      if key(last) !in KeysOf(init, key) {
        var d := Deduplicated(init, key);
        DeduplicatedKeepsEveryKey(init, key);
        forall i | 0 <= i < |d| ensures key(d[i]) != key(last) {
          assert key(d[i]) in KeysOf(d, key);
        }
      }
    }
  }

  /** An input whose keys are already distinct comes back unchanged. */
  lemma {:induction false} DistinctInputUnchanged<T, K>(s: seq<T>, key: T -> K)
    requires DistinctKeys(s, key)
    ensures Deduplicated(s, key) == s
  {
    if s != [] {
      var init, last := s[..|s| - 1], s[|s| - 1];
      assert DistinctKeys(init, key);
      DistinctInputUnchanged(init, key);
      assert key(last) !in KeysOf(init, key) by {
        forall i | 0 <= i < |init| ensures key(init[i]) != key(last) {
          assert init[i] == s[i];
        }
      }
      assert s == init + [last];
    }
  }

  /** The output is never longer than the input. */
  lemma {:induction false} DeduplicatedNoLonger<T, K>(s: seq<T>, key: T -> K)
    ensures |Deduplicated(s, key)| <= |s|
  {
    if s != [] {
      DeduplicatedNoLonger(s[..|s| - 1], key);
    }
  }

  /** The output has the input's length exactly when the input keys are distinct. */
  lemma {:induction false} SameLengthIffDistinct<T, K>(s: seq<T>, key: T -> K)
    ensures |Deduplicated(s, key)| == |s| <==> DistinctKeys(s, key)
  {
    if DistinctKeys(s, key) {
      DistinctInputUnchanged(s, key);
    } else if s != [] {
      var init, last := s[..|s| - 1], s[|s| - 1];
      DeduplicatedNoLonger(init, key);
      if key(last) !in KeysOf(init, key) {
        SameLengthIffDistinct(init, key);
        assert !DistinctKeys(init, key) by {
          if DistinctKeys(init, key) {
            forall i, j | 0 <= i < j < |s| ensures key(s[i]) != key(s[j]) {
              if j == |s| - 1 {
                assert key(init[i]) in KeysOf(init, key);
              } else {
                assert s[i] == init[i] && s[j] == init[j];
              }
            }
          }
        }
      }
    }
  }

  /** Filtering twice is filtering once. */
  lemma UniqueIsIdempotent<T, K>(s: seq<T>, key: T -> K)
    ensures Deduplicated(Deduplicated(s, key), key) == Deduplicated(s, key)
  {
    DeduplicatedHasDistinctKeys(s, key);
    DistinctInputUnchanged(Deduplicated(s, key), key);
  }
}
