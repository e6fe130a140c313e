/** The first occurrences among texts, by a key: what dedupeStrings and the collection of drafts keep. */
module FirstOccurrences {
  import opened Text

  // ----- first occurrences -----

  /** The keys of the values that are not blank. */
  function KeysOf(values: seq<string>, key: string -> string): set<string> {
    if values == [] then {}
    else
      var n := |values| - 1;
      KeysOf(values[..n], key) + if values[n] == "" then {} else {key(values[n])}
  }

  /** The places of the values that are not blank and whose key has not been there before. */
  function Picks(values: seq<string>, key: string -> string): (picks: seq<nat>)
    ensures forall k :: 0 <= k < |picks| ==> picks[k] < |values|
  {
    if values == [] then []
    else
      var n := |values| - 1;
      Picks(values[..n], key) + if values[n] == "" || key(values[n]) in KeysOf(values[..n], key) then [] else [n]
  }

  predicate FirstOfKey(values: seq<string>, key: string -> string, i: nat) {
    i < |values| && values[i] != "" && forall j :: 0 <= j < i && values[j] != "" ==> key(values[j]) != key(values[i])
  }

  lemma {:induction false} KeysOfAre(values: seq<string>, key: string -> string, k: string)
    ensures k in KeysOf(values, key) <==> exists j :: 0 <= j < |values| && values[j] != "" && key(values[j]) == k
  {
    if values != [] {
      var n := |values| - 1;
      KeysOfAre(values[..n], key, k);
      assert forall j :: 0 <= j < n ==> values[..n][j] == values[j];
    }
  }

  /** Exactly the first occurrences are picked. */
  lemma {:induction false} PicksAreFirst(values: seq<string>, key: string -> string, i: nat)
    ensures i in Picks(values, key) <==> FirstOfKey(values, key, i)
  {
    if values != [] {
      var n := |values| - 1;
      PicksAreFirst(values[..n], key, i);
      assert forall j :: 0 <= j < n ==> values[..n][j] == values[j];
      KeysOfAre(values[..n], key, key(values[n]));
    }
  }

  /** They are picked in order, so no place twice. */
  lemma {:induction false} PicksIncrease(values: seq<string>, key: string -> string)
    ensures forall j, k :: 0 <= j < k < |Picks(values, key)| ==> Picks(values, key)[j] < Picks(values, key)[k]
  {
    if values != [] {
      PicksIncrease(values[..|values| - 1], key);
    }
  }

  lemma PicksDiffer(values: seq<string>, key: string -> string, j: nat, k: nat)
    requires j < k < |Picks(values, key)|
    ensures key(values[Picks(values, key)[j]]) != key(values[Picks(values, key)[k]])
  {
    var picks := Picks(values, key);
    PicksIncrease(values, key);
    PicksAreFirst(values, key, picks[j]);
    PicksAreFirst(values, key, picks[k]);
    assert values[picks[j]] != "" && FirstOfKey(values, key, picks[k]);
  }

  /** What `make` gives for the first occurrences among the texts. */
  function MakeFirst<G, D>(items: seq<G>, texts: seq<string>, key: string -> string, make: (G, nat) -> D): seq<D>
    requires |texts| == |items|
  {
    var picks := Picks(texts, key);
    seq(|picks|, k requires 0 <= k < |picks| => make(items[picks[k]], picks[k]))
  }

  method CollectFirst<G, D>(items: seq<G>, texts: seq<string>, key: string -> string, make: (G, nat) -> D)
    returns (made: seq<D>)
    requires |texts| == |items|
    ensures made == MakeFirst(items, texts, key, make)
  {
    made := [];
    var seen: set<string> := {};
    ghost var picks: seq<nat> := [];
    for i := 0 to |items|
      invariant picks == Picks(texts[..i], key) && seen == KeysOf(texts[..i], key)
      invariant |made| == |picks| && forall k :: 0 <= k < |picks| ==> picks[k] < |items|
      invariant forall k :: 0 <= k < |picks| ==> made[k] == make(items[picks[k]], picks[k])
    {
      assert texts[..i + 1][..i] == texts[..i];
      if texts[i] == "" {
        continue;
      }
      var itemKey := key(texts[i]);
      if itemKey in seen {
        continue;
      }
      seen := seen + {itemKey};
      made := made + [make(items[i], i)];
      picks := picks + [i];
    }
    assert texts[..|items|] == texts;
  }

  // ----- dedupeStrings -----

  function TrimAll(values: seq<string>): seq<string> {
    seq(|values|, i requires 0 <= i < |values| => TrimSpace(values[i]))
  }

  /** dedupeStrings: the values trimmed, without blanks, and only the first of those that differ in nothing but case. */
  function Deduped(values: seq<string>): seq<string> {
    MakeFirst(values, TrimAll(values), Lower, (value: string, index: nat) => TrimSpace(value))
  }

  method DedupeStrings(values: seq<string>) returns (result: seq<string>)
    ensures result == Deduped(values)
  {
    result := CollectFirst(values, TrimAll(values), Lower, (value: string, index: nat) => TrimSpace(value));
  }

  lemma DedupedAreFirst(values: seq<string>, value: string)
    ensures value in Deduped(values) <==> exists i: nat :: FirstOfKey(TrimAll(values), Lower, i) && TrimAll(values)[i] == value
    ensures forall j, k :: 0 <= j < k < |Deduped(values)| ==> Lower(Deduped(values)[j]) != Lower(Deduped(values)[k])
  {
    var trimmed := TrimAll(values);
    var picks, deduped := Picks(trimmed, Lower), Deduped(values);
    assert |deduped| == |picks| && forall k :: 0 <= k < |picks| ==> deduped[k] == trimmed[picks[k]];
    if value in deduped {
      var k :| 0 <= k < |deduped| && deduped[k] == value;
      PicksAreFirst(trimmed, Lower, picks[k]);
    }
    if i: nat :| FirstOfKey(trimmed, Lower, i) && trimmed[i] == value {
      PicksAreFirst(trimmed, Lower, i);
      var k :| 0 <= k < |picks| && picks[k] == i;
      assert deduped[k] == value;
    }
    forall j, k | 0 <= j < k < |deduped| ensures Lower(deduped[j]) != Lower(deduped[k]) {
      PicksDiffer(trimmed, Lower, j, k);
    }
  }

  /** As many are kept as there are keys. */
  lemma {:induction false} PicksCount(values: seq<string>, key: string -> string)
    ensures |Picks(values, key)| == |KeysOf(values, key)|
  {
    if values != [] {
      PicksCount(values[..|values| - 1], key);
    }
  }

  lemma {:induction false} KeysJoin(values: seq<string>, more: seq<string>, key: string -> string)
    ensures KeysOf(values + more, key) == KeysOf(values, key) + KeysOf(more, key)
  {
    if more == [] {
      assert values + more == values;
    } else {
      var n := |more| - 1;
      assert (values + more)[..|values| + n] == values + more[..n];
      KeysJoin(values, more[..n], key);
    }
  }

  lemma {:induction false} KeysAreFew(values: seq<string>, key: string -> string)
    ensures |KeysOf(values, key)| <= |values|
  {
    if values != [] {
      KeysAreFew(values[..|values| - 1], key);
    }
  }

  function KeySet(values: seq<string>): set<string> {
    KeysOf(TrimAll(values), Lower)
  }

  lemma KeySetJoins(values: seq<string>, more: seq<string>)
    ensures KeySet(values + more) == KeySet(values) + KeySet(more)
  {
    assert TrimAll(values + more) == TrimAll(values) + TrimAll(more);
    KeysJoin(TrimAll(values), TrimAll(more), Lower);
  }

  lemma DedupedCount(values: seq<string>)
    ensures |Deduped(values)| == |KeySet(values)|
  {
    PicksCount(TrimAll(values), Lower);
  }

  lemma DedupedIsSome(values: seq<string>, value: string)
    requires value in values && value != "" && Trimmed(value, SPACES)
    ensures Deduped(values) != []
  {
    var i :| 0 <= i < |values| && values[i] == value;
    TrimmedIsFixed(value, SPACES);
    assert TrimAll(values)[i] == value;
    KeysOfAre(TrimAll(values), Lower, Lower(value));
    DedupedCount(values);
  }

  lemma KeysOfThree(before: seq<string>, text: seq<string>, after: seq<string>)
    ensures |Deduped(before + text + after)| == |KeySet(before) + KeySet(after) + KeySet(text)|
  {
    DedupedCount(before + text + after);
    KeySetJoins(before + text, after);
    KeySetJoins(before, text);
    assert KeySet(before) + KeySet(text) + KeySet(after) == KeySet(before) + KeySet(after) + KeySet(text);
  }

  /** With one text replaced or left out, at most one less is kept. */
  lemma OneTextLess(before: seq<string>, text: seq<string>, text': seq<string>, after: seq<string>)
    requires |text| <= 1
    ensures |Deduped(before + text + after)| <= |Deduped(before + text' + after)| + 1
  {
    KeysOfThree(before, text, after);
    KeysOfThree(before, text', after);
    KeysAreFew(TrimAll(text), Lower);
    OneMoreKey(KeySet(before) + KeySet(after), KeySet(text), KeySet(text'));
  }

  lemma OneMoreKey(keys: set<string>, one: set<string>, other: set<string>)
    requires |one| <= 1
    ensures |keys + one| <= |keys + other| + 1
  {
    assert |keys + one| <= |keys| + |one|;
    SubsetCount(keys, keys + other);
  }

  lemma SubsetCount(small: set<string>, large: set<string>)
    requires small <= large
    ensures |small| <= |large|
  {
    assert large == small + (large - small);
  }

  predicate AllFirst(values: seq<string>, key: string -> string) {
    forall i :: 0 <= i < |values| ==> FirstOfKey(values, key, i)
  }

  lemma {:induction false} AllPicked(values: seq<string>, key: string -> string)
    requires AllFirst(values, key)
    ensures |Picks(values, key)| == |values| && forall i :: 0 <= i < |values| ==> Picks(values, key)[i] == i
  {
    if values != [] {
      var n := |values| - 1;
      forall i | 0 <= i < n ensures FirstOfKey(values[..n], key, i) {
        assert FirstOfKey(values, key, i);
      }
      AllPicked(values[..n], key);
      assert FirstOfKey(values, key, n);
      KeysOfAre(values[..n], key, key(values[n]));
    }
  }

  /** Removing repeats again changes nothing. */
  lemma DedupedTwice(values: seq<string>)
    ensures Deduped(Deduped(values)) == Deduped(values)
  {
    var deduped := Deduped(values);
    forall i | 0 <= i < |deduped| ensures TrimSpace(deduped[i]) == deduped[i] != "" {
      DedupedIsTrimmed(values, deduped[i]);
    }
    DedupedAreFirst(values, "");
    assert TrimAll(deduped) == deduped;
    assert AllFirst(deduped, Lower);
    AllPicked(deduped, Lower);
  }

  lemma DedupedIsTrimmed(values: seq<string>, value: string)
    requires value in Deduped(values)
    ensures TrimSpace(value) == value != ""
  {
    DedupedAreFirst(values, value);
    var i: nat :| FirstOfKey(TrimAll(values), Lower, i) && TrimAll(values)[i] == value;
    TrimIsTrimmed(values[i], SPACES);
    TrimmedIsFixed(value, SPACES);
  }

  /** Of each text that is not blank one is kept, but for case. */
  lemma SomeIsKept(values: seq<string>, value: string)
    requires value in values && TrimSpace(value) != ""
    ensures exists kept :: kept in Deduped(values) && Lower(kept) == Lower(TrimSpace(value))
  {
    var trimmed := TrimAll(values);
    var i :| 0 <= i < |values| && values[i] == value;
    assert trimmed[i] == TrimSpace(value);
    var first := FirstWithKey(trimmed, Lower, i);
    DedupedAreFirst(values, trimmed[first]);
  }

  lemma {:induction false} FirstWithKey(values: seq<string>, key: string -> string, i: nat) returns (first: nat)
    requires i < |values| && values[i] != ""
    ensures FirstOfKey(values, key, first) && key(values[first]) == key(values[i])
    decreases i
  {
    if j: nat :| j < i && values[j] != "" && key(values[j]) == key(values[i]) {
      first := FirstWithKey(values, key, j);
    } else {
      first := i;
    }
  }
}
