/**
 * Incremental de-duplication of `all_places`: a record is appended only if
 * no record already kept has the same raw (title, address) key.
 */
module Dedup {
  import opened Places

  function Keys(s: seq<Place>): set<Key> {
    set p | p in s :: KeyOf(p)
  }

  /** No two records share a key. */
  predicate UniqueKeys(s: seq<Place>) {
    forall i, j :: 0 <= i < j < |s| ==> KeyOf(s[i]) != KeyOf(s[j])
  }

  /** One step of the inner loop: append `p` unless its key was seen. */
  function Add(acc: seq<Place>, p: Place): seq<Place> {
    if KeyOf(p) in Keys(acc) then acc else acc + [p]
  }

  /** The inner loop over one page: each record is tried in arrival order. */
  function Merge(acc: seq<Place>, incoming: seq<Place>): seq<Place>
    decreases |incoming|
  {
    if incoming == [] then acc
    else Add(Merge(acc, incoming[..|incoming| - 1]), incoming[|incoming| - 1])
  }

  /** Index i holds the first record of `xs` with its key. */
  predicate FirstOfKey(xs: seq<Place>, i: int)
    requires 0 <= i < |xs|
  {
    forall i' :: 0 <= i' < i ==> KeyOf(xs[i']) != KeyOf(xs[i])
  }

  /**
   * Reference selection, decided record by record without looking at the
   * accumulator: among the first n incoming records, those whose key is not
   * in `acc` and which are the first of their key, in arrival order.
   */
  function FirstSeen(acc: seq<Place>, xs: seq<Place>, n: nat): seq<Place>
    requires n <= |xs|
  {
    if n == 0 then []
    else
      var p := xs[n - 1];
      FirstSeen(acc, xs, n - 1) + (if KeyOf(p) !in Keys(acc) && FirstOfKey(xs, n - 1) then [p] else [])
  }

  lemma KeysAppend(a: seq<Place>, b: seq<Place>)
    ensures Keys(a + b) == Keys(a) + Keys(b)
  {
    assert forall p :: p in a + b <==> p in a || p in b;
  }

  /** The records kept after a merge carry exactly the old keys and the incoming keys. */
  lemma {:induction false} MergeKeys(acc: seq<Place>, incoming: seq<Place>)
    ensures Keys(Merge(acc, incoming)) == Keys(acc) + Keys(incoming)
    decreases |incoming|
  {
    if incoming != [] {
      var init := incoming[..|incoming| - 1];
      var last := incoming[|incoming| - 1];
      MergeKeys(acc, init);
      KeysAppend(Merge(acc, init), [last]);
      assert incoming == init + [last];
      KeysAppend(init, [last]);
    }
  }

  /**
   * Merging never rewrites or reorders what was kept: the old records are a
   * prefix of the result, and every appended record came from the page.
   */
  lemma {:induction false} MergeExtends(acc: seq<Place>, incoming: seq<Place>)
    ensures |Merge(acc, incoming)| >= |acc|
    ensures Merge(acc, incoming)[..|acc|] == acc
    ensures forall k :: |acc| <= k < |Merge(acc, incoming)| ==> Merge(acc, incoming)[k] in incoming
    ensures |Merge(acc, incoming)| <= |acc| + |incoming|
    decreases |incoming|
  {
    if incoming != [] {
      var init := incoming[..|incoming| - 1];
      MergeExtends(acc, init);
      assert forall q :: q in init ==> q in incoming;
    }
  }

  /** The uniqueness invariant of `all_places` survives every merge. */
  lemma {:induction false} MergeKeepsKeysUnique(acc: seq<Place>, incoming: seq<Place>)
    requires UniqueKeys(acc)
    ensures UniqueKeys(Merge(acc, incoming))
    decreases |incoming|
  {
    if incoming != [] {
      var init := incoming[..|incoming| - 1];
      var last := incoming[|incoming| - 1];
      MergeKeepsKeysUnique(acc, init);
      var m := Merge(acc, init);
      if KeyOf(last) !in Keys(m) {
        var r := m + [last];
        forall i, j | 0 <= i < j < |r|
          ensures KeyOf(r[i]) != KeyOf(r[j])
        {
          if j == |m| {
            assert r[i] in m;
          }
        }
      }
    }
  }

  lemma FirstOfKeyIsUnseen(xs: seq<Place>, i: int)
    requires 0 <= i < |xs|
    ensures FirstOfKey(xs, i) <==> KeyOf(xs[i]) !in Keys(xs[..i])
  {
    if FirstOfKey(xs, i) {
      forall q | q in xs[..i]
        ensures KeyOf(q) != KeyOf(xs[i])
      {
        var i' :| 0 <= i' < i && xs[..i][i'] == q;
      }
    } else {
      var i' :| 0 <= i' < i && KeyOf(xs[i']) == KeyOf(xs[i]);
      assert xs[..i][i'] in xs[..i];
    }
  }

  /** The incremental merge appends exactly the first-seen records with unseen keys, in arrival order. */
  lemma {:induction false} MergeIsFirstSeen(acc: seq<Place>, xs: seq<Place>, n: nat)
    requires n <= |xs|
    ensures Merge(acc, xs[..n]) == acc + FirstSeen(acc, xs, n)
  {
    if n == 0 {
      assert xs[..0] == [];
    } else {
      MergeIsFirstSeen(acc, xs, n - 1);
      var prev := Merge(acc, xs[..n - 1]);
      var p := xs[n - 1];
      assert Merge(acc, xs[..n]) == Add(prev, p) by {
        assert xs[..n][..n - 1] == xs[..n - 1];
        assert xs[..n][n - 1] == p;
      }
      MergeKeys(acc, xs[..n - 1]);
      FirstOfKeyIsUnseen(xs, n - 1);
      assert (KeyOf(p) in Keys(prev)) == !(KeyOf(p) !in Keys(acc) && FirstOfKey(xs, n - 1));
    }
  }

  lemma MergeMatchesFirstSeen(acc: seq<Place>, incoming: seq<Place>)
    ensures Merge(acc, incoming) == acc + FirstSeen(acc, incoming, |incoming|)
  {
    MergeIsFirstSeen(acc, incoming, |incoming|);
    assert incoming[..|incoming|] == incoming;
  }

  /** Merging two pages one after the other is merging their concatenation. */
  lemma {:induction false} MergeConcat(acc: seq<Place>, x: seq<Place>, y: seq<Place>)
    ensures Merge(Merge(acc, x), y) == Merge(acc, x + y)
    decreases |y|
  {
    if y == [] {
      assert x + y == x;
    } else {
      var init := y[..|y| - 1];
      MergeConcat(acc, x, init);
      assert (x + y)[..|x + y| - 1] == x + init;
    }
  }

  /** A page whose keys are all known changes nothing. */
  lemma {:induction false} MergeAbsorbsKnown(acc: seq<Place>, incoming: seq<Place>)
    requires Keys(incoming) <= Keys(acc)
    ensures Merge(acc, incoming) == acc
    decreases |incoming|
  {
    if incoming != [] {
      var init := incoming[..|incoming| - 1];
      assert Keys(init) <= Keys(incoming);
      MergeAbsorbsKnown(acc, init);
      assert incoming[|incoming| - 1] in incoming;
    }
  }

  /** Re-merging the same page is a no-op. */
  lemma MergeIdempotent(acc: seq<Place>, incoming: seq<Place>)
    ensures Merge(Merge(acc, incoming), incoming) == Merge(acc, incoming)
  {
    MergeKeys(acc, incoming);
    MergeAbsorbsKnown(Merge(acc, incoming), incoming);
  }
}
