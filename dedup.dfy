/** Keep-first de-duplication with a `seen` set, the loop both student-list
    scripts run over their records (keyed by student ID) and the scraper runs
    over listing links (keyed by the link itself). */
module Dedup {

  /** The keys of the elements of `s`. */
  function KeySet<T, K(==)>(s: seq<T>, key: T -> K): set<K> {
    set k | 0 <= k < |s| :: key(s[k])
  }

  /** The specification of the loop: process `s` left to right, keeping an
      element only when no earlier kept element has its key. */
  function KeepFirst<T, K(==)>(s: seq<T>, key: T -> K): seq<T> {
    if s == [] then []
    else
      var kept := KeepFirst(s[..|s| - 1], key);
      if key(s[|s| - 1]) in KeySet(kept, key) then kept else kept + [s[|s| - 1]]
  }

  /** No two elements of `u` share a key. */
  predicate DistinctKeys<T, K(==)>(u: seq<T>, key: T -> K) {
    forall a, b :: 0 <= a < b < |u| ==> key(u[a]) != key(u[b])
  }

  /** `s[i]` is the first element of `s` with its key. */
  predicate IsFirstWithKey<T, K(==)>(s: seq<T>, key: T -> K, i: int)
    requires 0 <= i < |s|
  {
    key(s[i]) !in KeySet(s[..i], key)
  }

  /** An independent description of the result: the first occurrences of each
      key, taken in input order. */
  function FirstOccurrences<T, K(==)>(s: seq<T>, key: T -> K): seq<T> {
    if s == [] then []
    else
      FirstOccurrences(s[..|s| - 1], key)
        + (if IsFirstWithKey(s, key, |s| - 1) then [s[|s| - 1]] else [])
  }

  /** The dedup loop: `seen` holds the keys kept so far. */
  method DedupByKey<T, K(==)>(s: seq<T>, key: T -> K) returns (unique: seq<T>)
    ensures unique == KeepFirst(s, key)
  {
    var seen: set<K> := {};
    unique := [];
    for i := 0 to |s|
      invariant unique == KeepFirst(s[..i], key)
      invariant seen == KeySet(unique, key)
    {
      assert s[..i + 1][..i] == s[..i];
      if key(s[i]) !in seen {
        KeySetAppend(unique, s[i], key);
        seen := seen + {key(s[i])};
        unique := unique + [s[i]];
      }
    }
    assert s[..|s|] == s;
  }

  // ---------------------------------------------------------------------
  // Properties of KeepFirst

  lemma KeySetAppend<T, K>(s: seq<T>, x: T, key: T -> K)
    ensures KeySet(s + [x], key) == KeySet(s, key) + {key(x)}
  {
    var l := KeySet(s + [x], key);
    var r := KeySet(s, key) + {key(x)};
    forall k | k in l ensures k in r {
      var j :| 0 <= j < |s| + 1 && key((s + [x])[j]) == k;
      if j < |s| { assert (s + [x])[j] == s[j]; }
    }
    forall k | k in r ensures k in l {
      if k == key(x) {
        assert (s + [x])[|s|] == x;
      } else {
        var j :| 0 <= j < |s| && key(s[j]) == k;
        assert (s + [x])[j] == s[j];
      }
    }
  }

  /** Every key of the input survives, and no other key appears. */
  lemma {:induction false} KeepFirstKeys<T, K>(s: seq<T>, key: T -> K)
    ensures KeySet(KeepFirst(s, key), key) == KeySet(s, key)
  {
    if s != [] {
      var p := s[..|s| - 1];
      var x := s[|s| - 1];
      KeepFirstKeys(p, key);
      KeySetAppend(p, x, key);
      assert p + [x] == s;
      KeySetAppend(KeepFirst(p, key), x, key);
    }
  }

  /** No two kept elements share a key. */
  lemma {:induction false} KeepFirstDistinct<T, K>(s: seq<T>, key: T -> K)
    ensures DistinctKeys(KeepFirst(s, key), key)
  {
    if s != [] {
      var p := s[..|s| - 1];
      var x := s[|s| - 1];
      KeepFirstDistinct(p, key);
      var kept := KeepFirst(p, key);
      if key(x) !in KeySet(kept, key) {
        var u := kept + [x];
        assert KeepFirst(s, key) == u;
        forall a, b | 0 <= a < b < |u| ensures key(u[a]) != key(u[b]) {
          assert u[a] == kept[a];
          if b == |kept| {
            assert u[b] == x;
            assert key(kept[a]) in KeySet(kept, key);
          } else {
            assert u[b] == kept[b];
          }
        }
      }
    }
  }

  /** The result is exactly the first occurrences of each key, in input order. */
  lemma {:induction false} KeepFirstIsFirstOccurrences<T, K>(s: seq<T>, key: T -> K)
    ensures KeepFirst(s, key) == FirstOccurrences(s, key)
  {
    if s != [] {
      var p := s[..|s| - 1];
      KeepFirstIsFirstOccurrences(p, key);
      KeepFirstKeys(p, key);
      assert s[..|s| - 1] == p;
    }
  }

  /** Each kept element is one of the input elements. */
  lemma {:induction false} KeepFirstFromInput<T, K>(s: seq<T>, key: T -> K)
    ensures forall x :: x in KeepFirst(s, key) ==> x in s
  {
    if s != [] {
      var p := s[..|s| - 1];
      KeepFirstFromInput(p, key);
      assert forall x :: x in p ==> x in s;
    }
  }
}
