/** The difference between two ordered maps (cardano/src/util/diff_maps.rs), found by one merge of their keys. */
module MapDiff {
  import opened Sets

  ghost predicate Sorted(s: seq<nat>) {
    forall i, j :: 0 <= i < j < |s| ==> s[i] < s[j]
  }

  /** The keys of an ordered map, in iteration order. */
  method SortedKeys<V>(m: map<nat, V>) returns (s: seq<nat>)
    ensures Keys(m, s)
  {
    s := [];
    var todo := m.Keys;
    while todo != {}
      invariant Sorted(s)
      invariant forall k :: k in m <==> k in s || k in todo
      invariant forall k, l :: k in s && l in todo ==> k < l
      decreases |todo|
    {
      var k := Minimum(todo);
      assert forall i :: 0 <= i < |s| ==> s[i] in s;
      s := s + [k];
      todo := todo - {k};
    }
  }

  /** The keys that are only in the first map, and the entries whose keys are only in the second. */
  ghost function Removed<V>(m1: map<nat, V>, m2: map<nat, V>): (s: set<nat>) {
    m1.Keys - m2.Keys
  }

  ghost function Added<V>(m1: map<nat, V>, m2: map<nat, V>): (m: map<nat, V>) {
    m2 - m1.Keys
  }

  /** The keys below the bound are those at the first a positions. */
  ghost predicate Passed(keys: seq<nat>, a: nat, bound: nat) {
    a <= |keys| && forall i :: 0 <= i < |keys| ==> (i < a <==> keys[i] < bound)
  }

  lemma {:induction false} NextKey(keys: seq<nat>, a: nat, bound: nat, n: nat)
    requires Sorted(keys) && Passed(keys, a, bound) && bound <= n && (a < |keys| ==> n <= keys[a])
    ensures Passed(keys, if a < |keys| && keys[a] == n then a + 1 else a, n + 1)
    ensures forall k :: k in keys && bound <= k <= n ==> k == n
    ensures n in keys <==> a < |keys| && keys[a] == n
  {
  }

  ghost function RemovedBelow<V>(m1: map<nat, V>, m2: map<nat, V>, bound: nat): (s: set<nat>) {
    set k | k in m1 && k !in m2 && k < bound
  }

  ghost function AddedBelow<V>(m1: map<nat, V>, m2: map<nat, V>, bound: nat): (m: map<nat, V>) {
    map k | k in m2 && k !in m1 && k < bound :: m2[k]
  }

  /** One key decides how both differences grow. */
  lemma {:induction false} NextBound<V>(m1: map<nat, V>, m2: map<nat, V>, bound: nat, n: nat)
    requires bound <= n
    requires forall k :: k in m1 && bound <= k <= n ==> k == n
    requires forall k :: k in m2 && bound <= k <= n ==> k == n
    ensures RemovedBelow(m1, m2, n + 1) ==
              RemovedBelow(m1, m2, bound) + if n in m1 && n !in m2 then {n} else {}
    ensures AddedBelow(m1, m2, n + 1) ==
              if n in m2 && n !in m1 then AddedBelow(m1, m2, bound)[n := m2[n]] else AddedBelow(m1, m2, bound)
  {
  }

  /** The merge has dealt with all keys below the bound. */
  ghost predicate Merged<V>(m1: map<nat, V>, m2: map<nat, V>, k1: seq<nat>, k2: seq<nat>, a: nat, b: nat,
                            removed: set<nat>, added: map<nat, V>, bound: nat)
  {
    && Passed(k1, a, bound) && Passed(k2, b, bound)
    && removed == RemovedBelow(m1, m2, bound) && added == AddedBelow(m1, m2, bound)
  }

  ghost predicate Keys<V>(m: map<nat, V>, keys: seq<nat>) {
    Sorted(keys) && forall k :: k in keys <==> k in m
  }

  lemma {:induction false} OnlyFirst<V>(m1: map<nat, V>, m2: map<nat, V>, k1: seq<nat>, k2: seq<nat>, a: nat, b: nat,
                     removed: set<nat>, added: map<nat, V>, bound: nat)
    requires Keys(m1, k1) && Keys(m2, k2) && Merged(m1, m2, k1, k2, a, b, removed, added, bound)
    requires a < |k1| && (b < |k2| ==> k1[a] < k2[b])
    ensures Merged(m1, m2, k1, k2, a + 1, b, removed + {k1[a]}, added, k1[a] + 1)
  {
    NextKey(k1, a, bound, k1[a]);
    NextKey(k2, b, bound, k1[a]);
    NextBound(m1, m2, bound, k1[a]);
  }

  lemma {:induction false} OnlySecond<V>(m1: map<nat, V>, m2: map<nat, V>, k1: seq<nat>, k2: seq<nat>, a: nat, b: nat,
                      removed: set<nat>, added: map<nat, V>, bound: nat)
    requires Keys(m1, k1) && Keys(m2, k2) && Merged(m1, m2, k1, k2, a, b, removed, added, bound)
    requires b < |k2| && (a < |k1| ==> k2[b] < k1[a])
    ensures k2[b] in k2 && Merged(m1, m2, k1, k2, a, b + 1, removed, added[k2[b] := m2[k2[b]]], k2[b] + 1)
  {
    NextKey(k1, a, bound, k2[b]);
    NextKey(k2, b, bound, k2[b]);
    NextBound(m1, m2, bound, k2[b]);
  }

  lemma {:induction false} InBoth<V>(m1: map<nat, V>, m2: map<nat, V>, k1: seq<nat>, k2: seq<nat>, a: nat, b: nat,
                  removed: set<nat>, added: map<nat, V>, bound: nat)
    requires Keys(m1, k1) && Keys(m2, k2) && Merged(m1, m2, k1, k2, a, b, removed, added, bound)
    requires a < |k1| && b < |k2| && k1[a] == k2[b]
    ensures Merged(m1, m2, k1, k2, a + 1, b + 1, removed, added, k1[a] + 1)
  {
    NextKey(k1, a, bound, k1[a]);
    NextKey(k2, b, bound, k1[a]);
    NextBound(m1, m2, bound, k1[a]);
  }

  method DiffMaps<V>(m1: map<nat, V>, m2: map<nat, V>) returns (removed: set<nat>, added: map<nat, V>)
    ensures removed == Removed(m1, m2)
    ensures added == Added(m1, m2)
  {
    var k1 := SortedKeys(m1);
    var k2 := SortedKeys(m2);
    removed, added := {}, map[];
    var a, b := 0, 0;
    ghost var bound := 0;
    while a < |k1| || b < |k2|
      invariant a <= |k1| && b <= |k2| && Merged(m1, m2, k1, k2, a, b, removed, added, bound)
      decreases |k1| + |k2| - a - b
    {
      if b == |k2| || (a < |k1| && k1[a] < k2[b]) {
        OnlyFirst(m1, m2, k1, k2, a, b, removed, added, bound);
        bound := k1[a] + 1;
        removed := removed + {k1[a]};
        a := a + 1;
      } else if a == |k1| || k1[a] > k2[b] {
        OnlySecond(m1, m2, k1, k2, a, b, removed, added, bound);
        bound := k2[b] + 1;
        added := added[k2[b] := m2[k2[b]]];
        b := b + 1;
      } else {
        InBoth(m1, m2, k1, k2, a, b, removed, added, bound);
        bound := k1[a] + 1;
        a, b := a + 1, b + 1;
      }
    }
    MergeDone(m1, m2, k1, k2, removed, added, bound);
  }

  lemma {:induction false} MergeDone<V>(m1: map<nat, V>, m2: map<nat, V>, k1: seq<nat>, k2: seq<nat>,
                     removed: set<nat>, added: map<nat, V>, bound: nat)
    requires Keys(m1, k1) && Keys(m2, k2) && Merged(m1, m2, k1, k2, |k1|, |k2|, removed, added, bound)
    ensures removed == Removed(m1, m2) && added == Added(m1, m2)
  {
    AllPassed(k1, bound);
    AllPassed(k2, bound);
  }

  lemma {:induction false} AllPassed(keys: seq<nat>, bound: nat)
    requires Passed(keys, |keys|, bound)
    ensures forall k :: k in keys ==> k < bound
  {
  }

  /** Two maps that give the same value to every key they share. */
  ghost predicate AgreeOnCommon<V(!new)>(m1: map<nat, V>, m2: map<nat, V>) {
    forall k :: k in m1 && k in m2 ==> m1[k] == m2[k]
  }

  /** Applying the difference to the first map gives the second exactly when shared keys have equal values. */
  lemma {:induction false} PatchRoundTrip<V(!new)>(m1: map<nat, V>, m2: map<nat, V>)
    ensures (m1 - Removed(m1, m2)) + Added(m1, m2) == m2 <==> AgreeOnCommon(m1, m2)
  {
    var p := (m1 - Removed(m1, m2)) + Added(m1, m2);
    assert p.Keys == m2.Keys;
    forall k | k in m1 && k in m2 ensures p[k] == m1[k] {
    }
  }
}
