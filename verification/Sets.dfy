/** Sequences without repetition. */
module Sequences {

  ghost predicate Distinct<T>(s: seq<T>) {
    forall i, j :: 0 <= i < j < |s| ==> s[i] != s[j]
  }

  lemma {:induction false} DistinctConcat<T>(a: seq<T>, b: seq<T>)
    requires Distinct(a) && Distinct(b) && forall x :: x in a ==> x !in b
    ensures Distinct(a + b)
  {
    forall i, j | 0 <= i < j < |a + b| ensures (a + b)[i] != (a + b)[j] {
      if i < |a| <= j {
        assert a[i] in a && b[j - |a|] in b;
      }
    }
  }
}

/** The least and the greatest element of a finite set of numbers. */
module Sets {

  method Minimum(s: set<nat>) returns (m: nat)
    requires s != {}
    ensures m in s && forall c :: c in s ==> m <= c
  {
    m :| m in s;
    var todo := s - {m};
    while todo != {}
      invariant todo <= s && m in s && forall c :: c in s ==> c in todo || m <= c
    {
      var c :| c in todo;
      if c < m {
        m := c;
      }
      todo := todo - {c};
    }
  }

  method Maximum(s: set<nat>) returns (m: nat)
    requires s != {}
    ensures m in s && forall c :: c in s ==> c <= m
  {
    m :| m in s;
    var todo := s - {m};
    while todo != {}
      invariant todo <= s && m in s && forall c :: c in s ==> c in todo || c <= m
    {
      var c :| c in todo;
      if c > m {
        m := c;
      }
      todo := todo - {c};
    }
  }
}
