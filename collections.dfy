/** Cardinality facts about images of sets and values of maps, used to count
    the rows a query returns. */
module Collections {

  /** Some key of a non-empty map. */
  lemma PickKey<K, V>(m: map<K, V>) returns (k: K)
    requires m != map[]
    ensures k in m
  {
    k :| k in m;
  }

  /** A key under which `v` is stored. */
  lemma KeyOf<K, V>(m: map<K, V>, v: V) returns (k: K)
    requires v in m.Values
    ensures k in m && m[k] == v
  {
    k :| k in m && m[k] == v;
  }

  /** The image of `s` under `f`. */
  function Image<A, B>(s: set<A>, f: A -> B): set<B> {
    set x | x in s :: f(x)
  }

  /** The image of `s` under a function that is injective on `s` has as many elements as `s`. */
  lemma {:induction false} InjectiveImageCardinality<A, B>(s: set<A>, f: A -> B)
    requires forall x, y :: x in s && y in s && f(x) == f(y) ==> x == y
    ensures |Image(s, f)| == |s|
  {
    if s != {} {
      var x :| x in s;
      var rest := s - {x};
      InjectiveImageCardinality(rest, f);
      assert Image(s, f) == Image(rest, f) + {f(x)};
      assert f(x) !in Image(rest, f);
    }
  }

  /** A map whose values are pairwise distinct has as many values as keys. */
  lemma {:induction false} DistinctValuesCardinality<K, V>(m: map<K, V>)
    requires forall k, k' :: k in m && k' in m && m[k] == m[k'] ==> k == k'
    ensures |m.Values| == |m|
  {
    if m != map[] {
      var k :| k in m;
      var rest := m - {k};
      DistinctValuesCardinality(rest);
      assert m.Values == rest.Values + {m[k]};
      assert m[k] !in rest.Values;
      assert m.Keys == rest.Keys + {k};
    }
  }
}
