/** Go iterates over a map in an arbitrary order. */
module MapIteration {

  /** The keys in order are all different and among those of the map. */
  ghost predicate IsPartialOrder(m: map<string, string>, order: seq<string>)
  {
    && (forall k | k in order :: k in m)
    && (forall i, j | 0 <= i < j < |order| :: order[i] != order[j])
  }

  /** An order of Go's map iteration: every key once. */
  ghost predicate IsOrder(m: map<string, string>, order: seq<string>)
  {
    && (forall k :: k in order <==> k in m)
    && (forall i, j | 0 <= i < j < |order| :: order[i] != order[j])
  }

  /** Every map can be iterated. */
  lemma {:induction false} SomeOrder(m: map<string, string>) returns (order: seq<string>)
    ensures IsOrder(m, order)
    decreases |m|
  {
    order := [];
    if m != map[] {
      var k :| k in m;
      order := SomeOrder(m - {k});
      order := [k] + order;
    }
  }

  /** An order of some keys can be completed. */
  lemma CompleteOrder(m: map<string, string>, left: set<string>, order: seq<string>) returns (rest: seq<string>)
    requires left <= m.Keys && IsPartialOrder(m, order) && forall s :: s in order <==> s in m.Keys - left
    ensures IsOrder(m, order + rest)
  {
    var others := m - (m.Keys - left);
    rest := SomeOrder(others);
    var all := order + rest;
    forall k ensures k in all <==> k in m {
      assert k in rest <==> k in others;
    }
    forall i, j | 0 <= i < j < |all| ensures all[i] != all[j] {
      if i < |order| <= j {
        assert order[i] in order && rest[j - |order|] in rest;
      }
    }
  }

  /** Any two keys can come last. */
  lemma OrderEndingIn(m: map<string, string>, s: string, t: string) returns (order: seq<string>)
    requires s in m && t in m && s != t
    ensures IsOrder(m, order + [s, t])
  {
    order := SomeOrder(m - {s, t});
    var all := order + [s, t];
    forall k ensures k in all <==> k in m {
      assert k in order <==> k in m - {s, t};
    }
  }
}
