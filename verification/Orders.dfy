/** Sets in some order: the loops of the source over its ordered and unordered maps. */
module Orders {
  /** Each element of `s` once, in some order. */
  ghost predicate Enumerates<T(!new)>(order: seq<T>, s: set<T>) {
    && (forall i, j | 0 <= i < j < |order| :: order[i] != order[j])
    && (forall x :: x in order <==> x in s)
  }

  lemma EnumeratesMore<T(!new)>(a: seq<T>, s: set<T>, b: seq<T>, t: set<T>)
    requires Enumerates(a, s) && Enumerates(b, t) && s !! t
    ensures Enumerates(a + b, s + t)
  {
    var c := a + b;
    forall i, j | 0 <= i < j < |c|
      ensures c[i] != c[j]
    {
      if i < |a| <= j {
        assert c[i] in a && c[j] in b;
      }
    }
  }

  method SetToSeq<T(!new,==)>(s: set<T>) returns (q: seq<T>)
    ensures Enumerates(q, s)
  {
    q := [];
    var left := s;
    while left != {}
      invariant left <= s && Enumerates(q, s - left)
    {
      var x :| x in left;
      left := left - {x};
      q := q + [x];
    }
  }
}
