/** Options, and the few facts about sequences and sets used throughout. */
module Collections {

  datatype Option<+T> = None | Some(value: T)

  predicate Distinct<T(==)>(s: seq<T>) {
    forall i, j | 0 <= i < j < |s| :: s[i] != s[j]
  }

  function Elements<T>(xs: seq<T>): (s: set<T>)
    ensures s == {} <==> xs == []
  {
    var s := set x | x in xs;
    assert xs != [] ==> xs[0] in s;
    s
  }

  /** The elements of a set in some order, as Go's maps.Keys yields them. */
  method Collect<T(==)>(s: set<T>) returns (q: seq<T>)
    ensures Distinct(q) && forall x :: x in q <==> x in s
  {
    q := [];
    var rest := s;
    while rest != {}
      invariant rest <= s && Distinct(q)
      invariant forall x :: x in q <==> x in s && x !in rest
    {
      var x :| x in rest;
      q := q + [x];
      rest := rest - {x};
    }
  }

  /** Keeps the first occurrence of every element. */
  method Dedup<T(==)>(xs: seq<T>) returns (unique: seq<T>)
    ensures Distinct(unique) && forall x :: x in unique <==> x in xs
  {
    var seen: set<T> := {};
    unique := [];
    for i := 0 to |xs|
      invariant Distinct(unique)
      invariant forall x :: x in unique <==> x in xs[..i]
      invariant forall x :: x in unique <==> x in seen
    {
      if xs[i] !in seen {
        seen := seen + {xs[i]};
        unique := unique + [xs[i]];
      }
    }
  }

  lemma {:induction false} DistinctCounts<T>(xs: seq<T>)
    requires Distinct(xs)
    ensures forall x :: multiset(xs)[x] == if x in Elements(xs) then 1 else 0
  {
    if xs != [] {
      var rest := xs[..|xs| - 1];
      DistinctCounts(rest);
      assert xs == rest + [xs[|xs| - 1]];
      assert xs[|xs| - 1] !in Elements(rest);
    }
  }
}
