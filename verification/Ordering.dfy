/**
 ORDER BY on a text column: what a server may answer, and how far that determines
 the answer.
 */
module Ordering {
  import opened Collections

  ghost predicate TotalOrder(leq: (string, string) -> bool) {
    && (forall a, b :: leq(a, b) || leq(b, a))
    && (forall a, b :: leq(a, b) && leq(b, a) ==> a == b)
    && (forall a, b, c :: leq(a, b) && leq(b, c) ==> leq(a, c))
  }

  /** The byte order of the C locale. */
  predicate LexLeq(a: string, b: string) {
    a == "" || (b != "" && if a[0] == b[0] then LexLeq(a[1..], b[1..]) else a[0] < b[0])
  }

  lemma {:induction false} LexTotal(a: string, b: string)
    ensures LexLeq(a, b) || LexLeq(b, a)
    ensures LexLeq(a, b) && LexLeq(b, a) ==> a == b
  {
    if a != "" && b != "" && a[0] == b[0] {
      LexTotal(a[1..], b[1..]);
      assert a == [a[0]] + a[1..] && b == [b[0]] + b[1..];
    }
  }

  lemma {:induction false} LexTransitive(a: string, b: string, c: string)
    requires LexLeq(a, b) && LexLeq(b, c)
    ensures LexLeq(a, c)
  {
    if a != "" && a[0] == b[0] == c[0] {
      LexTransitive(a[1..], b[1..], c[1..]);
    }
  }

  lemma LexIsTotal()
    ensures TotalOrder(LexLeq)
  {
    forall a, b ensures (LexLeq(a, b) || LexLeq(b, a)) && (LexLeq(a, b) && LexLeq(b, a) ==> a == b) {
      LexTotal(a, b);
    }
    forall a, b, c | LexLeq(a, b) && LexLeq(b, c) ensures LexLeq(a, c) {
      LexTransitive(a, b, c);
    }
  }

  /** Whatever collation the server uses, it is a total order. */
  type Collation = leq: (string, string) -> bool | TotalOrder(leq) witness (LexIsTotal(); LexLeq)

  ghost predicate Ascending<T(!new)>(rows: seq<T>, key: T -> string, leq: Collation) {
    forall i, j | 0 <= i <= j < |rows| :: leq(key(rows[i]), key(rows[j]))
  }

  /** What the server may answer: every selected row once, keys ascending, ties in any order. */
  ghost predicate Answers<T(!new)>(rows: seq<T>, selected: set<T>, key: T -> string, leq: Collation) {
    Distinct(rows) && Elements(rows) == selected && Ascending(rows, key, leq)
  }

  // ---- some such answer ---------------------------------------------------------------------

  lemma Inserted<T>(rows: seq<T>, x: T, i: nat)
    requires Distinct(rows) && x !in rows && i <= |rows|
    ensures var more := rows[..i] + [x] + rows[i..]; Distinct(more) && Elements(more) == Elements(rows) + {x}
  {
    var more := rows[..i] + [x] + rows[i..];
    forall y | y in Elements(rows) + {x} ensures y in more {
      if y != x {
        var k :| 0 <= k < |rows| && rows[k] == y;
        assert more[if k < i then k else k + 1] == y;
      } else {
        assert more[i] == x;
      }
    }
  }

  method Insert<T(==, !new)>(rows: seq<T>, x: T, key: T -> string, leq: Collation) returns (more: seq<T>)
    requires Answers(rows, Elements(rows), key, leq) && x !in rows
    ensures Answers(more, Elements(rows) + {x}, key, leq)
  {
    var i := 0;
    while i < |rows| && leq(key(rows[i]), key(x))
      invariant i <= |rows| && forall k | 0 <= k < i :: leq(key(rows[k]), key(x))
    {
      i := i + 1;
    }
    forall k | i <= k < |rows| ensures leq(key(x), key(rows[k])) {
      assert leq(key(rows[i]), key(rows[k]));
    }
    more := rows[..i] + [x] + rows[i..];
    Inserted(rows, x, i);
  }

  method OrderBy<T(==, !new)>(selected: set<T>, key: T -> string, leq: Collation) returns (rows: seq<T>)
    ensures Answers(rows, selected, key, leq)
  {
    rows := [];
    var rest := selected;
    while rest != {}
      invariant rest <= selected && Answers(rows, selected - rest, key, leq)
    {
      var x :| x in rest;
      assert x !in Elements(rows);
      rows := Insert(rows, x, key, leq);
      rest := rest - {x};
      assert selected - rest == (selected - rest - {x}) + {x};
    }
  }

  // ---- any two such answers -----------------------------------------------------------------

  ghost predicate SameSorted<T(!new)>(a: seq<T>, b: seq<T>, key: T -> string, leq: Collation) {
    multiset(a) == multiset(b) && Ascending(a, key, leq) && Ascending(b, key, leq)
  }

  /** The rows of b from the position of a's last row on all carry its key. */
  lemma TailTies<T(!new)>(a: seq<T>, b: seq<T>, key: T -> string, leq: Collation, j: nat, k: nat)
    requires SameSorted(a, b, key, leq) && |a| > 0 && j <= k < |b| && b[j] == a[|a| - 1]
    ensures key(b[k]) == key(a[|a| - 1])
  {
    assert b[k] in multiset(a);
    var i :| 0 <= i < |a| && a[i] == b[k];
    assert leq(key(a[i]), key(a[|a| - 1])) && leq(key(b[j]), key(b[k]));
  }

  lemma DropKeepsAscending<T(!new)>(b: seq<T>, key: T -> string, leq: Collation, j: nat)
    requires Ascending(b, key, leq) && j < |b|
    ensures Ascending(b[..j] + b[j + 1..], key, leq)
  {
    var b' := b[..j] + b[j + 1..];
    forall i, k | 0 <= i <= k < |b'| ensures leq(key(b'[i]), key(b'[k])) {
      assert b'[i] == b[if i < j then i else i + 1] && b'[k] == b[if k < j then k else k + 1];
    }
  }

  lemma DropBoth<T(!new)>(a: seq<T>, b: seq<T>, key: T -> string, leq: Collation, j: nat)
    requires SameSorted(a, b, key, leq) && |a| > 0 && j < |b| && b[j] == a[|a| - 1]
    ensures SameSorted(a[..|a| - 1], b[..j] + b[j + 1..], key, leq)
  {
    assert a == a[..|a| - 1] + [b[j]];
    assert b == b[..j] + [b[j]] + b[j + 1..];
    assert multiset(a[..|a| - 1]) == multiset(a) - multiset{b[j]};
    assert multiset(b[..j] + b[j + 1..]) == multiset(b) - multiset{b[j]};
    DropKeepsAscending(a, key, leq, |a| - 1);
    assert a[..|a| - 1] == a[..|a| - 1] + a[|a|..];
    DropKeepsAscending(b, key, leq, j);
  }

  lemma {:induction false} SortedKeysAgree<T(!new)>(a: seq<T>, b: seq<T>, key: T -> string, leq: Collation)
    requires SameSorted(a, b, key, leq)
    ensures |a| == |b| && forall i | 0 <= i < |a| :: key(a[i]) == key(b[i])
    decreases |a|
  {
    assert |a| == |multiset(a)| == |multiset(b)| == |b|;
    if a != [] {
      var n := |a| - 1;
      assert a[n] in multiset(b);
      var j :| 0 <= j < |b| && b[j] == a[n];
      var b' := b[..j] + b[j + 1..];
      DropBoth(a, b, key, leq, j);
      SortedKeysAgree(a[..n], b', key, leq);
      forall i | 0 <= i < |a| ensures key(a[i]) == key(b[i]) {
        if i >= j {
          TailTies(a, b, key, leq, j, i);
          if i < n {
            TailTies(a, b, key, leq, j, i + 1);
            assert b'[i] == b[i + 1] && a[..n][i] == a[i];
          }
        } else {
          assert b'[i] == b[i] && a[..n][i] == a[i];
        }
      }
    }
  }

  /** Two answers to the same query agree key by key; only rows with equal keys may trade places. */
  lemma AnswersAgree<T(!new)>(a: seq<T>, b: seq<T>, selected: set<T>, key: T -> string, leq: Collation)
    requires Answers(a, selected, key, leq) && Answers(b, selected, key, leq)
    ensures |a| == |b| && forall i | 0 <= i < |a| :: key(a[i]) == key(b[i])
  {
    DistinctCounts(a);
    DistinctCounts(b);
    assert multiset(a) == multiset(b);
    SortedKeysAgree(a, b, key, leq);
  }

  /** When no two selected rows share a key, there is one answer. */
  lemma AnswerIsUnique<T(!new)>(a: seq<T>, b: seq<T>, selected: set<T>, key: T -> string, leq: Collation)
    requires Answers(a, selected, key, leq) && Answers(b, selected, key, leq)
    requires forall x, y | x in selected && y in selected && key(x) == key(y) :: x == y
    ensures a == b
  {
    AnswersAgree(a, b, selected, key, leq);
    forall i | 0 <= i < |a| ensures a[i] == b[i] {
      assert a[i] in Elements(a) && b[i] in Elements(b);
    }
  }
}
