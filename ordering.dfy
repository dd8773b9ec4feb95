/** A stable sort by an integer rank, as Python's `list.sort(key=...)` and
    the row sort of the Excel export perform it, with the three things a
    sort promises: the result is ordered, it is a rearrangement, and records
    of equal rank keep their order. */
module Ordering {
  import opened Text

  predicate Sorted<R>(rank: R -> int, s: seq<R>) {
    forall i, j :: 0 <= i < j < |s| ==> rank(s[i]) <= rank(s[j])
  }

  /** Places `x` before the first record whose rank is not smaller. */
  function Insert<R>(rank: R -> int, x: R, s: seq<R>): seq<R> {
    if s == [] then [x]
    else if rank(x) <= rank(s[0]) then [x] + s
    else [s[0]] + Insert(rank, x, s[1..])
  }

  /** Insertion sort, which is stable. */
  function SortBy<R>(rank: R -> int, rs: seq<R>): seq<R> {
    if rs == [] then [] else Insert(rank, rs[0], SortBy(rank, rs[1..]))
  }

  /** What one record contributes to `WithRank`. */
  function Pick<R>(rank: R -> int, r: R, v: int): seq<R> {
    if rank(r) == v then [r] else []
  }

  /** The records of rank `v`, in order: what stability is about. */
  function WithRank<R>(rank: R -> int, rs: seq<R>, v: int): seq<R> {
    if rs == [] then [] else Pick(rank, rs[0], v) + WithRank(rank, rs[1..], v)
  }

  lemma {:induction false} InsertSorted<R>(rank: R -> int, x: R, s: seq<R>)
    requires Sorted(rank, s)
    ensures Sorted(rank, Insert(rank, x, s))
  {
    if s != [] && rank(x) > rank(s[0]) {
      var s' := s[1..];
      InsertSorted(rank, x, s');
      var t := Insert(rank, x, s');
      InsertPermutes(rank, x, s');
      assert forall i :: 0 <= i < |t| ==> rank(s[0]) <= rank(t[i]) by {
        forall i | 0 <= i < |t| ensures rank(s[0]) <= rank(t[i]) {
          assert t[i] in multiset(t);
          if t[i] != x {
            assert t[i] in multiset(s');
            var j :| 0 <= j < |s'| && s'[j] == t[i];
            assert s[j + 1] == s'[j];
          }
        }
      }
      var u := [s[0]] + t;
      forall i, j | 0 <= i < j < |u| ensures rank(u[i]) <= rank(u[j]) {
        assert u[j] == t[j - 1];
        if i > 0 { assert u[i] == t[i - 1]; }
      }
    } else if s != [] {
      var u := [x] + s;
      forall i, j | 0 <= i < j < |u| ensures rank(u[i]) <= rank(u[j]) {
        assert u[j] == s[j - 1];
        if i > 0 { assert u[i] == s[i - 1]; }
      }
    }
  }

  /** The sort orders by rank and only rearranges. */
  lemma {:induction false} SortBySorted<R>(rank: R -> int, rs: seq<R>)
    ensures Sorted(rank, SortBy(rank, rs))
    ensures multiset(SortBy(rank, rs)) == multiset(rs)
  {
    if rs != [] {
      SortBySorted(rank, rs[1..]);
      InsertSorted(rank, rs[0], SortBy(rank, rs[1..]));
      InsertPermutes(rank, rs[0], SortBy(rank, rs[1..]));
      assert rs == [rs[0]] + rs[1..];
    }
  }

  lemma {:induction false} WithRankAppend<R>(rank: R -> int, a: seq<R>, b: seq<R>, v: int)
    ensures WithRank(rank, a + b, v) == WithRank(rank, a, v) + WithRank(rank, b, v)
  {
    if a == [] {
      assert a + b == b;
    } else {
      WithRankAppend(rank, a[1..], b, v);
      WithRankConsAppend(rank, a, b, v);
      AppendAssoc(Pick(rank, a[0], v), WithRank(rank, a[1..], v), WithRank(rank, b, v));
    }
  }

  lemma WithRankConsAppend<R>(rank: R -> int, a: seq<R>, b: seq<R>, v: int)
    requires a != []
    ensures WithRank(rank, a + b, v) == Pick(rank, a[0], v) + WithRank(rank, a[1..] + b, v)
  {
    assert (a + b)[0] == a[0];
    assert (a + b)[1..] == a[1..] + b;
  }

  lemma WithRankCons<R>(rank: R -> int, r: R, s: seq<R>, v: int)
    ensures WithRank(rank, [r] + s, v) == Pick(rank, r, v) + WithRank(rank, s, v)
  {
    assert ([r] + s)[1..] == s;
  }

  lemma {:induction false} InsertStable<R>(rank: R -> int, x: R, s: seq<R>, v: int)
    ensures WithRank(rank, Insert(rank, x, s), v) == Pick(rank, x, v) + WithRank(rank, s, v)
  {
    if s == [] {
      assert WithRank(rank, [x], v) == Pick(rank, x, v) + [];
    } else if rank(x) <= rank(s[0]) {
      WithRankCons(rank, x, s, v);
    } else {
      var s' := s[1..];
      var a, b, c := Pick(rank, x, v), Pick(rank, s[0], v), WithRank(rank, s', v);
      InsertStable(rank, x, s', v);
      WithRankCons(rank, s[0], Insert(rank, x, s'), v);
      assert WithRank(rank, Insert(rank, x, s), v) == b + (a + c);
      assert WithRank(rank, s, v) == b + c;
      assert a == [] || b == [];
      AppendAssoc(b, a, c);
      AppendAssoc(a, b, c);
      assert b + a == a + b;
    }
  }

  /** Stability: records of equal rank keep their relative order. */
  lemma {:induction false} SortByStable<R>(rank: R -> int, rs: seq<R>, v: int)
    ensures WithRank(rank, SortBy(rank, rs), v) == WithRank(rank, rs, v)
  {
    if rs != [] {
      SortByStable(rank, rs[1..], v);
      InsertStable(rank, rs[0], SortBy(rank, rs[1..]), v);
    }
  }

  lemma {:induction false} InsertPermutes<R>(rank: R -> int, x: R, s: seq<R>)
    ensures multiset(Insert(rank, x, s)) == multiset(s) + multiset{x}
  {
    if s != [] && rank(x) > rank(s[0]) {
      InsertPermutes(rank, x, s[1..]);
      assert s == [s[0]] + s[1..];
    }
  }
}
