/**
 * Sequence operations shared by the table models: the WHERE clause of a query
 * (Filter), supabase's `.single()` (Single), mongoose's `findOne` (First) and
 * the ORDER BY of a query (SortBy, an insertion sort under a comparator).
 */
module Seqs {
  import opened Wrappers

  /** The rows of `s` that satisfy `p`, in their original order. */
  function Filter<T(!new)>(s: seq<T>, p: T -> bool): (r: seq<T>)
    ensures |r| <= |s|
    ensures forall i :: 0 <= i < |r| ==> p(r[i])
    ensures multiset(r) <= multiset(s)
  {
    if s == [] then []
    else
      assert s == [s[0]] + s[1..];
      if p(s[0]) then [s[0]] + Filter(s[1..], p) else Filter(s[1..], p)
  }

  /** A row is in the result exactly when it is in the table and satisfies `p`. */
  lemma {:induction false} FilterMembers<T(!new)>(s: seq<T>, p: T -> bool)
    ensures forall x :: x in Filter(s, p) <==> x in s && p(x)
  {
    if s != [] {
      FilterMembers(s[1..], p);
      assert s == [s[0]] + s[1..];
    }
  }

  /** Filtering keeps every row that satisfies `p` exactly as often as it occurs. */
  lemma {:induction false} FilterMultiset<T(!new)>(s: seq<T>, p: T -> bool, x: T)
    ensures multiset(Filter(s, p))[x] == if p(x) then multiset(s)[x] else 0
  {
    if s != [] {
      var t := s[1..];
      FilterMultiset(t, p, x);
      assert s == [s[0]] + t;
      assert multiset(s) == multiset{s[0]} + multiset(t);
      if p(s[0]) {
        assert Filter(s, p) == [s[0]] + Filter(t, p);
        assert multiset(Filter(s, p)) == multiset{s[0]} + multiset(Filter(t, p));
      } else {
        assert Filter(s, p) == Filter(t, p);
      }
    }
  }

  /** A query that no row satisfies returns nothing. */
  lemma {:induction false} FilterEmpty<T(!new)>(s: seq<T>, p: T -> bool)
    requires forall i :: 0 <= i < |s| ==> !p(s[i])
    ensures Filter(s, p) == []
  {
    if s != [] {
      FilterEmpty(s[1..], p);
    }
  }

  /** A query that every row satisfies returns the rows unchanged. */
  lemma {:induction false} FilterAll<T(!new)>(s: seq<T>, p: T -> bool)
    requires forall i :: 0 <= i < |s| ==> p(s[i])
    ensures Filter(s, p) == s
  {
    if s != [] {
      FilterAll(s[1..], p);
    }
  }

  lemma FilterCons<T(!new)>(x: T, s: seq<T>, p: T -> bool)
    ensures Filter([x] + s, p) == if p(x) then [x] + Filter(s, p) else Filter(s, p)
  {
    assert ([x] + s)[1..] == s;
  }

  /** When at most one row satisfies `p` and row `k` does, the query returns that row alone. */
  lemma {:induction false} FilterSingleton<T(!new)>(s: seq<T>, p: T -> bool, k: nat)
    requires k < |s| && p(s[k])
    requires forall i, j :: 0 <= i < j < |s| && p(s[i]) ==> !p(s[j])
    ensures Filter(s, p) == [s[k]]
  {
    if k == 0 {
      FilterEmpty(s[1..], p);
    } else {
      assert !p(s[0]);
      FilterSingleton(s[1..], p, k - 1);
    }
  }

  /** Filtering twice finds nothing when the second filter holds of no row. */
  lemma FilterFilterNone<T(!new)>(s: seq<T>, p: T -> bool, q: T -> bool)
    requires forall i :: 0 <= i < |s| ==> !q(s[i])
    ensures Filter(Filter(s, p), q) == []
  {
    var r := Filter(s, p);
    FilterMembers(s, p);
    forall i | 0 <= i < |r| ensures !q(r[i]) {
      assert r[i] in s;
    }
    FilterEmpty(r, q);
  }

  /** Filtering twice keeps row `k` alone when `p` keeps it and `q` holds of no other row. */
  lemma {:induction false} FilterFilterUnique<T(!new)>(s: seq<T>, p: T -> bool, q: T -> bool, k: nat)
    requires k < |s| && p(s[k]) && q(s[k])
    requires forall i :: 0 <= i < |s| && i != k ==> !q(s[i])
    ensures Filter(Filter(s, p), q) == [s[k]]
  {
    var t := s[1..];
    var rest := Filter(t, p);
    assert s == [s[0]] + t;
    FilterCons(s[0], t, p);
    if k == 0 {
      forall i | 0 <= i < |t| ensures !q(t[i]) {
        assert t[i] == s[i + 1];
      }
      FilterFilterNone(t, p, q);
      assert Filter(s, p) == [s[0]] + rest;
      FilterCons(s[0], rest, q);
    } else {
      forall i | 0 <= i < |t| && i != k - 1 ensures !q(t[i]) {
        assert t[i] == s[i + 1];
      }
      FilterFilterUnique(t, p, q, k - 1);
      assert !q(s[0]);
      if p(s[0]) {
        assert Filter(s, p) == [s[0]] + rest;
        FilterCons(s[0], rest, q);
      } else {
        assert Filter(s, p) == rest;
      }
    }
  }

  /** Replacing the entry just appended is appending the replacement. */
  lemma ReplaceLast<T>(s: seq<T>, x: T, y: T)
    ensures (s + [x])[|s| := y] == s + [y]
  {
  }

  /** supabase's `.single()`: the row when the query matched exactly one, no data otherwise. */
  function Single<T>(rows: seq<T>): Option<T>
  {
    if |rows| == 1 then Some(rows[0]) else None
  }

  /** mongoose's `findOne`: the first row satisfying `p`, if any. */
  function First<T(!new)>(s: seq<T>, p: T -> bool): (r: Option<T>)
    ensures r.None? <==> forall x :: x in s ==> !p(x)
    ensures r.Some? ==> r.value in s && p(r.value)
  {
    FilterMembers(s, p);
    var hits := Filter(s, p);
    if hits == [] then None else Some(hits[0])
  }

  /** `le` orders all values and is transitive: a sort key, possibly with ties. */
  ghost predicate TotalPreorder<T(!new)>(le: (T, T) -> bool)
  {
    && (forall a, b :: le(a, b) || le(b, a))
    && (forall a, b, c :: le(a, b) && le(b, c) ==> le(a, c))
  }

  /** Every entry comes no later under `le` than every entry after it. */
  predicate SortedBy<T>(s: seq<T>, le: (T, T) -> bool)
  {
    forall i, j :: 0 <= i < j < |s| ==> le(s[i], s[j])
  }

  /** Puts `x` in front of the first entry it may precede. */
  function Insert<T>(x: T, s: seq<T>, le: (T, T) -> bool): (r: seq<T>)
    ensures |r| == |s| + 1
    ensures multiset(r) == multiset(s) + multiset{x}
  {
    if s == [] then [x]
    else if le(x, s[0]) then [x] + s
    else
      assert s == [s[0]] + s[1..];
      [s[0]] + Insert(x, s[1..], le)
  }

  /** The rows of `s` in the order `le` gives; ties are kept in some fixed order. */
  function SortBy<T>(s: seq<T>, le: (T, T) -> bool): (r: seq<T>)
    ensures |r| == |s|
    ensures multiset(r) == multiset(s)
  {
    if s == [] then []
    else
      assert s == [s[0]] + s[1..];
      Insert(s[0], SortBy(s[1..], le), le)
  }

  /** A sorted sequence stays sorted without its head. */
  lemma SortedTail<T>(s: seq<T>, le: (T, T) -> bool)
    requires s != [] && SortedBy(s, le)
    ensures SortedBy(s[1..], le)
  {
    forall i, j | 0 <= i < j < |s[1..]| ensures le(s[1..][i], s[1..][j]) {
      assert s[1..][i] == s[i + 1] && s[1..][j] == s[j + 1];
    }
  }

  /** Putting in front of a sorted sequence an entry that comes no later than all of it keeps it sorted. */
  lemma SortedCons<T>(h: T, t: seq<T>, le: (T, T) -> bool)
    requires SortedBy(t, le)
    requires forall y :: y in t ==> le(h, y)
    ensures SortedBy([h] + t, le)
  {
    var r := [h] + t;
    forall i, j | 0 <= i < j < |r| ensures le(r[i], r[j]) {
      if i == 0 {
        assert r[j] == t[j - 1];
      } else {
        assert r[i] == t[i - 1] && r[j] == t[j - 1];
      }
    }
  }

  /** The head of a sorted sequence comes no later than every entry of its tail. */
  lemma HeadFirst<T>(s: seq<T>, le: (T, T) -> bool, y: T)
    requires s != [] && SortedBy(s, le) && y in s[1..]
    ensures le(s[0], y)
  {
    var j :| 0 <= j < |s[1..]| && s[1..][j] == y;
    assert s[j + 1] == y;
  }

  lemma {:induction false} InsertSorted<T(!new)>(x: T, s: seq<T>, le: (T, T) -> bool)
    requires TotalPreorder(le) && SortedBy(s, le)
    ensures SortedBy(Insert(x, s, le), le)
  {
    if s == [] {
    } else if le(x, s[0]) {
      forall y | y in s ensures le(x, y) {
        if y != s[0] {
          assert y in s[1..] by { assert s == [s[0]] + s[1..]; }
          HeadFirst(s, le, y);
        }
      }
      SortedCons(x, s, le);
    } else {
      var t := Insert(x, s[1..], le);
      SortedTail(s, le);
      InsertSorted(x, s[1..], le);
      forall y | y in t ensures le(s[0], y) {
        assert y in multiset(t);
        if y != x {
          assert y in multiset(s[1..]);
          HeadFirst(s, le, y);
        }
      }
      SortedCons(s[0], t, le);
    }
  }

  /** In a sorted sequence, an entry left out of the first `n` comes no earlier than any entry kept. */
  lemma PrefixComesFirst<T>(sorted: seq<T>, n: nat, x: T, le: (T, T) -> bool)
    requires SortedBy(sorted, le) && n <= |sorted|
    requires x in multiset(sorted) - multiset(sorted[..n])
    ensures forall y :: y in sorted[..n] ==> le(y, x)
  {
    var rest := sorted[n..];
    assert sorted == sorted[..n] + rest;
    assert multiset(sorted) == multiset(sorted[..n]) + multiset(rest);
    assert x in multiset(rest);
    var j :| 0 <= j < |rest| && rest[j] == x;
    forall y | y in sorted[..n] ensures le(y, x) {
      var i :| 0 <= i < n && sorted[..n][i] == y;
      assert sorted[i] == y && sorted[n + j] == x;
    }
  }

  /** Sorting under a total preorder yields a sorted permutation of the input. */
  lemma {:induction false} SortBySorted<T(!new)>(s: seq<T>, le: (T, T) -> bool)
    requires TotalPreorder(le)
    ensures SortedBy(SortBy(s, le), le)
  {
    if s != [] {
      SortBySorted(s[1..], le);
      InsertSorted(s[0], SortBy(s[1..], le), le);
    }
  }
}
