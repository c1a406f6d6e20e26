/**
 * The relational primitives the storage layer uses, over tables held as sequences of rows in
 * table order: a filtering `WHERE`, an `UPDATE ... WHERE` that rewrites every matching row, the
 * first row a `SELECT` returns, `SUM`, and `ORDER BY` as a sort by a total preorder.
 */
module Query {
  import opened Wrappers

  /** The rows of `s` that satisfy `p`, in table order. */
  function Where<T(!new)>(s: seq<T>, p: T -> bool): (r: seq<T>)
    ensures |r| <= |s|
    ensures forall x :: x in r <==> x in s && p(x)
    ensures multiset(r) <= multiset(s)
    decreases |s|
  {
    if s == [] then []
    else
      var init := s[..|s| - 1];
      assert s == init + [s[|s| - 1]];
      Where(init, p) + (if p(s[|s| - 1]) then [s[|s| - 1]] else [])
  }

  /** Filtering keeps every matching row as often as it occurs and drops every other row. */
  lemma {:induction false} WhereCounts<T(!new)>(s: seq<T>, p: T -> bool)
    ensures forall x :: multiset(Where(s, p))[x] == if p(x) then multiset(s)[x] else 0
    decreases |s|
  {
    if s != [] {
      var init, last := s[..|s| - 1], s[|s| - 1];
      WhereCounts(init, p);
      assert s == init + [last];
      assert multiset(s) == multiset(init) + multiset{last};
    }
  }

  lemma WhereAppend<T(!new)>(s: seq<T>, x: T, p: T -> bool)
    ensures Where(s + [x], p) == Where(s, p) + (if p(x) then [x] else [])
  {
    assert (s + [x])[..|s|] == s;
  }

  /** Filtering by a predicate that agrees with `p` on every row of `s` gives the same rows. */
  lemma {:induction false} WhereCongruent<T(!new)>(s: seq<T>, p: T -> bool, q: T -> bool)
    requires forall i :: 0 <= i < |s| ==> p(s[i]) == q(s[i])
    ensures Where(s, p) == Where(s, q)
    decreases |s|
  {
    if s != [] {
      WhereCongruent(s[..|s| - 1], p, q);
    }
  }

  /** `UPDATE ... SET f WHERE p`: every matching row is rewritten, the others are kept. */
  function UpdateWhere<T>(s: seq<T>, p: T -> bool, f: T -> T): (r: seq<T>)
    ensures |r| == |s|
    ensures forall i :: 0 <= i < |s| ==> r[i] == if p(s[i]) then f(s[i]) else s[i]
  {
    seq(|s|, i requires 0 <= i < |s| => if p(s[i]) then f(s[i]) else s[i])
  }

  /** The row a `SELECT ... WHERE p` destructured as `const [row] = ...` yields: the first match. */
  function FirstWhere<T(!new)>(s: seq<T>, p: T -> bool): (r: Option<T>)
    ensures r.Some? ==> r.value in s && p(r.value)
    ensures r.None? <==> forall x :: x in s ==> !p(x)
    decreases |s|
  {
    if s == [] then None
    else if p(s[0]) then Some(s[0])
    else FirstWhere(s[1..], p)
  }

  /** Appending a row never changes an existing first match; it becomes the match only if there was none. */
  lemma {:induction false} FirstWhereAppend<T(!new)>(s: seq<T>, x: T, p: T -> bool)
    ensures FirstWhere(s + [x], p) ==
            if FirstWhere(s, p).Some? then FirstWhere(s, p) else if p(x) then Some(x) else None
    decreases |s|
  {
    if s != [] {
      assert (s + [x])[1..] == s[1..] + [x];
      FirstWhereAppend(s[1..], x, p);
    }
  }

  /**
   * Looking a row up after an `UPDATE` whose rewrite keeps the looked-up key finds the same row,
   * rewritten if the update matched it.
   */
  lemma {:induction false} FirstWhereAfterUpdate<T(!new)>(s: seq<T>, p: T -> bool, f: T -> T, q: T -> bool)
    requires forall x :: p(x) ==> q(f(x)) == q(x)
    ensures FirstWhere(UpdateWhere(s, p, f), q) ==
            match FirstWhere(s, q)
            case None => None
            case Some(v) => Some(if p(v) then f(v) else v)
    decreases |s|
  {
    if s != [] {
      assert UpdateWhere(s, p, f)[1..] == UpdateWhere(s[1..], p, f);
      FirstWhereAfterUpdate(s[1..], p, f, q);
    }
  }

  /** Sum of `f` over the rows of `s`. */
  function SumOf<T>(s: seq<T>, f: T -> int): int
    decreases |s|
  {
    if s == [] then 0 else SumOf(s[..|s| - 1], f) + f(s[|s| - 1])
  }

  lemma SumOfAppend<T>(s: seq<T>, x: T, f: T -> int)
    ensures SumOf(s + [x], f) == SumOf(s, f) + f(x)
  {
    assert (s + [x])[..|s|] == s;
  }

  /** Keys strictly increase along the table (what a serial primary key gives). */
  ghost predicate Ascending<T>(s: seq<T>, key: T -> int) {
    forall i, j :: 0 <= i < j < |s| ==> key(s[i]) < key(s[j])
  }

  lemma {:induction false} WhereKeepsAscending<T(!new)>(s: seq<T>, p: T -> bool, key: T -> int)
    requires Ascending(s, key)
    ensures Ascending(Where(s, p), key)
    decreases |s|
  {
    if s != [] {
      var init := s[..|s| - 1];
      WhereKeepsAscending(init, p, key);
      var w := Where(init, p);
      forall x | x in w ensures key(x) < key(s[|s| - 1]) {
        var i :| 0 <= i < |init| && init[i] == x;
      }
    }
  }

  /**
   * No two rows of `s` share a non-null key: what a `primary key` (whose key is never null) or a
   * `unique` column (which admits any number of nulls) enforces.
   */
  ghost predicate Unique<T, K>(s: seq<T>, key: T -> Option<K>) {
    forall i, j :: 0 <= i < j < |s| && key(s[i]).Some? ==> key(s[i]) != key(s[j])
  }

  /** Appending a row whose key is null or held by no row keeps the keys unique. */
  lemma AppendKeepsUnique<T, K>(s: seq<T>, x: T, key: T -> Option<K>)
    requires Unique(s, key)
    requires key(x).Some? ==> forall i :: 0 <= i < |s| ==> key(s[i]) != key(x)
    ensures Unique(s + [x], key)
  {
    var t := s + [x];
    forall i, j | 0 <= i < j < |t| && key(t[i]).Some? ensures key(t[i]) != key(t[j]) {
      if j == |s| {
        assert t[i] == s[i];
      } else {
        assert t[i] == s[i] && t[j] == s[j];
      }
    }
  }

  /** An `UPDATE` whose rewrite keeps every matching row's key keeps the keys unique. */
  lemma UpdateWhereKeepsUnique<T, K>(s: seq<T>, p: T -> bool, f: T -> T, key: T -> Option<K>)
    requires Unique(s, key)
    requires forall i :: 0 <= i < |s| && p(s[i]) ==> key(f(s[i])) == key(s[i])
    ensures Unique(UpdateWhere(s, p, f), key)
  {
    var t := UpdateWhere(s, p, f);
    forall i, j | 0 <= i < j < |t| && key(t[i]).Some? ensures key(t[i]) != key(t[j]) {
      assert key(t[i]) == key(s[i]) && key(t[j]) == key(s[j]);
    }
  }

  /** A `DELETE` (keeping the rows that satisfy `p`) keeps the keys unique. */
  lemma {:induction false} WhereKeepsUnique<T(!new), K>(s: seq<T>, p: T -> bool, key: T -> Option<K>)
    requires Unique(s, key)
    ensures Unique(Where(s, p), key)
    decreases |s|
  {
    if s != [] {
      var init, last := s[..|s| - 1], s[|s| - 1];
      assert Unique(init, key) by {
        forall i, j | 0 <= i < j < |init| && key(init[i]).Some? ensures key(init[i]) != key(init[j]) {
          assert init[i] == s[i] && init[j] == s[j];
        }
      }
      WhereKeepsUnique(init, p, key);
      LastKeyIsNew(s, key);
      var w := Where(init, p);
      forall i | 0 <= i < |w| && key(last).Some? ensures key(w[i]) != key(last) {
        assert w[i] in init;
      }
      if p(last) {
        AppendKeepsUnique(w, last, key);
      }
    }
  }

  /** In a table with unique keys, the last row's non-null key is held by no earlier row. */
  lemma LastKeyIsNew<T, K>(s: seq<T>, key: T -> Option<K>)
    requires Unique(s, key) && s != []
    ensures key(s[|s| - 1]).Some? ==> forall x :: x in s[..|s| - 1] ==> key(x) != key(s[|s| - 1])
  {
    forall x | x in s[..|s| - 1] && key(s[|s| - 1]).Some? ensures key(x) != key(s[|s| - 1]) {
      var k :| 0 <= k < |s| - 1 && s[k] == x;
    }
  }

  ghost predicate Total<T(!new)>(le: (T, T) -> bool) {
    forall a, b :: le(a, b) || le(b, a)
  }

  ghost predicate Transitive<T(!new)>(le: (T, T) -> bool) {
    forall a, b, c :: le(a, b) && le(b, c) ==> le(a, c)
  }

  /** Each row is ordered before its successor. */
  predicate SortedBy<T>(s: seq<T>, le: (T, T) -> bool) {
    forall i :: 0 <= i < |s| - 1 ==> le(s[i], s[i + 1])
  }

  function Insert<T(!new)>(x: T, s: seq<T>, le: (T, T) -> bool): (r: seq<T>)
    requires Total(le) && SortedBy(s, le)
    ensures SortedBy(r, le)
    ensures multiset(r) == multiset(s) + multiset{x}
    ensures |r| == |s| + 1 && (r[0] == x || (s != [] && r[0] == s[0]))
    decreases |s|
  {
    if s == [] || le(x, s[0]) then [x] + s
    else
      assert s == [s[0]] + s[1..];
      [s[0]] + Insert(x, s[1..], le)
  }

  /** `ORDER BY`: the rows of `s`, rearranged so that each is ordered before its successor. */
  function SortBy<T(!new)>(s: seq<T>, le: (T, T) -> bool): (r: seq<T>)
    requires Total(le)
    ensures SortedBy(r, le)
    ensures multiset(r) == multiset(s)
    decreases |s|
  {
    if s == [] then []
    else
      assert s == [s[0]] + s[1..];
      Insert(s[0], SortBy(s[1..], le), le)
  }

  /** Under a transitive order, ordering each row before its successor orders every pair. */
  lemma {:induction false} SortedPairwise<T(!new)>(s: seq<T>, le: (T, T) -> bool)
    requires Transitive(le) && SortedBy(s, le)
    ensures forall i, j :: 0 <= i < j < |s| ==> le(s[i], s[j])
    decreases |s|
  {
    if |s| > 1 {
      SortedPairwise(s[1..], le);
      forall j | 1 < j < |s| ensures le(s[0], s[j]) {
        assert le(s[1], s[j]);
      }
    }
  }

  /** Sorting keeps exactly the rows it was given and orders every pair of them. */
  lemma SortByFacts<T(!new)>(s: seq<T>, le: (T, T) -> bool)
    requires Total(le) && Transitive(le)
    ensures forall x :: x in SortBy(s, le) <==> x in s
    ensures forall i, j :: 0 <= i < j < |SortBy(s, le)| ==> le(SortBy(s, le)[i], SortBy(s, le)[j])
  {
    var r := SortBy(s, le);
    SortedPairwise(r, le);
    assert forall x :: x in r <==> x in multiset(r);
    assert forall x :: x in s <==> x in multiset(s);
  }
}
