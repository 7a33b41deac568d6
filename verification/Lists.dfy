/**
 * Filtered lists: what they add up to, how two of them join into one, and a stable sort. Statements, stats
 * and insights are all sums over lists filtered by day, by user or by kind.
 */
module Lists {
  import opened Basics

  /** The elements of `s` with `p`, in order. */
  function Filter<T>(s: seq<T>, p: T -> bool): (r: seq<T>)
    ensures forall i :: 0 <= i < |r| ==> p(r[i])
    ensures |r| <= |s|
  {
    if s == [] then []
    else
      var n := |s| - 1;
      if p(s[n]) then Filter(s[..n], p) + [s[n]] else Filter(s[..n], p)
  }

  lemma {:induction false} SumOfFilter<T>(s: seq<T>, p: T -> bool, f: T -> int, g: T -> int)
    requires forall x :: x in s ==> g(x) == if p(x) then f(x) else 0
    ensures SumBy(Filter(s, p), f) == SumBy(s, g)
  {
    if s != [] {
      var n := |s| - 1;
      SumOfFilter(s[..n], p, f, g);
      if p(s[n]) {
        SumAppend(Filter(s[..n], p), s[n], f);
      }
    }
  }

  /** `r` holds of an element exactly when one of `p` and `q` does. */
  predicate Splits<T>(s: seq<T>, p: T -> bool, q: T -> bool, r: T -> bool) {
    forall i :: 0 <= i < |s| ==> !(p(s[i]) && q(s[i])) && (r(s[i]) <==> p(s[i]) || q(s[i]))
  }

  /** Two filters that exclude each other add up to their union, whatever the order of the elements. */
  lemma {:induction false} SumsOfSplit<T>(s: seq<T>, p: T -> bool, q: T -> bool, r: T -> bool, f: T -> int)
    requires Splits(s, p, q, r)
    ensures SumBy(Filter(s, p), f) + SumBy(Filter(s, q), f) == SumBy(Filter(s, r), f)
    ensures |Filter(s, p)| + |Filter(s, q)| == |Filter(s, r)|
  {
    if s != [] {
      var n := |s| - 1;
      assert !(p(s[n]) && q(s[n])) && (r(s[n]) <==> p(s[n]) || q(s[n]));
      SumsOfSplit(s[..n], p, q, r, f);
      SumAppend(Filter(s[..n], p), s[n], f);
      SumAppend(Filter(s[..n], q), s[n], f);
      SumAppend(Filter(s[..n], r), s[n], f);
      hide SumBy;
    }
  }

  /** No element with `q` comes before one with `p`. */
  predicate NoInversion<T>(s: seq<T>, p: T -> bool, q: T -> bool) {
    forall i, j :: 0 <= i < j < |s| ==> !(q(s[i]) && p(s[j]))
  }

  lemma {:induction false} FilterAbsent<T>(s: seq<T>, p: T -> bool)
    requires forall x :: x in s ==> !p(x)
    ensures Filter(s, p) == []
  {
    if s != [] {
      FilterAbsent(s[..|s| - 1], p);
    }
  }

  lemma {:induction false} FilterJoins<T>(s: seq<T>, p: T -> bool, q: T -> bool, r: T -> bool)
    requires Splits(s, p, q, r) && NoInversion(s, p, q)
    ensures Filter(s, p) + Filter(s, q) == Filter(s, r)
  {
    if s != [] {
      var n := |s| - 1;
      FilterJoins(s[..n], p, q, r);
      assert !(p(s[n]) && q(s[n])) && (r(s[n]) <==> p(s[n]) || q(s[n]));
      if p(s[n]) {
        NoneBefore(s, p, q);
      }
      var fp, fq := Filter(s[..n], p), Filter(s[..n], q);
      assert fp + (fq + [s[n]]) == (fp + fq) + [s[n]];
    }
  }

  lemma NoneBefore<T>(s: seq<T>, p: T -> bool, q: T -> bool)
    requires NoInversion(s, p, q) && s != [] && p(s[|s| - 1]) && !q(s[|s| - 1])
    ensures Filter(s[..|s| - 1], q) == [] == Filter(s, q)
  {
    var n := |s| - 1;
    forall x | x in s[..n] ensures !q(x) {
      var i :| 0 <= i < n && s[i] == x;
      assert p(s[n]) ==> !q(s[i]);
    }
    FilterAbsent(s[..n], q);
  }

  lemma {:induction false} FilterHas<T>(s: seq<T>, p: T -> bool, j: nat) returns (b: nat)
    requires j < |s| && p(s[j])
    ensures b < |Filter(s, p)| && Filter(s, p)[b] == s[j]
  {
    var n := |s| - 1;
    if j == n {
      b := |Filter(s[..n], p)|;
    } else {
      b := FilterHas(s[..n], p, j);
    }
  }

  /** Filtering keeps the order of two elements. */
  lemma {:induction false} FilterKeepsOrder<T>(s: seq<T>, p: T -> bool, i: nat, j: nat) returns (a: nat, b: nat)
    requires i < j < |s| && p(s[i]) && p(s[j])
    ensures a < b < |Filter(s, p)| && Filter(s, p)[a] == s[i] && Filter(s, p)[b] == s[j]
  {
    var n := |s| - 1;
    if j == n {
      a := FilterHas(s[..n], p, i);
      b := |Filter(s[..n], p)|;
    } else {
      a, b := FilterKeepsOrder(s[..n], p, i, j);
    }
  }

  lemma InversionBreaksJoin<T>(s: seq<T>, p: T -> bool, q: T -> bool, r: T -> bool, i: nat, j: nat)
    requires Splits(s, p, q, r) && i < j < |s| && q(s[i]) && p(s[j])
    ensures Filter(s, p) + Filter(s, q) != Filter(s, r)
  {
    assert !p(s[i]) && !q(s[j]) && r(s[i]) && r(s[j]);
    var a, b := FilterKeepsOrder(s, r, i, j);
    if b < |Filter(s, p) + Filter(s, q)| { SplitAt(Filter(s, p), Filter(s, q), p, q, a, b); }
    hide Filter, Splits;
  }

  /** In a join of two filtered lists, an element without `p` is in the second part, and one without `q` in the first. */
  lemma SplitAt<T>(first: seq<T>, second: seq<T>, p: T -> bool, q: T -> bool, a: nat, b: nat)
    requires forall k :: 0 <= k < |first| ==> p(first[k])
    requires forall k :: 0 <= k < |second| ==> q(second[k])
    requires a < b < |first + second|
    ensures p((first + second)[a]) || q((first + second)[b])
  {
    if a < |first| {
      assert (first + second)[a] == first[a];
    } else {
      assert (first + second)[b] == second[b - |first|];
    }
  }

  /** Joining two filtered lists gives the filtered whole exactly when no pair is the wrong way round. */
  lemma FilterJoinsIff<T>(s: seq<T>, p: T -> bool, q: T -> bool, r: T -> bool)
    requires Splits(s, p, q, r)
    ensures Filter(s, p) + Filter(s, q) == Filter(s, r) <==> NoInversion(s, p, q)
  {
    if NoInversion(s, p, q) {
      FilterJoins(s, p, q, r);
    } else {
      var i, j :| 0 <= i < j < |s| && q(s[i]) && p(s[j]);
      InversionBreaksJoin(s, p, q, r, i, j);
    }
  }

  // ---------- Listing a table in another order ----------

  /** `order` names each position of `rows` with `p` exactly once. */
  ghost predicate Enumerates<T(!new)>(order: seq<nat>, rows: seq<T>, p: T -> bool) {
    && (forall i, j :: 0 <= i < j < |order| ==> order[i] != order[j])
    && (forall k: nat :: k in order <==> k < |rows| && p(rows[k]))
  }

  function At<T>(rows: seq<T>, f: T -> int): nat -> int {
    (k: nat) => if k < |rows| then f(rows[k]) else 0
  }

  lemma FirstIsIn(s: seq<nat>)
    requires s != []
    ensures s[0] in s
  {
  }

  lemma SumMiddle<T>(a: seq<T>, x: T, b: seq<T>, f: T -> int)
    ensures SumBy(a + [x] + b, f) == SumBy(a + b, f) + f(x)
  {
    SumAppend(a, x, f);
    SumConcat(a + [x], b, f);
    SumConcat(a, b, f);
  }

  lemma SumWithout<T>(s: seq<T>, i: nat, f: T -> int)
    requires i < |s|
    ensures SumBy(s, f) == SumBy(s[..i] + s[i + 1..], f) + f(s[i])
  {
    hide SumBy;
    SumMiddle(s[..i], s[i], s[i + 1..], f);
    assert s == s[..i] + [s[i]] + s[i + 1..];
  }

  /** Summing in any order gives the table's sum. */
  lemma {:induction false} SumInAnyOrder<T(!new)>(order: seq<nat>, rows: seq<T>, p: T -> bool, f: T -> int)
    requires Enumerates(order, rows, p) && forall x :: x in rows && !p(x) ==> f(x) == 0
    ensures SumBy(order, At(rows, f)) == SumBy(rows, f)
  {
    if rows == [] {
      if order != [] { FirstIsIn(order); }
    } else {
      var n: nat := |rows| - 1;
      if p(rows[n]) {
        assert n in order;
        var i :| 0 <= i < |order| && order[i] == n;
        var rest := order[..i] + order[i + 1..];
        SumWithout(order, i, At(rows, f));
        RestEnumerates(order, rows, p, i);
        ShorterSum(rest, rows, p, f);
        SumInAnyOrder(rest, rows[..n], p, f);
      } else {
        assert forall k: nat :: k in order ==> k < n;
        assert Enumerates(order, rows[..n], p);
        ShorterSum(order, rows, p, f);
        SumInAnyOrder(order, rows[..n], p, f);
        assert rows[n] in rows;
      }
    }
  }

  lemma RestEnumerates<T(!new)>(order: seq<nat>, rows: seq<T>, p: T -> bool, i: nat)
    requires Enumerates(order, rows, p) && rows != [] && i < |order| && order[i] == |rows| - 1
    ensures Enumerates(order[..i] + order[i + 1..], rows[..|rows| - 1], p)
  {
    var rest := order[..i] + order[i + 1..];
    forall k: nat ensures k in rest <==> k in order && k != order[i] {
      if k in order && k != order[i] {
        var j :| 0 <= j < |order| && order[j] == k;
        if j < i { assert rest[j] == k; } else { assert rest[j - 1] == k; }
      }
    }
  }

  lemma ShorterSum<T(!new)>(order: seq<nat>, rows: seq<T>, p: T -> bool, f: T -> int)
    requires rows != [] && forall k :: k in order ==> k < |rows| - 1
    ensures SumBy(order, At(rows, f)) == SumBy(order, At(rows[..|rows| - 1], f))
  {
    forall i | 0 <= i < |order| ensures At(rows, f)(order[i]) == At(rows[..|rows| - 1], f)(order[i]) {
      assert order[i] in order;
    }
    SumAgree(order, At(rows, f), order, At(rows[..|rows| - 1], f));
  }

  // ---------- Sorting ----------

  function InsertBy<T>(x: T, s: seq<T>, before: (T, T) -> bool): (r: seq<T>)
    ensures |r| == |s| + 1
  {
    if s == [] || !before(s[0], x) then [x] + s else [s[0]] + InsertBy(x, s[1..], before)
  }

  /** A stable sort: equal elements keep their order. */
  function SortBy<T>(s: seq<T>, before: (T, T) -> bool): (r: seq<T>)
    ensures |r| == |s|
  {
    if s == [] then [] else InsertBy(s[0], SortBy(s[1..], before), before)
  }

  lemma SumCons<T>(x: T, s: seq<T>, f: T -> int)
    ensures SumBy([x] + s, f) == f(x) + SumBy(s, f)
  {
    SumConcat([x], s, f);
    assert [x][..0] == [];
    assert SumBy([x], f) == f(x);
  }

  lemma {:induction false} InsertKeeps<T>(x: T, s: seq<T>, before: (T, T) -> bool, f: T -> int)
    ensures multiset(InsertBy(x, s, before)) == multiset([x] + s)
    ensures SumBy(InsertBy(x, s, before), f) == f(x) + SumBy(s, f)
  {
    if s == [] || !before(s[0], x) {
      SumCons(x, s, f);
    } else {
      InsertKeeps(x, s[1..], before, f);
      SumCons(s[0], InsertBy(x, s[1..], before), f);
      SumCons(s[0], s[1..], f);
      assert s == [s[0]] + s[1..];
    }
  }

  /** Sorting neither adds nor drops anything. */
  lemma {:induction false} SortKeeps<T>(s: seq<T>, before: (T, T) -> bool, f: T -> int)
    ensures multiset(SortBy(s, before)) == multiset(s)
    ensures SumBy(SortBy(s, before), f) == SumBy(s, f)
  {
    if s != [] {
      SortKeeps(s[1..], before, f);
      InsertKeeps(s[0], SortBy(s[1..], before), before, f);
      SumCons(s[0], s[1..], f);
      assert s == [s[0]] + s[1..];
    }
  }

  predicate InOrder<T>(s: seq<T>, before: (T, T) -> bool) {
    forall i, j :: 0 <= i < j < |s| ==> !before(s[j], s[i])
  }

  /** `before` is a strict order in which ties are transitive. */
  ghost predicate WeakOrder<T(!new)>(before: (T, T) -> bool) {
    && (forall x, y :: before(x, y) ==> !before(y, x))
    && (forall x, y, z :: !before(y, x) && !before(z, y) ==> !before(z, x))
  }

  lemma {:induction false} InsertInOrder<T(!new)>(x: T, s: seq<T>, before: (T, T) -> bool)
    requires WeakOrder(before) && InOrder(s, before)
    ensures InOrder(InsertBy(x, s, before), before)
  {
    if s == [] || !before(s[0], x) {
      forall j | 0 <= j < |s| ensures !before(s[j], x) {
        if 0 < j { assert !before(s[j], s[0]); }
      }
    } else {
      var rest := InsertBy(x, s[1..], before);
      InsertInOrder(x, s[1..], before);
      InsertKeeps(x, s[1..], before, (y: T) => 0);
      forall j | 0 <= j < |rest| ensures !before(rest[j], s[0]) {
        assert rest[j] in multiset([x] + s[1..]);
        assert rest[j] == x || rest[j] in s[1..];
      }
    }
  }

  lemma {:induction false} SortInOrder<T(!new)>(s: seq<T>, before: (T, T) -> bool)
    requires WeakOrder(before)
    ensures InOrder(SortBy(s, before), before)
  {
    if s != [] {
      SortInOrder(s[1..], before);
      InsertInOrder(s[0], SortBy(s[1..], before), before);
    }
  }

  lemma {:induction false} FilterCons<T>(x: T, s: seq<T>, p: T -> bool)
    ensures Filter([x] + s, p) == (if p(x) then [x] else []) + Filter(s, p)
  {
    if s == [] {
      assert [x] + s == [x] && [x][..0] == [];
    } else {
      var n := |s| - 1;
      assert ([x] + s)[..n + 1] == [x] + s[..n];
      FilterCons(x, s[..n], p);
    }
  }

  /** `p` holds of elements that the order does not tell apart. */
  ghost predicate Tied<T(!new)>(p: T -> bool, before: (T, T) -> bool) {
    forall x, y :: p(x) && p(y) ==> !before(x, y)
  }

  lemma {:induction false} InsertIsStable<T(!new)>(x: T, s: seq<T>, before: (T, T) -> bool, p: T -> bool)
    requires Tied(p, before)
    ensures Filter(InsertBy(x, s, before), p) == (if p(x) then [x] else []) + Filter(s, p)
  {
    if s == [] || !before(s[0], x) {
      FilterCons(x, s, p);
    } else {
      InsertIsStable(x, s[1..], before, p);
      FilterCons(s[0], InsertBy(x, s[1..], before), p);
      FilterCons(s[0], s[1..], p);
      assert s == [s[0]] + s[1..];
    }
  }

  /** Elements that the order does not tell apart stay in the order they came in. */
  lemma {:induction false} SortIsStable<T(!new)>(s: seq<T>, before: (T, T) -> bool, p: T -> bool)
    requires Tied(p, before)
    ensures Filter(SortBy(s, before), p) == Filter(s, p)
  {
    if s != [] {
      SortIsStable(s[1..], before, p);
      InsertIsStable(s[0], SortBy(s[1..], before), before, p);
      FilterCons(s[0], s[1..], p);
      assert s == [s[0]] + s[1..];
    }
  }

  function Counting<T>(p: T -> bool): T -> int {
    (x: T) => if p(x) then 1 else 0
  }

  lemma {:induction false} CountIsLength<T>(s: seq<T>, p: T -> bool)
    ensures |Filter(s, p)| == SumBy(s, Counting(p))
  {
    if s != [] {
      CountIsLength(s[..|s| - 1], p);
    }
  }

  lemma {:induction false} CountAfter<T>(s: seq<T>, p: T -> bool, k: nat)
    requires k <= |s| && forall i :: 0 <= i < k ==> !p(s[i])
    ensures SumBy(s, Counting(p)) <= |s| - k
    decreases |s|
  {
    if s != [] {
      var n := |s| - 1;
      CountAfter(s[..n], p, if k <= n then k else n);
    }
  }
}
