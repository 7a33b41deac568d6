/**
 * Small vocabulary shared by every module: options, results, and sums over sequences. A sum is over a
 * function of the elements, so what changes one element or adds one changes the sum by what that function
 * says.
 */
module Basics {

  datatype Option<+T> = None | Some(value: T)

  datatype Result<+T, +E> = Ok(value: T) | Err(error: E)

  function Max(a: int, b: int): int {
    if a < b then b else a
  }

  /** The sum of `f` over the elements of `s`, as SQL's SUM over a filtered table. */
  function SumBy<T>(s: seq<T>, f: T -> int): int {
    if s == [] then 0 else SumBy(s[..|s| - 1], f) + f(s[|s| - 1])
  }

  lemma SumAppend<T>(s: seq<T>, x: T, f: T -> int)
    ensures SumBy(s + [x], f) == SumBy(s, f) + f(x)
  {
    assert (s + [x])[..|s|] == s;
  }

  lemma {:induction false} SumConcat<T>(s: seq<T>, t: seq<T>, f: T -> int)
    ensures SumBy(s + t, f) == SumBy(s, f) + SumBy(t, f)
  {
    if t == [] {
      assert s + t == s;
    } else {
      var n := |t| - 1;
      assert (s + t)[..|s + t| - 1] == s + t[..n];
      SumConcat(s, t[..n], f);
    }
  }

  /** Changing one element moves the sum by the difference at that element. */
  lemma {:induction false} SumUpdate<T>(s: seq<T>, i: nat, x: T, f: T -> int)
    requires i < |s|
    ensures SumBy(s[i := x], f) == SumBy(s, f) - f(s[i]) + f(x)
  {
    var n := |s| - 1;
    if i == n {
      assert s[i := x][..n] == s[..n];
    } else {
      assert s[i := x][..n] == s[..n][i := x];
      SumUpdate(s[..n], i, x, f);
    }
  }

  /** Sums agree when their summands agree position by position. */
  lemma {:induction false} SumAgree<S, T>(s: seq<S>, f: S -> int, t: seq<T>, g: T -> int)
    requires |s| == |t|
    requires forall i :: 0 <= i < |s| ==> f(s[i]) == g(t[i])
    ensures SumBy(s, f) == SumBy(t, g)
  {
    if s != [] {
      var n := |s| - 1;
      assert forall i :: 0 <= i < n ==> f(s[..n][i]) == g(t[..n][i]);
      SumAgree(s[..n], f, t[..n], g);
    }
  }

  lemma {:induction false} SumOfSums<T>(s: seq<T>, f: T -> int, g: T -> int, h: T -> int)
    requires forall i :: 0 <= i < |s| ==> h(s[i]) == f(s[i]) + g(s[i])
    ensures SumBy(s, h) == SumBy(s, f) + SumBy(s, g)
  {
    if s != [] {
      var n := |s| - 1;
      assert forall i :: 0 <= i < n ==> h(s[..n][i]) == f(s[..n][i]) + g(s[..n][i]);
      SumOfSums(s[..n], f, g, h);
    }
  }

  lemma {:induction false} SumZero<T>(s: seq<T>, f: T -> int)
    requires forall i :: 0 <= i < |s| ==> f(s[i]) == 0
    ensures SumBy(s, f) == 0
  {
    if s != [] {
      var n := |s| - 1;
      assert forall i :: 0 <= i < n ==> f(s[..n][i]) == 0;
      SumZero(s[..n], f);
    }
  }

  lemma {:induction false} SumNonNegative<T>(s: seq<T>, f: T -> int)
    requires forall i :: 0 <= i < |s| ==> 0 <= f(s[i])
    ensures 0 <= SumBy(s, f)
  {
    if s != [] {
      var n := |s| - 1;
      assert forall i :: 0 <= i < n ==> 0 <= f(s[..n][i]);
      SumNonNegative(s[..n], f);
    }
  }

  // ---------- Filtered lists ----------

  /** The positions in `s` of the elements with `p`, in order. */
  function Positions<T>(s: seq<T>, p: T -> bool): (r: seq<nat>)
    ensures forall i :: 0 <= i < |r| ==> r[i] < |s| && p(s[r[i]])
    ensures forall i, j :: 0 <= i < j < |r| ==> r[i] < r[j]
  {
    if s == [] then []
    else
      var n := |s| - 1;
      var earlier := Positions(s[..n], p);
      if p(s[n]) then earlier + [n] else earlier
  }

  lemma {:induction false} PositionsComplete<T>(s: seq<T>, p: T -> bool, i: nat)
    requires i < |s| && p(s[i])
    ensures i in Positions(s, p)
  {
    if i < |s| - 1 {
      PositionsComplete(s[..|s| - 1], p, i);
    }
  }

  function Take<T>(s: seq<T>, n: nat): seq<T> {
    if |s| <= n then s else s[..n]
  }
}
