/**
 * How Python's `re` engine uses a pattern's matcher: `re.search` takes the leftmost position where
 * it matches, `re.sub` removes each leftmost match and scans on after it, and a greedy group followed
 * by more pattern gives back characters until the rest matches, which makes the rightmost end win.
 * A matcher is a function from a position to the match found there, if any.
 */
module Scan {
  import opened Wrappers

  /** The leftmost position in `p..n` where `m` matches, with the match found there. */
  function Leftmost<T>(m: nat -> Option<T>, p: nat, n: nat): (r: Option<(nat, T)>)
    ensures r.Some? ==> p <= r.value.0 <= n && m(r.value.0) == Some(r.value.1)
    ensures r.Some? ==> forall x :: p <= x < r.value.0 ==> m(x).None?
    ensures r.None? ==> forall x :: p <= x <= n ==> m(x).None?
    decreases n + 1 - p
  {
    if p > n then None
    else match m(p)
      case Some(v) => Some((p, v))
      case None => Leftmost(m, p + 1, n)
  }

  /** The leftmost match is determined by its position. */
  lemma {:induction false} LeftmostExact<T>(m: nat -> Option<T>, p: nat, n: nat, x: nat)
    requires p <= x <= n && m(x).Some?
    requires forall y :: p <= y < x ==> m(y).None?
    ensures Leftmost(m, p, n) == Some((x, m(x).value))
    decreases x - p
  {
    if p < x {
      LeftmostExact(m, p + 1, n, x);
    }
  }

  /** The rightmost position in `lo..hi` where `m` matches, tried from `hi` down. */
  function Rightmost<T>(m: nat -> Option<T>, lo: nat, hi: nat): (r: Option<(nat, T)>)
    ensures r.Some? ==> lo <= r.value.0 <= hi && m(r.value.0) == Some(r.value.1)
    ensures r.Some? ==> forall x :: r.value.0 < x <= hi ==> m(x).None?
    ensures r.None? ==> forall x :: lo <= x <= hi ==> m(x).None?
    decreases hi
  {
    if hi < lo then None
    else match m(hi)
      case Some(v) => Some((hi, v))
      case None => if hi == 0 then None else Rightmost(m, lo, hi - 1)
  }

  lemma {:induction false} RightmostExact<T>(m: nat -> Option<T>, lo: nat, hi: nat, x: nat)
    requires lo <= x <= hi && m(x).Some?
    requires forall y :: x < y <= hi ==> m(y).None?
    ensures Rightmost(m, lo, hi) == Some((x, m(x).value))
    decreases hi - x
  {
    if x < hi {
      RightmostExact(m, lo, hi - 1, x);
    }
  }

  /**
   * `re.sub(pattern, "", t[p..])`: each leftmost match removed, the scan going on where it ended. A
   * match is a position to where it ends; one that would not move the scan on counts as no match.
   */
  function Sub(t: string, m: nat -> Option<nat>, p: nat): (r: string)
    requires p <= |t|
    ensures |r| <= |t| - p
    decreases |t| - p
  {
    if p == |t| then []
    else match m(p)
      case Some(e) => if p < e <= |t| then Sub(t, m, e) else [t[p]] + Sub(t, m, p + 1)
      case None => [t[p]] + Sub(t, m, p + 1)
  }

  /** Where nothing matches, `re.sub` keeps the text. */
  lemma {:induction false} SubKeeps(t: string, m: nat -> Option<nat>, p: nat, q: nat)
    requires p <= q <= |t|
    requires forall x :: p <= x < q ==> m(x).None?
    ensures Sub(t, m, p) == t[p..q] + Sub(t, m, q)
    decreases q - p
  {
    if p < q {
      var rest := Sub(t, m, q);
      assert m(p).None?;
      assert Sub(t, m, p) == [t[p]] + Sub(t, m, p + 1);
      SubKeeps(t, m, p + 1, q);
      assert t[p..q] == [t[p]] + t[p + 1..q];
      AppendAssoc([t[p]], t[p + 1..q], rest);
    } else {
      assert t[p..q] == [];
    }
  }

  lemma AppendAssoc(a: string, b: string, c: string)
    ensures a + (b + c) == (a + b) + c
  {
  }

  /** `re.sub` keeps the text up to the first match, drops the match, and scans on where it ended. */
  lemma SubFirst(t: string, m: nat -> Option<nat>, p: nat, q: nat)
    requires p <= q < |t|
    requires forall x :: p <= x < q ==> m(x).None?
    requires m(q).Some? && q < m(q).value <= |t|
    ensures Sub(t, m, p) == t[p..q] + Sub(t, m, m(q).value)
  {
    SubKeeps(t, m, p, q);
  }

  lemma SubNothing(t: string, m: nat -> Option<nat>)
    requires forall x :: 0 <= x < |t| ==> m(x).None?
    ensures Sub(t, m, 0) == t
  {
    SubKeeps(t, m, 0, |t|);
    assert t[0..|t|] == t;
  }
}
