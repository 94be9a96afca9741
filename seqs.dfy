/** Sequence operations the extensions rely on: `Array.prototype.filter`
    and `String.prototype.slice`. */
module Seqs {

  /** The elements of `s` that satisfy `p`, in the order they have in `s`. */
  function Filter<T>(s: seq<T>, p: T -> bool): (r: seq<T>)
    ensures |r| <= |s|
    ensures forall i :: 0 <= i < |r| ==> r[i] in s && p(r[i])
    ensures forall i :: 0 <= i < |s| && p(s[i]) ==> s[i] in r
  {
    if s == [] then []
    else
      assert s == [s[0]] + s[1..];
      (if p(s[0]) then [s[0]] else []) + Filter(s[1..], p)
  }

  /** `idx` lists, in strictly increasing order, the positions of `s` that `r` keeps. */
  ghost predicate Embeds<T>(r: seq<T>, s: seq<T>, idx: seq<nat>)
  {
    && |idx| == |r|
    && (forall k :: 0 <= k < |idx| ==> idx[k] < |s| && r[k] == s[idx[k]])
    && (forall k, l :: 0 <= k < l < |idx| ==> idx[k] < idx[l])
  }

  /** `r` is `s` with some elements deleted and the rest in their original order. */
  ghost predicate IsSubsequence<T>(r: seq<T>, s: seq<T>)
  {
    exists idx :: Embeds(r, s, idx)
  }

  /** The positions `idx` one further along. */
  function Shift(idx: seq<nat>): (r: seq<nat>)
    ensures |r| == |idx| && forall k :: 0 <= k < |idx| ==> r[k] == idx[k] + 1
  {
    seq(|idx|, k requires 0 <= k < |idx| => idx[k] + 1)
  }

  /** An embedding into the tail of `s` is one into `s`, skipping or keeping `s[0]`. */
  lemma EmbedsTail<T>(r: seq<T>, s: seq<T>, idx: seq<nat>)
    requires s != [] && Embeds(r, s[1..], idx)
    ensures Embeds(r, s, Shift(idx))
    ensures Embeds([s[0]] + r, s, [0] + Shift(idx))
  {
    var sh := Shift(idx);
    forall k | 0 <= k < |sh| ensures sh[k] < |s| && r[k] == s[sh[k]] {
      assert r[k] == s[1..][idx[k]];
    }
    var r', sh' := [s[0]] + r, [0] + sh;
    forall k | 0 <= k < |sh'| ensures sh'[k] < |s| && r'[k] == s[sh'[k]] {
      if k > 0 {
        assert r'[k] == r[k - 1] && sh'[k] == sh[k - 1];
      }
    }
  }

  /** Filtering keeps the order of the input. */
  lemma {:induction false} FilterIsSubsequence<T>(s: seq<T>, p: T -> bool)
    ensures IsSubsequence(Filter(s, p), s)
  {
    if s == [] {
      assert Embeds<T>([], s, []);
    } else {
      FilterIsSubsequence(s[1..], p);
      var idx :| Embeds(Filter(s[1..], p), s[1..], idx);
      EmbedsTail(Filter(s[1..], p), s, idx);
      if p(s[0]) {
        assert Embeds(Filter(s, p), s, [0] + Shift(idx));
      } else {
        assert Embeds(Filter(s, p), s, Shift(idx));
      }
    }
  }

  /** Filtering by a predicate and by its negation splits the input: every
      element lands in exactly one of the two results. */
  lemma {:induction false} FilterComplement<T>(s: seq<T>, p: T -> bool, q: T -> bool)
    requires forall x :: q(x) == !p(x)
    ensures multiset(Filter(s, p)) + multiset(Filter(s, q)) == multiset(s)
  {
    if s != [] {
      FilterComplement(s[1..], p, q);
      assert s == [s[0]] + s[1..];
    }
  }

  /** A `slice` bound: a negative one counts back from the end, and either is
      clamped into `0..n`. */
  function SliceBound(i: int, n: nat): (r: nat)
    ensures r <= n
    ensures 0 <= i <= n ==> r == i
    ensures -(n as int) <= i < 0 ==> r as int == n as int + i
  {
    if i < 0 then (if n + i < 0 then 0 else n + i)
    else if i > n then n
    else i
  }

  /** `s.slice(start, end)`: the run of `s` from the clamped start to the
      clamped end, empty when they cross. */
  function Slice<T>(s: seq<T>, start: int, end: int): (r: seq<T>)
    ensures var lo, hi := SliceBound(start, |s|), SliceBound(end, |s|);
      && |r| == (if lo < hi then hi - lo else 0)
      && lo + |r| <= |s| && r == s[lo..lo + |r|]
  {
    var lo, hi := SliceBound(start, |s|), SliceBound(end, |s|);
    if lo < hi then s[lo..hi] else []
  }
}
