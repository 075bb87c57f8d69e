/** The insertion sort of the label tables (tools/m65c02recomp/analyze.c), in place. */
module Sorting {
  import opened Bytes

  predicate Sorted(s: seq<u16>) { forall j, k :: 0 <= j < k < |s| ==> s[j] <= s[k] }

  /** `v` put into a sorted sequence, after the elements that are not greater. */
  function Insert(s: seq<u16>, v: u16): seq<u16> {
    if s == [] || s[|s| - 1] <= v then s + [v]
    else Insert(s[..|s| - 1], v) + [s[|s| - 1]]
  }

  function Sort(s: seq<u16>): seq<u16> {
    if s == [] then [] else Insert(Sort(s[..|s| - 1]), s[|s| - 1])
  }

  lemma {:induction false} InsertFacts(s: seq<u16>, v: u16)
    requires Sorted(s)
    ensures |Insert(s, v)| == |s| + 1
    ensures Sorted(Insert(s, v))
    ensures multiset(Insert(s, v)) == multiset(s) + multiset{v}
  {
    if s != [] && s[|s| - 1] > v {
      var front, last := s[..|s| - 1], s[|s| - 1];
      InsertFacts(front, v);
      assert s == front + [last];
      var t := Insert(front, v);
      forall k | 0 <= k < |t|
        ensures t[k] <= last
      {
        assert t[k] in multiset(t);
        assert t[k] == v || t[k] in front;
      }
    }
  }

  /** Sorting loses, adds and duplicates nothing. */
  lemma {:induction false} SortFacts(s: seq<u16>)
    ensures |Sort(s)| == |s| && Sorted(Sort(s)) && multiset(Sort(s)) == multiset(s)
  {
    if s != [] {
      SortFacts(s[..|s| - 1]);
      InsertFacts(Sort(s[..|s| - 1]), s[|s| - 1]);
      assert s == s[..|s| - 1] + [s[|s| - 1]];
    }
  }

  /** `t` is `s` with `v` at place p and what was there moved up. */
  predicate Spread(s: seq<u16>, v: u16, p: nat, t: seq<u16>) {
    && p <= |s| && |t| == |s| + 1 && t[p] == v
    && (forall k :: 0 <= k < p ==> t[k] == s[k])
    && (forall k :: p <= k < |s| ==> t[k + 1] == s[k])
  }

  /** The place of the insertion: behind an element not greater, before all greater ones. */
  lemma {:induction false} InsertSpreads(s: seq<u16>, v: u16, p: nat)
    requires p <= |s| && (p > 0 ==> s[p - 1] <= v) && forall k :: p <= k < |s| ==> s[k] > v
    ensures Spread(s, v, p, Insert(s, v))
  {
    if p < |s| {
      InsertSpreads(s[..|s| - 1], v, p);
    }
  }

  lemma SpreadUnique(s: seq<u16>, v: u16, p: nat, t: seq<u16>, u: seq<u16>)
    requires Spread(s, v, p, t) && Spread(s, v, p, u)
    ensures t == u
  {
    forall k | 0 <= k < |t|
      ensures t[k] == u[k]
    {
      if k > p {
        var j := k - 1;
        assert t[j + 1] == s[j] && u[j + 1] == s[j];
      }
    }
  }

  /** Shifts the greater elements of the sorted `l[..i]` up and drops `l[i]` into place. */
  method InsertAt(l: array<u16>, i: nat)
    requires i < l.Length
    modifies l
    ensures l[..i + 1] == Insert(old(l[..i]), old(l[i])) && l[i + 1..] == old(l[i + 1..])
  {
    hide Insert;
    var v := l[i];
    var b := i - 1;
    ghost var s: seq<u16> := l[..i];
    while b >= 0 && l[b] > v
      invariant -1 <= b < i
      invariant forall k :: 0 <= k <= b ==> l[k] == s[k]
      invariant forall k :: b < k < i ==> l[k + 1] == s[k] && s[k] > v
      invariant l[i + 1..] == old(l[i + 1..])
    {
      l[b + 1] := l[b];
      b := b - 1;
    }
    l[b + 1] := v;
    InsertSpreads(s, v, b + 1);
    SpreadUnique(s, v, b + 1, l[..i + 1], Insert(s, v));
  }

  method SortLabels(l: array<u16>, n: nat)
    requires n <= l.Length
    modifies l
    ensures l[..n] == Sort(old(l[..n])) && l[n..] == old(l[n..])
  {
    ghost var s := l[..n];
    var i := 1;
    assert n >= 1 ==> s[..1][..0] == [] && l[..1] == [s[..1][0]] == Sort(s[..1]);
    while i < n
      invariant 1 <= i && (i <= n || n == 0)
      invariant i <= n ==> l[..i] == Sort(s[..i]) && l[i..] == old(l[i..])
      invariant n == 0 ==> l[..] == old(l[..])
    {
      ghost var before := l[..];
      assert l[i] == s[i] by { assert before[i..][0] == old(l[i..])[0]; }
      InsertAt(l, i);
      assert s[..i + 1][..i] == s[..i] && s[..i + 1][i] == s[i];
      assert l[i + 1..] == before[i + 1..] == before[i..][1..];
      i := i + 1;
    }
    assert s[..n] == s;
  }
}
