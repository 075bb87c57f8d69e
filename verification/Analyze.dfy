/** Recursive-descent function discovery (tools/m65c02recomp/analyze.c): the worklist run as
    an object over fixed arrays, and the proof that it computes a least fixpoint. */
module Analyze {
  import opened Bytes
  import opened Decode
  import opened Sweep
  import Sorting

  // ---- the least set of functions ----

  predicate SeedsIn(img: Image, seeds: seq<u16>, s: set<u16>) {
    forall a :: a in seeds && InImage(img, a) ==> a in s
  }

  /** Everything the sweep of `f` leads to is in `s`. */
  predicate EdgesIn(img: Image, f: u16, s: set<u16>) {
    forall v :: v in Body(img, f) ==> forall a :: a in EdgesOf(img, v) ==> a in s
  }

  ghost predicate Closed(img: Image, seeds: seq<u16>, s: set<u16>) {
    SeedsIn(img, seeds, s) && forall f :: f in s ==> EdgesIn(img, f, s)
  }

  /** `s` is inside every closed set. */
  ghost predicate Minimal(img: Image, seeds: seq<u16>, s: set<u16>) {
    forall t: set<u16> :: Closed(img, seeds, t) ==> s <= t
  }

  /** `s` is the least set with the in-image seeds that the sweep edges do not leave. */
  ghost predicate Least(img: Image, seeds: seq<u16>, s: set<u16>) {
    Closed(img, seeds, s) && Minimal(img, seeds, s)
  }

  /** The least set does not depend on the order, or repetition, of the seeds. */
  lemma LeastIsUnique(img: Image, seeds: seq<u16>, seeds': seq<u16>, s: set<u16>, s': set<u16>)
    requires Least(img, seeds, s) && Least(img, seeds', s')
    requires forall a :: a in seeds <==> a in seeds'
    ensures s == s'
  {
    assert Closed(img, seeds, s') && Closed(img, seeds', s);
  }

  /** The address is in every closed set. */
  ghost predicate InAll(img: Image, seeds: seq<u16>, a: u16) {
    forall t: set<u16> :: Closed(img, seeds, t) ==> a in t
  }

  /** The intersection of all closed sets of addresses. */
  ghost function Common(img: Image, seeds: seq<u16>): set<u16> {
    set a: u16 | 0 <= a < 0x1_0000 && InAll(img, seeds, a)
  }

  /** There is a least set, whatever the image and the seeds. */
  lemma LeastExists(img: Image, seeds: seq<u16>)
    ensures Least(img, seeds, Common(img, seeds))
  {
    var s := Common(img, seeds);
    forall f | f in s
      ensures EdgesIn(img, f, s)
    {
      assert InAll(img, seeds, f);
      forall v, a | v in Body(img, f) && a in EdgesOf(img, v)
        ensures a in s
      {
        forall t: set<u16> | Closed(img, seeds, t)
          ensures a in t
        {
          assert f in t && EdgesIn(img, f, t);
        }
        assert InAll(img, seeds, a);
      }
    }
    forall a | a in seeds && InImage(img, a)
      ensures a in s
    {
      assert InAll(img, seeds, a);
    }
    forall t: set<u16> | Closed(img, seeds, t)
      ensures s <= t
    {
    }
  }

  // ---- worklist state ----

  /** Worklist, functions seen, functions found, external targets. */
  datatype Disc = Disc(work: seq<u16>, seen: set<u16>, funcs: seq<Func>, ext: seq<u16>)

  function Push(img: Image, s: Disc, a: u16): Disc {
    if !InImage(img, a) || a in s.seen then s
    else if |s.work| >= MAX_FUNCS || |s.funcs| >= MAX_FUNCS then s
    else s.(work := s.work + [a], seen := s.seen + {a})
  }

  function PushAll(img: Image, s: Disc, l: seq<u16>): Disc
    decreases |l|
  {
    if l == [] then s else PushAll(img, Push(img, s, l[0]), l[1..])
  }

  function AddExt(s: Disc, a: u16): Disc {
    if a in s.ext || |s.ext| >= MAX_FUNCS then s else s.(ext := s.ext + [a])
  }

  /** One visit: its targets, then its external target. */
  function FollowOne(img: Image, s: Disc, v: Visit): Disc {
    var t := PushAll(img, s, EdgesOf(img, v));
    match ExtOf(img, v.insn)
    case Some(a) => AddExt(t, a)
    case None => t
  }

  /** What the visits do to the worklist and the external targets. */
  function Follow(img: Image, s: Disc, vs: seq<Visit>): Disc
    decreases |vs|
  {
    if vs == [] then s else Follow(img, FollowOne(img, s, vs[0]), vs[1..])
  }

  /** A call or direct jump out of the image; 0 stands for "none" in a jump. */
  predicate External(img: Image, r: Insn, a: u16) {
    a == r.target && !InImage(img, a) && (r.flow.CallTo? || (r.flow.Jump? && a != 0))
  }

  lemma {:induction false} PushesKeepExt(img: Image, s: Disc, l: seq<u16>)
    ensures PushAll(img, s, l).ext == s.ext
    decreases |l|
  {
    if l != [] { PushesKeepExt(img, Push(img, s, l[0]), l[1..]); }
  }

  lemma {:induction false} ExtGrows(img: Image, s: Disc, vs: seq<Visit>)
    ensures s.ext <= Follow(img, s, vs).ext
    decreases |vs|
  {
    if vs != [] {
      PushesKeepExt(img, s, EdgesOf(img, vs[0]));
      ExtGrows(img, FollowOne(img, s, vs[0]), vs[1..]);
    }
  }

  /** With room left, the external targets recorded are exactly those the visits go to. */
  lemma {:induction false} ExtExactly(img: Image, s: Disc, vs: seq<Visit>, a: u16)
    requires |Follow(img, s, vs).ext| < 1024
    ensures a in Follow(img, s, vs).ext <==> a in s.ext || exists v :: v in vs && External(img, v.insn, a)
    decreases |vs|
  {
    hide InImage, EdgesOf;
    if vs != [] {
      var v, rest := vs[0], vs[1..];
      PushesKeepExt(img, s, EdgesOf(img, v));
      ExtGrows(img, FollowOne(img, s, v), rest);
      ExtExactly(img, FollowOne(img, s, v), rest, a);
      assert forall u :: u in vs <==> u == v || u in rest;
    }
  }

  /** `discover_one`, on an address taken off the worklist. */
  function DiscoverOne(img: Image, s: Disc, fs: u16): Disc {
    if |s.funcs| >= MAX_FUNCS then s
    else
      var t := Follow(img, s, Body(img, fs));
      t.(funcs := t.funcs + [FuncAt(img, fs)])
  }

  function Starts(funcs: seq<Func>): set<u16> { set f | f in funcs :: f.start }

  predicate DistinctStarts(funcs: seq<Func>) {
    forall j, k :: 0 <= j < k < |funcs| ==> funcs[j].start != funcs[k].start
  }

  predicate Distinct(l: seq<u16>) { forall j, k :: 0 <= j < k < |l| ==> l[j] != l[k] }

  /** What every step of discovery keeps. `current` holds the function being swept, if any. */
  ghost predicate Invariant(img: Image, seeds: seq<u16>, s: Disc, current: seq<u16>) {
    && |s.work| <= MAX_FUNCS && |s.funcs| <= MAX_FUNCS
    && Distinct(s.work + current) && DistinctStarts(s.funcs)
    && (forall a :: a in s.work + current ==> a in s.seen && a !in Starts(s.funcs))
    && Starts(s.funcs) <= s.seen
    && (forall a :: a in s.seen ==> InImage(img, a))
    && Minimal(img, seeds, s.seen)
    && (forall f :: f in s.funcs ==> f == FuncAt(img, f.start))
    && (|s.funcs| == MAX_FUNCS || |s.funcs| + |s.work| + |current| == |s.seen|)
    && (|s.seen| < MAX_FUNCS ==> forall f :: f in s.funcs ==> EdgesIn(img, f.start, s.seen))
  }

  // ---- the invariant, step by step ----

  lemma {:induction false} StartsCount(funcs: seq<Func>)
    requires DistinctStarts(funcs)
    ensures |Starts(funcs)| == |funcs|
  {
    if funcs != [] {
      var front, f := funcs[..|funcs| - 1], funcs[|funcs| - 1];
      StartsCount(front);
      assert funcs == front + [f];
      assert Starts(funcs) == Starts(front) + {f.start};
      assert f.start !in Starts(front);
    }
  }

  lemma SubsetCount(s: set<u16>, t: set<u16>)
    requires s <= t
    ensures |s| <= |t| && (|s| == |t| ==> s == t)
  {
    assert t == s + (t - s);
  }

  /** A refused push means there are at least MAX_FUNCS functions. */
  lemma RefusedMeansFull(img: Image, seeds: seq<u16>, s: Disc, current: seq<u16>)
    requires Invariant(img, seeds, s, current)
    requires |s.work| >= MAX_FUNCS || |s.funcs| >= MAX_FUNCS
    ensures |s.seen| >= MAX_FUNCS
  {
    StartsCount(s.funcs);
    SubsetCount(Starts(s.funcs), s.seen);
  }

  /** An address that belongs to every closed set may be pushed. */
  ghost predicate Needed(img: Image, seeds: seq<u16>, a: u16) {
    InImage(img, a) ==> forall t: set<u16> :: Closed(img, seeds, t) ==> a in t
  }

  lemma PushKeeps(img: Image, seeds: seq<u16>, s: Disc, current: seq<u16>, a: u16)
    requires Invariant(img, seeds, s, current) && Needed(img, seeds, a)
    ensures Invariant(img, seeds, Push(img, s, a), current)
    ensures s.seen <= Push(img, s, a).seen && Push(img, s, a).funcs == s.funcs
    ensures var s' := Push(img, s, a); |s'.seen| < MAX_FUNCS && InImage(img, a) ==> a in s'.seen
  {
    var s' := Push(img, s, a);
    if s' == s {
      if InImage(img, a) && a !in s.seen {
        RefusedMeansFull(img, seeds, s, current);
      }
    } else {
      assert s'.work + current == s.work + [a] + current;
      DistinctInsert(s.work, a, current);
      assert Minimal(img, seeds, s'.seen);
    }
  }

  lemma DistinctInsert(l: seq<u16>, a: u16, r: seq<u16>)
    requires Distinct(l + r) && a !in l + r
    ensures Distinct(l + [a] + r)
  {
    var m := l + [a] + r;
    forall j, k | 0 <= j < k < |m|
      ensures m[j] != m[k]
    {
      assert m[j] == if j < |l| then (l + r)[j] else if j == |l| then a else (l + r)[j - 1];
      assert m[k] == if k < |l| then (l + r)[k] else if k == |l| then a else (l + r)[k - 1];
    }
  }

  lemma {:induction false} PushAllKeeps(img: Image, seeds: seq<u16>, s: Disc, current: seq<u16>, l: seq<u16>)
    requires Invariant(img, seeds, s, current) && forall a :: a in l ==> Needed(img, seeds, a)
    ensures var s' := PushAll(img, s, l);
            && Invariant(img, seeds, s', current) && s.seen <= s'.seen && s'.funcs == s.funcs
            && (|s'.seen| < MAX_FUNCS ==> forall a :: a in l && InImage(img, a) ==> a in s'.seen)
    decreases |l|
  {
    if l != [] {
      PushKeeps(img, seeds, s, current, l[0]);
      PushAllKeeps(img, seeds, Push(img, s, l[0]), current, l[1..]);
      SubsetCount(Push(img, s, l[0]).seen, PushAll(img, s, l).seen);
    }
  }

  lemma {:induction false} FollowKeeps(img: Image, seeds: seq<u16>, s: Disc, current: seq<u16>, vs: seq<Visit>)
    requires Invariant(img, seeds, s, current)
    requires forall v :: v in vs ==> forall a :: a in EdgesOf(img, v) ==> Needed(img, seeds, a)
    ensures var s' := Follow(img, s, vs);
            && Invariant(img, seeds, s', current) && s.seen <= s'.seen && s'.funcs == s.funcs
            && (|s'.seen| < MAX_FUNCS ==>
                  forall v :: v in vs ==> forall a :: a in EdgesOf(img, v) ==> a in s'.seen)
    decreases |vs|
  {
    if vs != [] {
      PushAllKeeps(img, seeds, s, current, EdgesOf(img, vs[0]));
      EdgesInImage(img, vs[0]);
      var t := FollowOne(img, s, vs[0]);
      FollowKeeps(img, seeds, t, current, vs[1..]);
      SubsetCount(t.seen, Follow(img, s, vs).seen);
    }
  }

  lemma AppendFunc(img: Image, seeds: seq<u16>, t: Disc, fs: u16)
    requires Invariant(img, seeds, t, [fs]) && |t.funcs| < MAX_FUNCS
    requires |t.seen| < MAX_FUNCS ==> EdgesIn(img, fs, t.seen)
    ensures Invariant(img, seeds, t.(funcs := t.funcs + [FuncAt(img, fs)]), [])
  {
    var f := FuncAt(img, fs);
    assert fs in t.work + [fs];
    assert Starts(t.funcs + [f]) == Starts(t.funcs) + {fs};
    forall j | 0 <= j < |t.work|
      ensures t.work[j] != fs
    {
      assert (t.work + [fs])[j] == t.work[j] && (t.work + [fs])[|t.work|] == fs;
    }
    forall j, k | 0 <= j < k < |t.work|
      ensures t.work[j] != t.work[k]
    {
      assert (t.work + [fs])[j] == t.work[j] && (t.work + [fs])[k] == t.work[k];
    }
    assert t.work + [] == t.work;
    forall k | 0 <= k < |t.funcs|
      ensures t.funcs[k].start != fs
    {
      assert t.funcs[k].start in Starts(t.funcs);
    }
  }

  lemma BodyIsNeeded(img: Image, seeds: seq<u16>, s: Disc, fs: u16)
    requires Minimal(img, seeds, s.seen) && fs in s.seen
    ensures forall v :: v in Body(img, fs) ==> forall a :: a in EdgesOf(img, v) ==> Needed(img, seeds, a)
  {
    forall v, a, t: set<u16> | v in Body(img, fs) && a in EdgesOf(img, v) && Closed(img, seeds, t)
      ensures a in t
    {
      assert fs in t && EdgesIn(img, fs, t);
    }
  }

  lemma DropCurrent(img: Image, seeds: seq<u16>, s: Disc, fs: u16)
    requires Invariant(img, seeds, s, [fs]) && |s.funcs| >= MAX_FUNCS
    ensures Invariant(img, seeds, s, [])
  {
    assert s.work + [] == s.work;
    forall j, k | 0 <= j < k < |s.work|
      ensures s.work[j] != s.work[k]
    {
      assert (s.work + [fs])[j] == s.work[j] && (s.work + [fs])[k] == s.work[k];
    }
  }

  lemma DiscoverOneKeeps(img: Image, seeds: seq<u16>, s: Disc, fs: u16)
    requires Invariant(img, seeds, s, [fs])
    ensures Invariant(img, seeds, DiscoverOne(img, s, fs), [])
    ensures s.seen <= DiscoverOne(img, s, fs).seen
  {
    if |s.funcs| < MAX_FUNCS {
      assert fs in s.work + [fs];
      BodyIsNeeded(img, seeds, s, fs);
      FollowKeeps(img, seeds, s, [fs], Body(img, fs));
      AppendFunc(img, seeds, Follow(img, s, Body(img, fs)), fs);
    } else {
      DropCurrent(img, seeds, s, fs);
    }
  }

  /** An empty worklist with room left is the least fixpoint. */
  lemma DoneIsLeast(img: Image, seeds: seq<u16>, s: Disc)
    requires Invariant(img, seeds, s, []) && s.work == []
    requires |s.seen| < MAX_FUNCS ==> SeedsIn(img, seeds, s.seen)
    ensures |s.funcs| < MAX_FUNCS ==> Least(img, seeds, Starts(s.funcs))
    ensures forall t: set<u16> :: Least(img, seeds, t) ==>
              Starts(s.funcs) <= t && (|t| < MAX_FUNCS <==> |s.funcs| < MAX_FUNCS)
  {
    StartsCount(s.funcs);
    SubsetCount(Starts(s.funcs), s.seen);
    if |s.funcs| < MAX_FUNCS {
      assert Starts(s.funcs) == s.seen;
      forall f | f in s.seen
        ensures EdgesIn(img, f, s.seen)
      {
        var k :| k in s.funcs && k.start == f;
      }
    }
    forall t: set<u16> | Least(img, seeds, t)
      ensures Starts(s.funcs) <= t && (|t| < MAX_FUNCS <==> |s.funcs| < MAX_FUNCS)
    {
      SubsetCount(Starts(s.funcs), t);
      if |s.funcs| < MAX_FUNCS {
        LeastIsUnique(img, seeds, seeds, Starts(s.funcs), t);
      }
    }
  }

  // ---- the analyser ----

  function Seen(b: seq<bool>): set<u16>
    requires |b| == 0x1_0000
  {
    set a: u16 | 0 <= a < 0x1_0000 && b[a]
  }

  class Discovery {
    const img: Image
    const work: array<u16>
    var nwork: nat
    const seen: array<bool>
    const funcs: array<Func>
    var nfuncs: nat
    const ext: array<u16>
    var next: nat

    ghost predicate Valid()
      reads this
    {
      && work.Length == funcs.Length == ext.Length == MAX_FUNCS && seen.Length == 0x1_0000
      && work != ext && nwork <= MAX_FUNCS && nfuncs <= MAX_FUNCS && next <= MAX_FUNCS
    }

    ghost function View(): Disc
      requires Valid()
      reads this, work, seen, funcs, ext
    {
      Disc(work[..nwork], Seen(seen[..]), funcs[..nfuncs], ext[..next])
    }

    constructor (img: Image)
      ensures Valid() && this.img == img
      ensures fresh(work) && fresh(seen) && fresh(funcs) && fresh(ext)
      ensures View() == Disc([], {}, [], [])
    {
      this.img := img;
      work, nwork := new u16[MAX_FUNCS](_ => 0), 0;
      seen := new bool[0x1_0000](_ => false);
      funcs, nfuncs := new Func[MAX_FUNCS](_ => Func(0, 0, [], false)), 0;
      ext, next := new u16[MAX_FUNCS](_ => 0), 0;
    }

    method PushFunc(a: u16)
      requires Valid()
      modifies this`nwork, work, seen
      ensures Valid() && View() == Push(img, old(View()), a)
    {
      if !InImage(img, a) || seen[a] { return; }
      if nwork >= MAX_FUNCS || nfuncs >= MAX_FUNCS { return; }
      seen[a] := true;
      work[nwork] := a;
      nwork := nwork + 1;
      assert Seen(seen[..]) == Seen(old(seen[..])) + {a};
    }

    method RecordExt(a: u16)
      requires Valid()
      modifies this`next, ext
      ensures Valid() && View() == AddExt(old(View()), a)
    {
      var i := 0;
      while i < next
        invariant 0 <= i <= next && a !in ext[..i]
      {
        if ext[i] == a { return; }
        i := i + 1;
      }
      if next < MAX_FUNCS {
        ext[next] := a;
        next := next + 1;
      }
    }

    /** Pushes the targets of a jump table. */
    method PushTable(tab: u16)
      requires Valid()
      modifies this, work, seen
      ensures Valid() && View() == PushAll(img, old(View()), TableFrom(img, tab, 0)) && nfuncs == old(nfuncs)
    {
      var e := 0;
      ghost var goal := PushAll(img, View(), TableFrom(img, tab, 0));
      while e < 64
        invariant 0 <= e <= 64 && Valid() && nfuncs == old(nfuncs)
        invariant PushAll(img, View(), TableFrom(img, tab, e)) == goal
      {
        var t := ImgRd16(img, Word(tab + e * 2));
        if t == 0 || !InImage(img, t) { break; }
        PushFunc(t);
        e := e + 1;
      }
    }

    /** The pointers of a computed jump. */
    method FollowComputed(r: Insn)
      requires Valid()
      modifies this, work, seen
      ensures Valid() && View() == PushAll(img, old(View()), Computed(img, r)) && nfuncs == old(nfuncs)
    {
      if r.mode == IND {
        var t := ImgRd16(img, r.operand);
        if InImage(img, t) { PushFunc(t); }
      } else if r.mode == IAX {
        PushTable(r.operand);
      }
    }

    /** The calls, tail jumps and computed jumps of one visit. */
    method FollowTargets(v: Visit)
      requires Valid()
      modifies this, work, seen
      ensures Valid() && View() == PushAll(img, old(View()), EdgesOf(img, v)) && nfuncs == old(nfuncs)
    {
      var r := v.insn;
      if r.flow.CallTo? {
        if InImage(img, r.target) { PushFunc(r.target); }
      } else if r.flow.Jump? {
        PushAllCons(img, View(), r.target, Computed(img, r));
        if r.target != 0 && InImage(img, r.target) && r.target > v.end { PushFunc(r.target); }
        FollowComputed(r);
      }
    }

    /** Pushes and records what one visit leads to. */
    method FollowVisit(v: Visit)
      requires Valid()
      modifies this, work, seen, ext
      ensures Valid() && View() == FollowOne(img, old(View()), v) && nfuncs == old(nfuncs)
    {
      FollowTargets(v);
      var x := ExtOf(img, v.insn);
      if x.Some? { RecordExt(x.value); }
    }

    /** Sweeps the function at `fs` and records it. */
    method Discover(fs: u16)
      requires Valid()
      modifies this, work, seen, funcs, ext
      ensures Valid() && View() == DiscoverOne(img, old(View()), fs)
    {
      hide Pending, Stops, FollowOne, LabelOf, AddLabel;
      if nfuncs >= MAX_FUNCS { return; }
      var labels: seq<u16>, reachesRet := [], false;
      var addr, maxt, end := fs, fs, fs;
      ghost var goal, record := Follow(img, View(), Body(img, fs)), FuncAt(img, fs);
      ghost var rest := Body(img, fs);
      while Decodes(img, fs, addr)
        invariant Valid() && nfuncs == old(nfuncs)
        invariant rest == SweepFrom(img, fs, addr, maxt, end)
        invariant Follow(img, View(), rest) == goal
        invariant LabelsFrom(img, labels, rest) == record.labels && EndFrom(end, rest) == record.end
        invariant (reachesRet || ReachesRet(rest)) == record.reachesRet
        decreases |rest|
      {
        var r := InsnAt(img, addr);
        end := Max(end, Following(r));
        maxt := Pending(img, r, maxt, end);
        assert rest[0] == Visit(r, end);
        RetCons(rest);
        FollowVisit(Visit(r, end));
        var l := LabelOf(img, r);
        if l.Some? { labels := AddLabel(labels, l.value); }
        reachesRet := reachesRet || r.flow.Ret?;
        rest := rest[1..];
        if Stops(r, maxt) { break; }
        addr := Following(r);
      }
      assert rest == [];
      funcs[nfuncs] := Func(fs, end, labels, reachesRet);
      nfuncs := nfuncs + 1;
    }
  }

  /** The record of the function at `fs` as the finished table holds it. */
  function Sorted(f: Func): Func { f.(labels := Sorting.Sort(f.labels)) }

  /** The table a finished discovery leaves: the analyser's answer about an image. */
  ghost predicate Answers(img: Image, seeds: seq<u16>, table: seq<Func>) {
    && |table| <= 1024 && DistinctStarts(table)
    && (forall f :: f in table ==> f == Sorted(FuncAt(img, f.start)))
    && Least(img, seeds, Common(img, seeds)) && Starts(table) <= Common(img, seeds)
    && (|table| < 1024 <==> |Common(img, seeds)| < 1024)
    && (|table| < 1024 ==> Starts(table) == Common(img, seeds))
  }

  lemma SameStarts(a: seq<Func>, b: seq<Func>)
    requires |a| == |b| && forall k :: 0 <= k < |a| ==> b[k] == Sorted(a[k])
    ensures Starts(a) == Starts(b) && (DistinctStarts(a) ==> DistinctStarts(b))
  {
    forall x | x in Starts(a)
      ensures x in Starts(b)
    {
      var k :| 0 <= k < |a| && a[k].start == x;
      assert b[k].start == x;
    }
    forall x | x in Starts(b)
      ensures x in Starts(a)
    {
      var k :| 0 <= k < |b| && b[k].start == x;
      assert a[k].start == x;
    }
  }

  lemma FinishedAnswers(img: Image, seeds: seq<u16>, s: Disc, table: seq<Func>)
    requires Invariant(img, seeds, s, []) && s.work == []
    requires |s.seen| < MAX_FUNCS ==> SeedsIn(img, seeds, s.seen)
    requires |table| == |s.funcs| && forall k :: 0 <= k < |table| ==> table[k] == Sorted(s.funcs[k])
    ensures Answers(img, seeds, table)
  {
    DoneIsLeast(img, seeds, s);
    SameStarts(s.funcs, table);
    LeastExists(img, seeds);
    if |table| < MAX_FUNCS { LeastIsUnique(img, seeds, seeds, Starts(table), Common(img, seeds)); }
    forall f | f in table
      ensures f == Sorted(FuncAt(img, f.start))
    {
      var k :| 0 <= k < |table| && table[k] == f;
      assert s.funcs[k] in s.funcs;
    }
  }

  /** Pops one address: it becomes the current function. */
  lemma PopKeeps(img: Image, seeds: seq<u16>, s: Disc)
    requires Invariant(img, seeds, s, []) && s.work != []
    ensures Invariant(img, seeds, s.(work := s.work[..|s.work| - 1]), [s.work[|s.work| - 1]])
  {
    assert s.work[..|s.work| - 1] + [s.work[|s.work| - 1]] == s.work == s.work + [];
  }

  /** The addresses below `n`. */
  ghost function Below(n: nat): (r: set<u16>)
    requires n <= 0x1_0000
    ensures |r| == n && forall a: u16 :: a in r <==> a < n
  {
    if n == 0 then {} else Below(n - 1) + {n - 1}
  }

  lemma SeenBound(s: set<u16>)
    ensures |s| <= 0x1_0000
  {
    SubsetCount(s, Below(0x1_0000));
  }

  method PushSeeds(img: Image, seeds: seq<u16>) returns (d: Discovery)
    ensures d.Valid() && d.img == img && Invariant(img, seeds, d.View(), [])
    ensures |d.View().seen| < MAX_FUNCS ==> SeedsIn(img, seeds, d.View().seen)
    ensures fresh(d) && fresh(d.work) && fresh(d.seen) && fresh(d.funcs) && fresh(d.ext)
  {
    d := new Discovery(img);
    var i := 0;
    while i < |seeds|
      invariant 0 <= i <= |seeds| && d.Valid() && d.img == img
      invariant fresh(d) && fresh(d.work) && fresh(d.seen) && fresh(d.funcs) && fresh(d.ext)
      invariant Invariant(img, seeds, d.View(), [])
      invariant |d.View().seen| < MAX_FUNCS ==> SeedsIn(img, seeds[..i], d.View().seen)
    {
      ghost var s := d.View();
      PushKeeps(img, seeds, s, [], seeds[i]);
      d.PushFunc(seeds[i]);
      SubsetCount(s.seen, d.View().seen);
      assert seeds[..i + 1] == seeds[..i] + [seeds[i]];
      i := i + 1;
    }
    assert seeds[..i] == seeds;
  }

  /** Empties the worklist. */
  method Drain(d: Discovery, ghost seeds: seq<u16>)
    requires d.Valid() && Invariant(d.img, seeds, d.View(), [])
    modifies d, d.work, d.seen, d.funcs, d.ext
    ensures d.Valid() && Invariant(d.img, seeds, d.View(), [])
    ensures d.View().work == [] && old(d.View()).seen <= d.View().seen
  {
    while d.nwork > 0
      invariant d.Valid() && Invariant(d.img, seeds, d.View(), [])
      invariant old(d.View()).seen <= d.View().seen
      decreases 0x1_0000 - |d.View().seen|, d.nwork
    {
      ghost var s := d.View();
      PopKeeps(d.img, seeds, s);
      d.nwork := d.nwork - 1;
      var fs := d.work[d.nwork];
      ghost var t := d.View();
      assert t == s.(work := s.work[..|s.work| - 1]) && fs == s.work[|s.work| - 1];
      DiscoverOneKeeps(d.img, seeds, t, fs);
      d.Discover(fs);
      SubsetCount(s.seen, d.View().seen);
      SeenBound(d.View().seen);
      NoNewSeenNoNewWork(d.img, t, fs);
    }
  }

  method SortFunc(f: Func) returns (g: Func)
    ensures g == Sorted(f)
  {
    var l := new u16[|f.labels|](k requires 0 <= k < |f.labels| => f.labels[k]);
    assert l[..|f.labels|] == f.labels;
    Sorting.SortLabels(l, |f.labels|);
    g := f.(labels := l[..|f.labels|]);
  }

  method SortTable(funcs: seq<Func>) returns (table: seq<Func>)
    ensures |table| == |funcs| && forall k :: 0 <= k < |table| ==> table[k] == Sorted(funcs[k])
  {
    table := [];
    var i := 0;
    while i < |funcs|
      invariant 0 <= i <= |funcs| && |table| == i
      invariant forall k :: 0 <= k < i ==> table[k] == Sorted(funcs[k])
    {
      var g := SortFunc(funcs[i]);
      table := table + [g];
      i := i + 1;
    }
  }

  /** `analyze_discover`: the table it returns, with the labels of each function sorted. */
  method AnalyzeDiscover(img: Image, seeds: seq<u16>) returns (table: seq<Func>)
    ensures Answers(img, seeds, table)
  {
    var d := PushSeeds(img, seeds);
    ghost var s := d.View();
    Drain(d, seeds);
    SubsetCount(s.seen, d.View().seen);
    table := SortTable(d.funcs[..d.nfuncs]);
    FinishedAnswers(img, seeds, d.View(), table);
  }

  lemma {:induction false} PushAllCounts(img: Image, s: Disc, l: seq<u16>)
    ensures var t := PushAll(img, s, l);
            s.seen <= t.seen && (t.seen == s.seen ==> t.work == s.work)
    decreases |l|
  {
    if l != [] {
      PushAllCounts(img, Push(img, s, l[0]), l[1..]);
    }
  }

  lemma {:induction false} FollowCounts(img: Image, s: Disc, vs: seq<Visit>)
    ensures var t := Follow(img, s, vs);
            s.seen <= t.seen && (t.seen == s.seen ==> t.work == s.work)
    decreases |vs|
  {
    if vs != [] {
      PushAllCounts(img, s, EdgesOf(img, vs[0]));
      FollowCounts(img, FollowOne(img, s, vs[0]), vs[1..]);
    }
  }

  /** A function that leads to nothing new leaves the worklist alone. */
  lemma NoNewSeenNoNewWork(img: Image, s: Disc, fs: u16)
    ensures var t := DiscoverOne(img, s, fs);
            s.seen <= t.seen && (t.seen == s.seen ==> t.work == s.work)
  {
    FollowCounts(img, s, Body(img, fs));
  }

  lemma PushAllCons(img: Image, s: Disc, a: u16, l: seq<u16>)
    ensures PushAll(img, s, [a] + l) == PushAll(img, Push(img, s, a), l)
  {
    assert ([a] + l)[1..] == l;
  }

  lemma RetCons(vs: seq<Visit>)
    requires vs != []
    ensures ReachesRet(vs) == (vs[0].insn.flow.Ret? || ReachesRet(vs[1..]))
  {
    assert vs == [vs[0]] + vs[1..];
  }
}
