/** Emitting a whole function (tools/m65c02recomp/emit.c, `emit_functions`): the boundary
    pre-pass and the body loop, and what the emitted gotos, labels and ticks guarantee. */
module Translate {
  import opened Bytes
  import opened Cpu
  import opened Decode
  import opened Sweep
  import opened Target
  import opened Emit
  import Analyze
  import Sorting

  /** One emitted line: an optional label `L_addr:` and a statement. */
  datatype Line = Line(addr: u16, labelled: bool, stmt: Stmt)

  function Boundaries(vs: seq<Visit>): set<u16> { set v | v in vs :: v.insn.pc }

  /** The lines of `fn`: one for each instruction that discovery visited up to the recorded end. */
  function Lines(img: Image, fn: Func, starts: set<u16>): seq<Line> {
    var vs := Emitted(img, fn.start);
    var sc := Scope(Boundaries(vs), starts);
    seq(|vs|, k requires 0 <= k < |vs| =>
          Line(vs[k].insn.pc, vs[k].insn.pc in fn.labels, EmitInsn(vs[k].insn, sc)))
  }

  /** A record of a finished table. */
  ghost predicate Recorded(img: Image, fn: Func) { fn == Analyze.Sorted(FuncAt(img, fn.start)) }

  /** `func_table_find`. */
  method FuncTableFind(table: seq<Func>, addr: u16) returns (k: int)
    ensures k == -1 || 0 <= k < |table|
    ensures 0 <= k ==> table[k].start == addr && addr !in Analyze.Starts(table[..k])
    ensures k == -1 <==> addr !in Analyze.Starts(table)
  {
    k := 0;
    while k < |table|
      invariant 0 <= k <= |table| && addr !in Analyze.Starts(table[..k])
    {
      if table[k].start == addr {
        assert table[k] in table;
        return;
      }
      k := k + 1;
    }
    assert table[..k] == table;
    k := -1;
  }

  // ---- labels ----

  function AddTarget(ts: seq<u16>, a: u16): seq<u16> { if a in ts then ts else ts + [a] }

  /** The distinct branch and jump targets of the visits, in order, however many. */
  function TargetsFrom(img: Image, ts: seq<u16>, vs: seq<Visit>): seq<u16>
    decreases |vs|
  {
    if vs == [] then ts
    else
      match LabelOf(img, vs[0].insn)
      case Some(a) => TargetsFrom(img, AddTarget(ts, a), vs[1..])
      case None => TargetsFrom(img, ts, vs[1..])
  }

  function Targets(img: Image, fs: u16): seq<u16> { TargetsFrom(img, [], Body(img, fs)) }

  /** As many as the label table holds. */
  function First(ts: seq<u16>): (l: seq<u16>)
    ensures l <= ts && |l| <= MAX_LABELS
  {
    if |ts| <= MAX_LABELS then ts else ts[..MAX_LABELS]
  }

  lemma FirstOfAdd(ts: seq<u16>, a: u16)
    ensures AddLabel(First(ts), a) == First(AddTarget(ts, a))
  {
    if a !in ts && |ts| >= MAX_LABELS {
      assert (ts + [a])[..MAX_LABELS] == ts[..MAX_LABELS];
    }
  }

  /** The label table holds the first MAX_LABELS distinct targets. */
  lemma {:induction false} LabelsAreFirst(img: Image, ts: seq<u16>, vs: seq<Visit>)
    ensures LabelsFrom(img, First(ts), vs) == First(TargetsFrom(img, ts, vs))
    decreases |vs|
  {
    hide AddLabel, AddTarget, First, LabelOf;
    if vs != [] {
      match LabelOf(img, vs[0].insn)
      case Some(a) =>
        FirstOfAdd(ts, a);
        LabelsAreFirst(img, AddTarget(ts, a), vs[1..]);
      case None => LabelsAreFirst(img, ts, vs[1..]);
    }
  }

  /** The targets are those of the visits, and only those. */
  lemma {:induction false} TargetsExactly(img: Image, ts: seq<u16>, vs: seq<Visit>, a: u16)
    ensures a in TargetsFrom(img, ts, vs) <==> a in ts || exists v :: v in vs && LabelOf(img, v.insn) == Some(a)
    decreases |vs|
  {
    hide LabelOf;
    if vs != [] {
      var v, rest := vs[0], vs[1..];
      var t := LabelOf(img, v.insn);
      TargetsExactly(img, match t case Some(b) => AddTarget(ts, b) case None => ts, rest, a);
      assert forall u :: u in vs <==> u == v || u in rest;
    }
  }

  lemma RecordedLabels(img: Image, fn: Func)
    requires Recorded(img, fn)
    ensures forall a :: a in fn.labels <==> a in First(Targets(img, fn.start))
  {
    hide SweepFrom, First;
    var ls := LabelsFrom(img, [], Body(img, fn.start));
    assert First([]) == [] by { NoTargets(); }
    LabelsAreFirst(img, [], Body(img, fn.start));
    Sorting.SortFacts(ls);
    forall a
      ensures a in fn.labels <==> a in ls
    {
      assert a in fn.labels <==> a in multiset(fn.labels);
      assert a in ls <==> a in multiset(ls);
    }
  }

  lemma NoTargets()
    ensures First([]) == []
  {
  }

  // ---- gotos ----

  /** The label a statement may jump to. */
  function GotoOf(s: Stmt): Option<u16> {
    match s
    case If(_, Goto(l, _)) => Some(l)
    case Leave(Goto(l, _)) => Some(l)
    case _ => None
  }

  /** Line `j` carries the label of address `a`. */
  predicate LabelAt(lines: seq<Line>, j: int, a: u16) {
    0 <= j < |lines| && lines[j].labelled && lines[j].addr == a
  }

  /** Every goto of the function names a label that is emitted exactly once. */
  ghost predicate GotosClosed(lines: seq<Line>) {
    forall k, l :: 0 <= k < |lines| && GotoOf(lines[k].stmt) == Some(l) ==>
      exists j :: LabelAt(lines, j, l) && forall i :: LabelAt(lines, i, l) ==> i == j
  }

  /** A branch, or a jump whose target is in the instruction. */
  predicate Direct(r: Insn) { r.flow.Branch? || (r.flow.Jump? && r.mode != IND && r.mode != IAX) }

  /** A goto is a branch or direct jump to a boundary of the function. */
  lemma GotoIsTarget(r: Insn, sc: Scope, l: u16)
    requires WellFormed(r)
    ensures GotoOf(EmitInsn(r, sc)) == Some(l) <==> Direct(r) && r.target == l && l in sc.boundaries
  {
  }

  /** Pcs of a body are distinct. */
  lemma LinesDistinct(img: Image, fn: Func, starts: set<u16>)
    ensures var lines := Lines(img, fn, starts);
            forall j, k :: 0 <= j < k < |lines| ==> lines[j].addr < lines[k].addr
  {
    hide Emitted;
    var vs, lines := Emitted(img, fn.start), Lines(img, fn, starts);
    BodyIsConsecutive(img, fn.start);
    forall j, k | 0 <= j < k < |lines|
      ensures lines[j].addr < lines[k].addr
    {
      PcsIncrease(img, fn.start, vs, j, k);
      assert vs[j] in vs;
    }
  }

  lemma BoundaryIsLine(img: Image, fn: Func, starts: set<u16>, l: u16)
    requires l in Boundaries(Emitted(img, fn.start))
    ensures InImage(img, l)
    ensures var lines := Lines(img, fn, starts);
            exists j :: 0 <= j < |lines| && lines[j].addr == l && lines[j].labelled == (l in fn.labels)
  {
    hide Emitted;
    BodyIsConsecutive(img, fn.start);
    var vs := Emitted(img, fn.start);
    var v :| v in vs && v.insn.pc == l;
    var j :| 0 <= j < |vs| && vs[j] == v;
    assert Lines(img, fn, starts)[j].addr == l;
  }

  /** The label table has the target of `r`, if `r` jumps inside the emitted body. */
  ghost predicate Labelled(img: Image, fs: u16, r: Insn) {
    Direct(r) && r.target in Boundaries(Emitted(img, fs)) ==> r.target in First(Targets(img, fs))
  }

  ghost predicate AllLabelled(img: Image, fs: u16) {
    forall v :: v in Emitted(img, fs) ==> Labelled(img, fs, v.insn)
  }

  /** One line's goto: what it needs. */
  lemma GotoOfLine(img: Image, fn: Func, starts: set<u16>, k: nat, l: u16)
    requires k < |Emitted(img, fn.start)|
    ensures var r := Emitted(img, fn.start)[k].insn;
            GotoOf(Lines(img, fn, starts)[k].stmt) == Some(l) <==>
              Direct(r) && r.target == l && l in Boundaries(Emitted(img, fn.start))
  {
    hide EmitInsn, Emitted, Genuine;
    var vs := Emitted(img, fn.start);
    assert vs[k] in vs;
    EmittedIsGenuine(img, fn.start, vs[k]);
    GotoIsTarget(vs[k].insn, Scope(Boundaries(vs), starts), l);
  }

  lemma EmittedIsGenuine(img: Image, fs: u16, v: Visit)
    requires v in Emitted(img, fs)
    ensures Genuine(img, fs, v) && WellFormed(v.insn)
  {
    hide Emitted;
    BodyIsConsecutive(img, fs);
  }

  /** A boundary has exactly one line, and its label if it was recorded. */
  lemma OneLabel(img: Image, fn: Func, starts: set<u16>, l: u16)
    requires l in Boundaries(Emitted(img, fn.start)) && l in fn.labels
    ensures var lines := Lines(img, fn, starts);
            exists j :: LabelAt(lines, j, l) && forall i :: LabelAt(lines, i, l) ==> i == j
  {
    hide Lines, Emitted;
    var lines := Lines(img, fn, starts);
    LinesDistinct(img, fn, starts);
    BoundaryIsLine(img, fn, starts, l);
    var j :| 0 <= j < |lines| && lines[j].addr == l && lines[j].labelled == (l in fn.labels);
    assert LabelAt(lines, j, l);
  }

  lemma NoLabel(img: Image, fn: Func, starts: set<u16>, l: u16)
    requires l !in fn.labels
    ensures forall j :: !LabelAt(Lines(img, fn, starts), j, l)
  {
    hide Emitted, EmitInsn;
  }

  lemma OneLineEach(img: Image, fn: Func, starts: set<u16>)
    ensures |Lines(img, fn, starts)| == |Emitted(img, fn.start)|
  {
    hide Emitted, EmitInsn;
  }

  /** Every goto of an emitted function has its one label exactly when the first 256 distinct
      targets of the sweep include every target inside the body. */
  lemma GotosClosedExactly(img: Image, fn: Func, starts: set<u16>)
    requires Recorded(img, fn)
    ensures GotosClosed(Lines(img, fn, starts)) <==> AllLabelled(img, fn.start)
  {
    hide Recorded, Emitted, Lines, LabelAt, GotoOf, Direct, Boundaries, First, Targets;
    var lines, vs := Lines(img, fn, starts), Emitted(img, fn.start);
    RecordedLabels(img, fn);
    OneLineEach(img, fn, starts);
    if AllLabelled(img, fn.start) {
      forall k, l | 0 <= k < |lines| && GotoOf(lines[k].stmt) == Some(l)
        ensures exists j :: LabelAt(lines, j, l) && forall i :: LabelAt(lines, i, l) ==> i == j
      {
        GotoOfLine(img, fn, starts, k, l);
        assert vs[k] in vs && Labelled(img, fn.start, vs[k].insn);
        OneLabel(img, fn, starts, l);
      }
    } else {
      var v :| v in vs && !Labelled(img, fn.start, v.insn);
      var k :| 0 <= k < |vs| && vs[k] == v;
      GotoOfLine(img, fn, starts, k, v.insn.target);
      NoLabel(img, fn, starts, v.insn.target);
      assert GotoOf(lines[k].stmt) == Some(v.insn.target);
    }
  }

  /** The start is 0 and the function jumps there, but never branches there: discovery takes the
      target 0 of a jump for "none". */
  ghost predicate LosesZero(img: Image, fs: u16) {
    && fs == 0 && (exists v :: v in Emitted(img, fs) && v.insn.flow.Jump? && Direct(v.insn) && v.insn.target == 0)
    && !exists v :: v in Body(img, fs) && v.insn.flow.Branch? && v.insn.target == 0
  }

  lemma BoundaryAtZero(img: Image, fs: u16)
    requires Emitted(img, fs) != []
    ensures fs in Boundaries(Emitted(img, fs))
    ensures forall b :: b in Boundaries(Emitted(img, fs)) ==> fs <= b && InImage(img, b)
  {
    hide Emitted;
    BodyIsConsecutive(img, fs);
    var vs := Emitted(img, fs);
    assert vs[0] in vs;
    forall b | b in Boundaries(vs)
      ensures fs <= b && InImage(img, b)
    {
      var k :| 0 <= k < |vs| && vs[k].insn.pc == b;
      assert vs[k] in vs;
      if k > 0 { PcsIncrease(img, fs, vs, 0, k); }
    }
  }

  /** As long as the distinct targets fit the table, a goto lacks its label only that way. */
  lemma OnlyZeroIsLost(img: Image, fs: u16)
    requires |Targets(img, fs)| <= MAX_LABELS
    ensures AllLabelled(img, fs) <==> !LosesZero(img, fs)
  {
    hide SweepFrom, TargetsFrom, Unwrapped;
    var vs := Emitted(img, fs);
    if vs != [] { BoundaryAtZero(img, fs); }
    TargetsExactly(img, [], Body(img, fs), 0);
    if LosesZero(img, fs) {
      var v :| v in vs && v.insn.flow.Jump? && Direct(v.insn) && v.insn.target == 0;
      assert !Labelled(img, fs, v.insn);
    } else {
      forall v | v in vs
        ensures Labelled(img, fs, v.insn)
      {
        TargetsExactly(img, [], Body(img, fs), v.insn.target);
      }
    }
  }

  /** A function that does not start at address 0 loses no label. */
  lemma NonzeroStartIsClosed(img: Image, fn: Func, starts: set<u16>)
    requires Recorded(img, fn) && |Targets(img, fn.start)| <= MAX_LABELS && fn.start != 0
    ensures GotosClosed(Lines(img, fn, starts))
  {
    hide Emitted, AllLabelled, GotosClosed, Lines, Targets;
    OnlyZeroIsLost(img, fn.start);
    GotosClosedExactly(img, fn, starts);
  }

  /** `JMP $0000`, alone at address 0. */
  const JUMP_TO_ZERO: seq<u8> := [0x4C, 0x00, 0x00]

  lemma JumpToZeroDecodes()
    ensures var r := DecodeRom(0, JUMP_TO_ZERO, 0);
            r.mn == JMP && r.mode == ABS && r.target == 0 && r.len == 3 && r.flow == Flow.Jump
  {
  }

  /** A sweep that starts at a jump is that jump, unless it jumps to what follows it or into itself. */
  lemma LoneJump(img: Image, fs: u16, r: Insn)
    requires Decodes(img, fs, fs) && r == InsnAt(img, fs) && r.flow.Jump? && !Wraps(r)
    requires r.target <= fs || r.target > Following(r)
    ensures Body(img, fs) == [Visit(r, Following(r))]
  {
    assert Following(r) > fs && Stops(r, Pending(img, r, fs, Following(r)));
  }

  lemma JumpImage(img: Image, fs: u16)
    requires img == Load(0, JUMP_TO_ZERO) && fs == 0
    ensures InImage(img, fs) && InsnAt(img, fs) == DecodeRom(0, JUMP_TO_ZERO, 0) && Avail(img, fs) == 3
  {
    hide DecodeRom;
  }

  /** Its sweep is that one jump. */
  lemma JumpToZeroBody(img: Image, fs: u16) returns (v: Visit)
    requires img == Load(0, JUMP_TO_ZERO) && fs == 0
    ensures v.insn.flow == Flow.Jump && Direct(v.insn) && v.insn.target == 0 && !Wraps(v.insn)
    ensures Body(img, fs) == [v]
  {
    hide Load, DecodeRom, SweepFrom;
    JumpToZeroDecodes();
    JumpImage(img, fs);
    var r := InsnAt(img, fs);
    LoneJump(img, fs, r);
    v := Visit(r, Following(r));
  }

  lemma NoTargetIn(img: Image, v: Visit)
    requires v.insn.flow.Jump? && v.insn.target == 0
    ensures TargetsFrom(img, [], [v]) == []
  {
    assert [v][1..] == [];
  }

  /** The function at 0 of that image jumps to a label that is not emitted. */
  lemma JumpToZeroIsOpen(fn: Func, starts: set<u16>)
    requires fn == Analyze.Sorted(FuncAt(Load(0, JUMP_TO_ZERO), 0))
    ensures LosesZero(Load(0, JUMP_TO_ZERO), 0) && !GotosClosed(Lines(Load(0, JUMP_TO_ZERO), fn, starts))
  {
    hide Load, SweepFrom, DecodeRom, Lines, GotosClosed, AllLabelled, First, Boundaries, Body, TargetsFrom, Wraps;
    var img := Load(0, JUMP_TO_ZERO);
    var v := JumpToZeroBody(img, 0);
    UnwrappedCons(v, []);
    assert Emitted(img, 0) == [v] && v in Emitted(img, 0);
    NoTargetIn(img, v);
    OnlyZeroIsLost(img, 0);
    GotosClosedExactly(img, fn, starts);
  }

  // ---- loops let time advance ----

  /** Control passes from line `k` to line `j` with outcome `c`; a call comes back to the line after. */
  predicate Passes(lines: seq<Line>, k: nat, c: Ctl, j: nat) {
    && k < |lines| && j < |lines|
    && match c
       case Fall | Enter(_) | Boot(_) => j == k + 1
       case Jump(l, _) => lines[j].addr == l
       case _ => false
  }

  /** A run inside one body, its calls included: the lines visited and the state in which each is
      executed, the one a callee leaves being any. */
  predicate Visits(lines: seq<Line>, path: seq<nat>, states: seq<State>) {
    && |path| == |states|
    && (forall i :: 0 <= i < |path| ==> path[i] < |lines|)
    && forall i :: 0 <= i < |path| - 1 ==>
         Passes(lines, path[i], After(lines[path[i]].stmt, states[i]), path[i + 1])
  }

  predicate Ticks(lines: seq<Line>, k: nat, st: State) {
    k < |lines| && match After(lines[k].stmt, st) case Jump(_, ticked) => ticked case _ => false
  }

  /** Without a tick, control moves to a later line. */
  lemma QuietMovesForward(img: Image, fn: Func, starts: set<u16>, k: nat, st: State, j: nat)
    requires var lines := Lines(img, fn, starts);
             k < |lines| && Passes(lines, k, After(lines[k].stmt, st), j) && !Ticks(lines, k, st)
    ensures k < j
  {
    var vs, lines := Emitted(img, fn.start), Lines(img, fn, starts);
    LinesDistinct(img, fn, starts);
    JumpIsForward(vs[k].insn, Scope(Boundaries(vs), starts), st);
  }

  lemma JumpIsForward(r: Insn, sc: Scope, st: State)
    ensures match After(EmitInsn(r, sc), st) case Jump(l, ticked) => ticked || l > r.pc case _ => true
  {
  }

  /** Any run inside one body, whatever it calls, that visits more lines than the body has
      executes a tick. */
  lemma LongRunsTick(img: Image, fn: Func, starts: set<u16>, path: seq<nat>, states: seq<State>)
    requires Visits(Lines(img, fn, starts), path, states)
    requires |path| > |Lines(img, fn, starts)|
    ensures exists i :: 0 <= i < |path| - 1 && Ticks(Lines(img, fn, starts), path[i], states[i])
  {
    var lines := Lines(img, fn, starts);
    assert path[|path| - 1] < |lines|;
    if forall i :: 0 <= i < |path| - 1 ==> !Ticks(lines, path[i], states[i]) {
      QuietRunClimbs(img, fn, starts, path, states, |path| - 1);
    }
  }

  lemma {:induction false} QuietRunClimbs(img: Image, fn: Func, starts: set<u16>, path: seq<nat>, states: seq<State>,
                                          n: nat)
    requires Visits(Lines(img, fn, starts), path, states) && n < |path|
    requires forall i :: 0 <= i < |path| - 1 ==> !Ticks(Lines(img, fn, starts), path[i], states[i])
    ensures path[n] >= n
  {
    hide Emitted, Lines, Passes, Ticks, After;
    if n > 0 {
      var i := n - 1;
      QuietRunClimbs(img, fn, starts, path, states, i);
      assert !Ticks(Lines(img, fn, starts), path[i], states[i]);
      QuietMovesForward(img, fn, starts, path[i], states[i], path[i + 1]);
    }
  }

  // ---- the emitter's two loops ----

  /** Where the `k`-th instruction of a body starts; its end, past the last one. */
  function PcAt(fs: u16, vs: seq<Visit>, k: nat): u16
    requires k <= |vs|
  {
    if k < |vs| then vs[k].insn.pc else EndFrom(fs, vs)
  }

  lemma NextPcAt(img: Image, fs: u16, k: nat)
    requires k < |Emitted(img, fs)|
    ensures var vs := Emitted(img, fs);
            && InImage(img, vs[k].insn.pc) && InsnAt(img, vs[k].insn.pc) == vs[k].insn
            && vs[k].insn.len <= Avail(img, vs[k].insn.pc)
            && PcAt(fs, vs, k + 1) == vs[k].insn.pc + vs[k].insn.len <= EndFrom(fs, vs)
            && fs <= vs[k].insn.pc
  {
    hide Emitted, Consecutive;
    BodyIsConsecutive(img, fs);
    NextIn(img, fs, Emitted(img, fs), k);
  }

  lemma NextIn(img: Image, fs: u16, vs: seq<Visit>, k: nat)
    requires Consecutive(img, fs, vs) && k < |vs|
    ensures InImage(img, vs[k].insn.pc) && InsnAt(img, vs[k].insn.pc) == vs[k].insn
    ensures vs[k].insn.len <= Avail(img, vs[k].insn.pc)
    ensures PcAt(fs, vs, k + 1) == vs[k].insn.pc + vs[k].insn.len <= EndFrom(fs, vs)
    ensures fs <= vs[k].insn.pc
  {
    hide Word, WellFormed;
    assert vs[k] in vs && vs[0] in vs && vs[|vs| - 1] in vs;
    if k < |vs| - 1 {
      PcsIncrease(img, fs, vs, k, |vs| - 1);
    }
    if 0 < k {
      PcsIncrease(img, fs, vs, 0, k);
    }
  }

  lemma FirstPc(img: Image, fs: u16)
    ensures PcAt(fs, Emitted(img, fs), 0) == fs
  {
    hide Emitted;
    BodyIsConsecutive(img, fs);
  }

  method ClearMarks(start: u16, end: u16, boundary: array<bool>)
    requires boundary.Length == 0x1_0000
    modifies boundary
    ensures forall a: u16 :: boundary[a] == (old(boundary[a]) && !(start <= a < end))
  {
    var a: int := start;
    while a < end
      invariant start <= a
      invariant forall b: u16 :: boundary[b] == (old(boundary[b]) && !(start <= b < a && b < end))
    {
      boundary[a] := false;
      a := a + 1;
    }
  }

  /** Marks the instruction boundaries of `fn` between its start and its end. */
  method MarkBoundaries(img: Image, fn: Func, boundary: array<bool>)
    requires Recorded(img, fn) && boundary.Length == 0x1_0000
    modifies boundary
    ensures forall a: u16 :: boundary[a] <==>
              if fn.start <= a < fn.end then a in Boundaries(Emitted(img, fn.start)) else old(boundary[a])
  {
    hide Emitted, WellFormed, Consecutive;
    ghost var fs, vs := fn.start, Emitted(img, fn.start);
    ClearMarks(fn.start, fn.end, boundary);
    ghost var cleared := boundary[..];
    var a := fn.start;
    ghost var k := 0;
    FirstPc(img, fs);
    BodyIsConsecutive(img, fs);
    while a < fn.end
      invariant k <= |vs| && a == PcAt(fs, vs, k)
      invariant forall b: u16 :: boundary[b] <==> cleared[b] || b in Boundaries(vs[..k])
      decreases |vs| - k
    {
      NextPcAt(img, fs, k);
      BoundariesSnoc(vs, k);
      var r := InsnAt(img, a);
      boundary[a] := true;
      k := k + 1;
      if a - fn.start + r.len > fn.end - fn.start { break; }
      a := Word(a + r.len);
    }
    if k < |vs| {
      NextPcAt(img, fs, k);
    }
    assert vs[..k] == vs;
    BoundariesInRange(img, fn);
  }

  lemma BoundariesSnoc(vs: seq<Visit>, k: nat)
    requires k < |vs|
    ensures Boundaries(vs[..k + 1]) == Boundaries(vs[..k]) + {vs[k].insn.pc}
  {
    assert vs[..k + 1] == vs[..k] + [vs[k]];
  }

  lemma BoundariesInRange(img: Image, fn: Func)
    requires Recorded(img, fn)
    ensures forall a :: a in Boundaries(Emitted(img, fn.start)) ==> fn.start <= a < fn.end
  {
    hide Emitted;
    BodyIsConsecutive(img, fn.start);
    var vs := Emitted(img, fn.start);
    forall a | a in Boundaries(vs)
      ensures fn.start <= a < fn.end
    {
      var k :| 0 <= k < |vs| && vs[k].insn.pc == a;
      NextPcAt(img, fn.start, k);
    }
  }

  /** `emit_functions`, one function: its lines, in terms of the boundary bitmap. */
  method EmitFunction(img: Image, fn: Func, table: seq<Func>, boundary: array<bool>) returns (lines: seq<Line>)
    requires Recorded(img, fn) && boundary.Length == 0x1_0000
    modifies boundary
    ensures lines == Lines(img, fn, Analyze.Starts(table))
  {
    hide Emitted, WellFormed, Consecutive, EmitInsn;
    ghost var fs, vs := fn.start, Emitted(img, fn.start);
    MarkBoundaries(img, fn, boundary);
    var sc := Scope(InRange(fn, boundary[..]), Analyze.Starts(table));
    BoundariesInRange(img, fn);
    assert sc.boundaries == Boundaries(vs);
    lines := [];
    var addr: u16 := fn.start;
    FirstPc(img, fs);
    BodyIsConsecutive(img, fs);
    while addr < fn.end
      invariant |lines| <= |vs| && addr == PcAt(fs, vs, |lines|)
      invariant lines == Lines(img, fn, sc.starts)[..|lines|]
      decreases |vs| - |lines|
    {
      NextPcAt(img, fs, |lines|);
      var r := InsnAt(img, addr);
      if r.len > Avail(img, addr) { break; }
      lines := lines + [Line(addr, addr in fn.labels, EmitInsn(r, sc))];
      addr := Word(addr + r.len);
    }
    if |lines| < |vs| {
      NextPcAt(img, fs, |lines|);
    }
  }

  /** `in_func_range`: the marked addresses of the function. */
  function InRange(fn: Func, marks: seq<bool>): set<u16>
    requires |marks| == 0x1_0000
  {
    set a: u16 | fn.start <= a < fn.end && marks[a]
  }
}
