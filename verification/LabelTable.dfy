/** The label table of a function overflows: a family of functions whose gotos all have their label
    exactly up to the 256th target. */
module LabelTable {
  import opened Bytes
  import opened Decode
  import opened Sweep
  import opened Translate
  import Analyze

  const BNE_CODE: u8 := 0xD0
  const RTS_CODE: u8 := 0x60

  /** `n` branches, each to the instruction after it, and a return. */
  function BranchRow(n: nat): (s: seq<u8>)
    ensures |s| == 2 * n + 1
  {
    if n == 0 then [RTS_CODE] else [BNE_CODE, 0] + BranchRow(n - 1)
  }

  lemma {:induction false} RowBytes(n: nat, j: nat)
    requires j <= n
    ensures BranchRow(n)[2 * j] == if j < n then BNE_CODE else RTS_CODE
    ensures j < n ==> BranchRow(n)[2 * j + 1] == 0
  {
    if j > 0 { RowBytes(n - 1, j - 1); }
  }

  lemma BranchDecodes(b2: u8, pc: u16)
    ensures var r := DecodeAt(BNE_CODE, 0, b2, pc);
            r.flow.Branch? && r.len == 2 && r.target == Word(pc + 2) && r.mn.FlagBranch? && r.mode == REL
  {
  }

  lemma ReturnDecodes(b1: u8, b2: u8, pc: u16)
    ensures var r := DecodeAt(RTS_CODE, b1, b2, pc); r.flow.Ret? && r.len == 1
  {
  }

  /** The row lies in memory and within the reach of one sweep. */
  predicate Fits(base: u16, n: nat) { base + 2 * n + 1 < 0x1_0000 && 2 * n < 0x1000 }

  function RowImage(base: u16, n: nat): Image { Load(base, BranchRow(n)) }

  /** The instruction at place `j` of the row. */
  function RowInsn(base: u16, n: nat, j: nat): Insn
    requires Fits(base, n) && j <= n
  {
    var rom := BranchRow(n);
    DecodeRom(base, rom, 2 * j)
  }

  lemma InsnOfRow(base: u16, n: nat, j: nat)
    requires Fits(base, n) && j <= n
    ensures var img, a := RowImage(base, n), base + 2 * j;
            && InImage(img, a) && InsnAt(img, a) == RowInsn(base, n, j) && Avail(img, a) == 2 * (n - j) + 1
    ensures var r := RowInsn(base, n, j);
            && r.pc == base + 2 * j
            && if j < n then r.flow.Branch? && r.len == 2 && r.target == r.pc + 2 && r.mn.FlagBranch? && r.mode == REL
               else r.flow.Ret? && r.len == 1
  {
    hide DecodeAt, BranchRow, WellFormed;
    RowBytes(n, j);
    var rom := BranchRow(n);
    if j < n {
      BranchDecodes(if 2 * j + 2 < |rom| then rom[2 * j + 2] else 0, base + 2 * j);
    } else {
      ReturnDecodes(0, 0, base + 2 * j);
    }
  }

  /** The targets of the first `j` branches. */
  function RowTargets(base: u16, j: nat): seq<u16>
    requires base + 2 * j < 0x1_0000
  {
    seq(j, k requires 0 <= k < j => base + 2 * k + 2)
  }

  /** What is left of the sweep at place `j`. */
  function Rest(base: u16, n: nat, j: nat): seq<Visit>
    requires Fits(base, n) && j <= n
  {
    var a: u16 := base + 2 * j;
    SweepFrom(RowImage(base, n), base, a, a, a)
  }

  /** The sweep over a branch to the next instruction. */
  lemma OverBranch(img: Image, fs: u16, a: u16, r: Insn)
    requires Decodes(img, fs, a) && r == InsnAt(img, a) && a + 2 < 0x1_0000 && InImage(img, a + 2)
    requires r.flow.Branch? && r.len == 2 && r.target == a + 2
    ensures SweepFrom(img, fs, a, a, a) == [Visit(r, a + 2)] + SweepFrom(img, fs, a + 2, a + 2, a + 2)
  {
    hide InImage, Decodes;
  }

  /** The sweep at the return that ends it. */
  lemma AtReturn(img: Image, fs: u16, a: u16, r: Insn)
    requires Decodes(img, fs, a) && r == InsnAt(img, a) && a + 1 < 0x1_0000 && r.flow.Ret? && r.len == 1
    ensures SweepFrom(img, fs, a, a, a) == [Visit(r, a + 1)]
  {
    hide InImage, Decodes;
  }

  lemma RestSteps(base: u16, n: nat, j: nat)
    requires Fits(base, n) && j <= n
    ensures var v := Visit(RowInsn(base, n, j), base + 2 * j + if j < n then 2 else 1);
            Rest(base, n, j) == [v] + if j < n then Rest(base, n, j + 1) else []
  {
    hide RowImage, DecodeRom, InImage, RowInsn, SweepFrom;
    InsnOfRow(base, n, j);
    if j < n {
      InsnOfRow(base, n, j + 1);
      OverBranch(RowImage(base, n), base, base + 2 * j, RowInsn(base, n, j));
    } else {
      AtReturn(RowImage(base, n), base, base + 2 * j, RowInsn(base, n, j));
    }
  }

  /** The sweep is the row. */
  lemma {:induction false} RestIsRow(base: u16, n: nat, j: nat)
    requires Fits(base, n) && j <= n
    ensures |Rest(base, n, j)| == n - j + 1
    ensures forall k :: 0 <= k <= n - j ==> Rest(base, n, j)[k].insn == RowInsn(base, n, j + k)
    decreases n - j
  {
    hide Rest, RowInsn;
    RestSteps(base, n, j);
    if j < n {
      RestIsRow(base, n, j + 1);
      assert forall k :: 1 <= k <= n - j ==> Rest(base, n, j)[k] == Rest(base, n, j + 1)[k - 1];
    }
  }

  lemma OneTarget(base: u16, j: nat)
    requires base + 2 * j + 2 < 0x1_0000
    ensures AddTarget(RowTargets(base, j), base + 2 * j + 2) == RowTargets(base, j + 1)
  {
  }

  lemma TakesTarget(img: Image, ts: seq<u16>, vs: seq<Visit>, a: u16)
    requires vs != [] && vs[0].insn.flow.Branch? && vs[0].insn.target == a && InImage(img, a)
    ensures TargetsFrom(img, ts, vs) == TargetsFrom(img, AddTarget(ts, a), vs[1..])
  {
  }

  lemma TakesNone(img: Image, ts: seq<u16>, vs: seq<Visit>)
    requires |vs| == 1 && vs[0].insn.flow.Ret?
    ensures TargetsFrom(img, ts, vs) == ts
  {
    assert vs[1..] == [];
  }

  lemma {:induction false} TargetsOfRest(base: u16, n: nat, j: nat)
    requires Fits(base, n) && j <= n
    ensures TargetsFrom(RowImage(base, n), RowTargets(base, j), Rest(base, n, j)) == RowTargets(base, n)
    decreases n - j
  {
    hide Rest, RowInsn, RowImage, InImage, RowTargets, TargetsFrom;
    var img, vs := RowImage(base, n), Rest(base, n, j);
    RestSteps(base, n, j);
    InsnOfRow(base, n, j);
    if j < n {
      InsnOfRow(base, n, j + 1);
      assert vs[1..] == Rest(base, n, j + 1);
      OneTarget(base, j);
      TakesTarget(img, RowTargets(base, j), vs, base + 2 * j + 2);
      TargetsOfRest(base, n, j + 1);
    } else {
      assert vs[1..] == [];
      TakesNone(img, RowTargets(base, j), vs);
    }
  }

  lemma {:induction false} NoneWraps(vs: seq<Visit>)
    requires forall v :: v in vs ==> !Wraps(v.insn)
    ensures Unwrapped(vs) == vs
    decreases |vs|
  {
    if vs != [] { NoneWraps(vs[1..]); }
  }

  lemma RowIsEmitted(base: u16, n: nat)
    requires Fits(base, n)
    ensures var vs := Emitted(RowImage(base, n), base);
            |vs| == n + 1 && forall k :: 0 <= k <= n ==> vs[k].insn == RowInsn(base, n, k)
    ensures Targets(RowImage(base, n), base) == RowTargets(base, n)
  {
    hide RowInsn, RowImage, Wraps;
    RestIsRow(base, n, 0);
    TargetsOfRest(base, n, 0);
    assert RowTargets(base, 0) == [];
    var vs := Body(RowImage(base, n), base);
    forall v | v in vs
      ensures !Wraps(v.insn)
    {
      var k :| 0 <= k < |vs| && vs[k] == v;
      RowDoesNotWrap(base, n, k);
    }
    NoneWraps(vs);
  }

  lemma RowDoesNotWrap(base: u16, n: nat, k: nat)
    requires Fits(base, n) && k <= n
    ensures !Wraps(RowInsn(base, n, k))
  {
    hide RowInsn;
    InsnOfRow(base, n, k);
  }

  /** The target of the branch at place `k`, and whether the table has it. */
  lemma RowLabel(base: u16, n: nat, k: nat)
    requires Fits(base, n) && k < n
    ensures var img, r := RowImage(base, n), RowInsn(base, n, k);
            && Direct(r) && r.target in Boundaries(Emitted(img, base))
            && (r.target in First(Targets(img, base)) <==> k < MAX_LABELS)
  {
    hide RowInsn, RowImage, Emitted, Targets;
    RowIsEmitted(base, n);
    InsnOfRow(base, n, k);
    InsnOfRow(base, n, k + 1);
    var vs, ts := Emitted(RowImage(base, n), base), RowTargets(base, n);
    assert vs[k + 1] in vs;
    assert ts[k] == base + 2 * k + 2;
    if k < MAX_LABELS { assert First(ts)[k] == ts[k]; }
  }

  /** The function of `n` branches has all its labels exactly when `n` is at most 256: the 257th
      target is a boundary of the body, but the table is full. */
  lemma RowIsClosedExactly(base: u16, n: nat, fn: Func, starts: set<u16>)
    requires Fits(base, n) && fn == Analyze.Sorted(FuncAt(RowImage(base, n), base))
    ensures GotosClosed(Lines(RowImage(base, n), fn, starts)) <==> n <= 256
  {
    hide RowInsn, RowImage, Emitted, Targets, Lines, GotosClosed, First, Direct, Boundaries;
    var img := RowImage(base, n);
    var vs := Emitted(img, base);
    RowIsEmitted(base, n);
    GotosClosedExactly(img, fn, starts);
    if n > MAX_LABELS {
      RowLabel(base, n, MAX_LABELS);
      assert vs[MAX_LABELS] in vs && !Labelled(img, base, vs[MAX_LABELS].insn);
    } else {
      forall v | v in vs
        ensures Labelled(img, base, v.insn)
      {
        var k :| 0 <= k < |vs| && vs[k] == v;
        if k < n { RowLabel(base, n, k); } else { ReturnIsNoJump(base, n); }
      }
    }
  }

  lemma ReturnIsNoJump(base: u16, n: nat)
    requires Fits(base, n)
    ensures !Direct(RowInsn(base, n, n))
  {
    hide RowInsn;
    InsnOfRow(base, n, n);
  }
}
