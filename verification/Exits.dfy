/** How discovery and the emitter fit together: which transfers of the emitted program leave for code
    that was not recompiled. */
module Exits {
  import opened Bytes
  import opened Cpu
  import opened Decode
  import opened Sweep
  import opened Target
  import opened Emit
  import opened Translate
  import Analyze

  /** A finished discovery with room left in its table, and the record of one function. */
  ghost predicate Discovered(img: Image, seeds: seq<u16>, table: seq<Func>, fn: Func) {
    Analyze.Answers(img, seeds, table) && |table| < MAX_FUNCS && fn in table
  }

  /** The instruction of line `k`. */
  function InsnOf(img: Image, fn: Func, k: nat): Insn
    requires k < |Emitted(img, fn.start)|
  {
    Emitted(img, fn.start)[k].insn
  }

  lemma LineIs(img: Image, fn: Func, starts: set<u16>, k: nat)
    requires k < |Emitted(img, fn.start)|
    ensures k < |Lines(img, fn, starts)| && WellFormed(InsnOf(img, fn, k))
    ensures Lines(img, fn, starts)[k].stmt
            == EmitInsn(InsnOf(img, fn, k), Scope(Boundaries(Emitted(img, fn.start)), starts))
    ensures Emitted(img, fn.start)[k] in Body(img, fn.start)
  {
    hide Emitted, EmitInsn;
    EmittedIsGenuine(img, fn.start, Emitted(img, fn.start)[k]);
    InBody(img, fn.start, k);
  }

  lemma InBody(img: Image, fs: u16, k: nat)
    requires k < |Emitted(img, fs)|
    ensures Emitted(img, fs)[k] in Body(img, fs)
  {
    hide SweepFrom, Unwrapped;
    assert Emitted(img, fs)[k] in Emitted(img, fs);
  }

  /** What a swept instruction leads to was discovered. */
  lemma EdgeIsStart(img: Image, seeds: seq<u16>, table: seq<Func>, fn: Func, v: Visit, a: u16)
    requires Discovered(img, seeds, table, fn) && v in Body(img, fn.start) && a in EdgesOf(img, v)
    ensures a in Analyze.Starts(table)
  {
    hide Body, EdgesOf, FuncAt, Analyze.Minimal, Analyze.SeedsIn, Analyze.Common;
    assert fn.start in Analyze.Starts(table);
    assert Analyze.EdgesIn(img, fn.start, Analyze.Common(img, seeds));
  }

  /** Discovered starts lie in the image. */
  lemma StartsInImage(img: Image, seeds: seq<u16>, table: seq<Func>, fn: Func)
    requires Discovered(img, seeds, table, fn)
    ensures forall a :: a in Analyze.Starts(table) ==> InImage(img, a)
  {
    hide FuncAt, Analyze.Common;
    var inside := set a: u16 | 0 <= a < 0x1_0000 && InImage(img, a);
    forall f | f in inside
      ensures Analyze.EdgesIn(img, f, inside)
    {
      EdgesStay(img, f, inside);
    }
    assert Analyze.Closed(img, seeds, inside);
    assert Analyze.Common(img, seeds) <= inside;
  }

  lemma EdgesStay(img: Image, f: u16, inside: set<u16>)
    requires forall a: u16 :: InImage(img, a) ==> a in inside
    ensures Analyze.EdgesIn(img, f, inside)
  {
    hide Body, EdgesOf;
    forall v | v in Body(img, f)
      ensures forall a :: a in EdgesOf(img, v) ==> a in inside
    {
      EdgesInImage(img, v);
    }
  }

  lemma CallStatement(r: Insn, sc: Scope, to: u16)
    ensures EmitInsn(r, sc) == BootCall(to) <==> r.mn.JSR? && r.target == to && to !in sc.starts
    ensures EmitInsn(r, sc) == CallFunc(to) <==> r.mn.JSR? && r.target == to && to in sc.starts
  {
  }

  lemma CallEdge(img: Image, v: Visit)
    requires WellFormed(v.insn) && v.insn.mn.JSR? && InImage(img, v.insn.target)
    ensures v.insn.target in EdgesOf(img, v)
  {
  }

  /** A subroutine call goes to a hook exactly when its target is outside the image, and to a
      recompiled function exactly when it is inside. */
  lemma BootCallsExactly(img: Image, seeds: seq<u16>, table: seq<Func>, fn: Func, k: nat, to: u16)
    requires Discovered(img, seeds, table, fn) && k < |Emitted(img, fn.start)|
    ensures k < |Lines(img, fn, Analyze.Starts(table))|
    ensures var s, r := Lines(img, fn, Analyze.Starts(table))[k].stmt, InsnOf(img, fn, k);
            && (s == BootCall(to) <==> r.mn.JSR? && r.target == to && !InImage(img, to))
            && (s == CallFunc(to) <==> r.mn.JSR? && r.target == to && InImage(img, to))
  {
    hide Discovered, Emitted, Lines, EmitInsn, EdgesOf, WellFormed, InImage, Body;
    var starts, v := Analyze.Starts(table), Emitted(img, fn.start)[k];
    LineIs(img, fn, starts, k);
    CallStatement(v.insn, Scope(Boundaries(Emitted(img, fn.start)), starts), to);
    StartsInImage(img, seeds, table, fn);
    if v.insn.mn.JSR? && InImage(img, v.insn.target) {
      CallEdge(img, v);
      EdgeIsStart(img, seeds, table, fn, v, v.insn.target);
    }
  }

  /** The statement may hand `to` to `lynx_ext_jmp`. */
  predicate JumpsOut(s: Stmt, to: u16) {
    match s
    case If(_, t) => t == ExtJmp(to)
    case Leave(t) => t == ExtJmp(to)
    case _ => false
  }

  lemma JumpStatement(r: Insn, sc: Scope, to: u16)
    requires WellFormed(r)
    ensures JumpsOut(EmitInsn(r, sc), to) <==>
            Direct(r) && r.target == to && to !in sc.boundaries && to !in sc.starts
  {
  }

  /** The transfer goes back into what is already swept, to "none", or is a branch: discovery does
      not make its target a function. */
  predicate NotFollowed(v: Visit) { v.insn.flow.Branch? || v.insn.target <= v.end || v.insn.target == 0 }

  lemma JumpEdge(img: Image, v: Visit)
    requires WellFormed(v.insn) && Direct(v.insn) && InImage(img, v.insn.target) && !NotFollowed(v)
    ensures v.insn.target in EdgesOf(img, v)
  {
  }

  /** A branch or direct jump goes to a hook exactly when its target is no boundary of the body and no
      discovered start; and if the target is in the image, it is one that discovery does not follow:
      of a branch, of a jump back into what was swept or below it, or address 0. */
  lemma ExtJumpsExactly(img: Image, seeds: seq<u16>, table: seq<Func>, fn: Func, k: nat, to: u16)
    requires Discovered(img, seeds, table, fn) && k < |Emitted(img, fn.start)|
    ensures k < |Lines(img, fn, Analyze.Starts(table))|
    ensures var s, v := Lines(img, fn, Analyze.Starts(table))[k].stmt, Emitted(img, fn.start)[k];
            JumpsOut(s, to) <==>
              && Direct(v.insn) && v.insn.target == to
              && (InImage(img, to) ==>
                    to !in Boundaries(Emitted(img, fn.start)) && to !in Analyze.Common(img, seeds) && NotFollowed(v))
  {
    hide Discovered, Emitted, Lines, EmitInsn, EdgesOf, WellFormed, InImage, Body;
    hide Boundaries, NotFollowed, Direct, JumpsOut;
    var starts, v := Analyze.Starts(table), Emitted(img, fn.start)[k];
    LineIs(img, fn, starts, k);
    JumpStatement(v.insn, Scope(Boundaries(Emitted(img, fn.start)), starts), to);
    StartsInImage(img, seeds, table, fn);
    StartsAreCommon(img, seeds, table, fn);
    BoundariesInImage(img, fn.start);
    if Direct(v.insn) && InImage(img, v.insn.target) && !NotFollowed(v) {
      JumpEdge(img, v);
      EdgeIsStart(img, seeds, table, fn, v, v.insn.target);
    }
  }

  lemma StartsAreCommon(img: Image, seeds: seq<u16>, table: seq<Func>, fn: Func)
    requires Discovered(img, seeds, table, fn)
    ensures Analyze.Starts(table) == Analyze.Common(img, seeds)
  {
    hide FuncAt, Analyze.Common;
  }

  lemma BoundariesInImage(img: Image, fs: u16)
    ensures forall b :: b in Boundaries(Emitted(img, fs)) ==> InImage(img, b)
  {
    hide Emitted;
    forall v | v in Emitted(img, fs)
      ensures InImage(img, v.insn.pc)
    {
      EmittedIsGenuine(img, fs, v);
    }
  }

  // ---- a jump inside the image that leaves the program ----

  const BACK_BASE: u16 := 0x0300
  const BACK_START: u16 := 0x0301

  /** A NOP, and a function behind it that jumps to the NOP. */
  const BACK_JUMP: seq<u8> := [0xEA, 0x4C, 0x00, 0x03]

  function BackImage(): Image { Load(BACK_BASE, BACK_JUMP) }

  lemma BackRow(pc: u16)
    ensures var r := DecodeAt(0x4C, 0x00, 0x03, pc);
            r.mn.JMP? && r.mode == ABS && r.target == BACK_BASE && r.len == 3 && r.flow.Jump? && r.pc == pc
  {
  }

  lemma BackInsn()
    ensures var img := BackImage();
            && InImage(img, BACK_START) && InImage(img, BACK_BASE) && Avail(img, BACK_START) == 3
            && InsnAt(img, BACK_START) == DecodeAt(0x4C, 0x00, 0x03, BACK_START)
  {
    hide DecodeAt, WellFormed;
  }

  lemma BackBody() returns (v: Visit)
    ensures Body(BackImage(), BACK_START) == [v] && Emitted(BackImage(), BACK_START) == [v]
    ensures v.insn.mn.JMP? && v.insn.mode == ABS && v.insn.flow.Jump? && v.insn.target == BACK_BASE
    ensures v.insn.pc == BACK_START && v.end == BACK_START + 3
  {
    hide SweepFrom, BackImage, DecodeAt, InImage, InsnAt;
    BackRow(BACK_START);
    BackInsn();
    var r := InsnAt(BackImage(), BACK_START);
    LoneJump(BackImage(), BACK_START, r);
    v := Visit(r, Following(r));
    UnwrappedCons(v, []);
  }

  /** That function is all that is discovered from its start. */
  lemma BackIsAlone()
    ensures Analyze.Common(BackImage(), [BACK_START]) == {BACK_START}
  {
    hide Body, BackImage, InImage;
    var v := BackBody();
    BackInsn();
    var s: set<u16> := {BACK_START};
    assert EdgesOf(BackImage(), v) == [];
    assert Analyze.EdgesIn(BackImage(), BACK_START, s);
    assert Analyze.Closed(BackImage(), [BACK_START], s);
    Analyze.LeastExists(BackImage(), [BACK_START]);
  }

  /** Its jump back below its start, inside the image, is emitted as a jump to a hook. */
  lemma JumpBelowLeaves(table: seq<Func>, fn: Func)
    requires Discovered(BackImage(), [BACK_START], table, fn)
    ensures var lines := Lines(BackImage(), fn, Analyze.Starts(table));
            && fn.start == BACK_START && |lines| == 1
            && lines[0].stmt == Leave(ExtJmp(BACK_BASE)) && InImage(BackImage(), BACK_BASE)
  {
    hide Body, BackImage, InImage, Emitted, FuncAt;
    BackIsAlone();
    StartsAreCommon(BackImage(), [BACK_START], table, fn);
    assert fn.start in Analyze.Starts(table);
    var v := BackBody();
    BackInsn();
    LineIs(BackImage(), fn, Analyze.Starts(table), 0);
    OneLineEach(BackImage(), fn, Analyze.Starts(table));
  }
}
