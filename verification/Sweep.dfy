/** What sweeping one function decodes and finds (tools/m65c02recomp/analyze.c,
    `discover_one`), as functions of the code image. */
module Sweep {
  import opened Bytes
  import opened Decode

  const MAX_FUNCS := 1024
  const MAX_LABELS := 256

  /** `rom` mapped at CPU address `base`, with the decoder's answer at each address. */
  datatype Listing = Listing(base: u16, rom: seq<u8>, code: seq<Insn>)

  predicate Listed(img: Listing) {
    && |img.code| == (if img.base + |img.rom| <= 0x1_0000 then |img.rom| else 0x1_0000 - img.base)
    && forall k :: 0 <= k < |img.code| ==>
         1 <= img.code[k].len <= 3 && img.code[k].pc == img.base + k && WellFormed(img.code[k])
  }

  type Image = img: Listing | Listed(img) witness Listing(0, [], [])

  /** The instruction at an offset of `rom`; bytes past the image read as 0. */
  function DecodeRom(base: u16, rom: seq<u8>, k: nat): (r: Insn)
    requires k < |rom| && base + k < 0x1_0000
    ensures 1 <= r.len <= 3 && r.pc == base + k && WellFormed(r)
  {
    var b1: u8 := if k + 1 < |rom| then rom[k + 1] else 0;
    var b2: u8 := if k + 2 < |rom| then rom[k + 2] else 0;
    DecodedIsWellFormed(rom[k], b1, b2, base + k);
    DecodeAt(rom[k], b1, b2, base + k)
  }

  function Load(base: u16, rom: seq<u8>): Image {
    var n := if base + |rom| <= 0x1_0000 then |rom| else 0x1_0000 - base;
    Listing(base, rom, seq(n, k requires 0 <= k < n => DecodeRom(base, rom, k)))
  }

  predicate InImage(img: Image, a: u16) { a >= img.base && a - img.base < |img.rom| }

  /** Bytes left in the image from `a` on. */
  function Avail(img: Image, a: u16): (n: nat)
    requires InImage(img, a)
    ensures n >= 1
  {
    |img.rom| - (a - img.base)
  }

  function InsnAt(img: Image, a: u16): (r: Insn)
    requires InImage(img, a)
    ensures 1 <= r.len <= 3 && r.pc == a
  {
    img.code[a - img.base]
  }

  /** A word of the image, 0 where it is not wholly inside. */
  function ImgRd16(img: Image, a: u16): u16 {
    if !InImage(img, a) || !InImage(img, Word(a + 1)) || a - img.base + 1 >= |img.rom| then 0
    else LoHi(img.rom[a - img.base], img.rom[a - img.base + 1])
  }

  /** Its two bytes, low byte first, if both are in the image. */
  lemma WordOfImage(img: Image, a: u16)
    ensures ImgRd16(img, a) ==
            if a >= img.base && a - img.base + 1 < |img.rom| && (a == 0xFFFF ==> img.base == 0)
            then (img.rom[a - img.base] as int) + 256 * (img.rom[a - img.base + 1] as int) else 0
  {
  }

  // ---- one sweep ----

  function Max(a: u16, b: u16): u16 { if b > a then b else a }

  /** Ends the function unless a forward target is still pending. */
  predicate Terminates(r: Insn) { r.flow.Jump? || r.flow.Ret? || r.flow.Break? || r.flow.Stop? }

  /** The highest target that must be included, after `r`; `end` already covers `r`. */
  function Pending(img: Image, r: Insn, maxt: u16, end: u16): u16 {
    if r.flow.Branch? && InImage(img, r.target) then Max(maxt, r.target)
    else if r.flow.Jump? && r.target != 0 && InImage(img, r.target) && r.target <= end then Max(maxt, r.target)
    else maxt
  }

  /** A decoded instruction and the extent reached with it. */
  datatype Visit = Visit(insn: Insn, end: u16)

  /** Address of the next instruction. */
  function Following(r: Insn): u16 { Word(r.pc + r.len) }

  /** The function is complete: a terminator with no pending forward target. */
  predicate Stops(r: Insn, maxt: u16) { Terminates(r) && Following(r) > maxt }

  /** May the sweep of `fs` decode at `addr`? */
  predicate Decodes(img: Image, fs: u16, addr: u16) {
    InImage(img, addr) && Word(addr - fs) < 0x1000 && InsnAt(img, addr).len <= Avail(img, addr)
  }

  /** The sweep of the function at `fs`, from `addr` on. */
  function SweepFrom(img: Image, fs: u16, addr: u16, maxt: u16, end: u16): seq<Visit>
    decreases 0x1000 - Word(addr - fs)
  {
    if !Decodes(img, fs, addr) then []
    else
      var r := InsnAt(img, addr);
      var end' := Max(end, Following(r));
      var maxt' := Pending(img, r, maxt, end');
      if Stops(r, maxt') then [Visit(r, end')]
      else [Visit(r, end')] + SweepFrom(img, fs, Following(r), maxt', end')
  }

  function Body(img: Image, fs: u16): seq<Visit> { SweepFrom(img, fs, fs, fs, fs) }

  // ---- what a visit contributes ----

  datatype Option<T> = None | Some(value: T)

  function LabelOf(img: Image, r: Insn): Option<u16> {
    if (r.flow.Branch? || (r.flow.Jump? && r.target != 0)) && InImage(img, r.target) then Some(r.target)
    else None
  }

  function AddLabel(ls: seq<u16>, a: u16): seq<u16> {
    if a in ls || |ls| >= MAX_LABELS then ls else ls + [a]
  }

  /** The labels after `ls`, in the order discovery records them. */
  function LabelsFrom(img: Image, ls: seq<u16>, vs: seq<Visit>): seq<u16>
    decreases |vs|
  {
    if vs == [] then ls
    else
      match LabelOf(img, vs[0].insn)
      case Some(a) => LabelsFrom(img, AddLabel(ls, a), vs[1..])
      case None => LabelsFrom(img, ls, vs[1..])
  }

  /** Entries `e`.. of the jump table at `tab`, while they look like code addresses. */
  function TableFrom(img: Image, tab: u16, e: nat): seq<u16>
    decreases 64 - e
  {
    if e >= 64 then []
    else
      var t := ImgRd16(img, Word(tab + e * 2));
      if t == 0 || !InImage(img, t) then [] else [t] + TableFrom(img, tab, e + 1)
  }

  /** Where the pointers of a computed jump lead. */
  function Computed(img: Image, r: Insn): seq<u16> {
    if r.mode == IND then
      var t := ImgRd16(img, r.operand);
      if InImage(img, t) then [t] else []
    else if r.mode == IAX then TableFrom(img, r.operand, 0)
    else []
  }

  /** The functions a visit leads to: calls, forward jumps past the extent, computed jumps. */
  function EdgesOf(img: Image, v: Visit): seq<u16> {
    var r := v.insn;
    if r.flow.CallTo? then if InImage(img, r.target) then [r.target] else []
    else if r.flow.Jump? then
      if r.target != 0 && InImage(img, r.target) && r.target > v.end then [r.target] + Computed(img, r)
      else Computed(img, r)
    else []
  }

  /** The external target a visit records. */
  function ExtOf(img: Image, r: Insn): Option<u16> {
    if (r.flow.CallTo? || (r.flow.Jump? && r.target != 0)) && !InImage(img, r.target) then Some(r.target)
    else None
  }

  /** A discovered function. */
  datatype Func = Func(start: u16, end: u16, labels: seq<u16>, reachesRet: bool)

  /** The extent after the visits, from `end` on. */
  function EndFrom(end: u16, vs: seq<Visit>): u16 { if vs == [] then end else vs[|vs| - 1].end }

  predicate ReachesRet(vs: seq<Visit>) { exists v :: v in vs && v.insn.flow.Ret? }

  /** The record of the function at `fs`, labels in discovery order. */
  function FuncAt(img: Image, fs: u16): Func {
    var vs := Body(img, fs);
    Func(fs, EndFrom(fs, vs), LabelsFrom(img, [], vs), ReachesRet(vs))
  }

  lemma TableInImage(img: Image, tab: u16, e: nat)
    ensures forall a :: a in TableFrom(img, tab, e) ==> InImage(img, a)
    decreases 64 - e
  {
  }

  lemma EdgesInImage(img: Image, v: Visit)
    ensures forall a :: a in EdgesOf(img, v) ==> InImage(img, a)
  {
    TableInImage(img, v.insn.operand, 0);
  }

  /** A visit decodes an instruction of the image. */
  predicate Genuine(img: Image, fs: u16, v: Visit) {
    Decodes(img, fs, v.insn.pc) && v.insn == InsnAt(img, v.insn.pc)
  }

  predicate InOrder(vs: seq<Visit>) {
    forall k :: 0 < k < |vs| ==> vs[k].insn.pc == Following(vs[k - 1].insn)
  }

  /** Every step of a sweep is the next instruction of the image. */
  lemma {:induction false} SweepShape(img: Image, fs: u16, addr: u16, maxt: u16, end: u16)
    ensures var vs := SweepFrom(img, fs, addr, maxt, end);
            && (vs != [] ==> vs[0].insn.pc == addr)
            && (forall v :: v in vs ==> Genuine(img, fs, v))
            && InOrder(vs)
    decreases 0x1000 - Word(addr - fs)
  {
    if Decodes(img, fs, addr) {
      var r := InsnAt(img, addr);
      var end' := Max(end, Following(r));
      var maxt' := Pending(img, r, maxt, end');
      if !Stops(r, maxt') {
        SweepShape(img, fs, Following(r), maxt', end');
        ShapeOfCons(img, fs, Visit(r, end'), SweepFrom(img, fs, Following(r), maxt', end'));
      }
    }
  }

  lemma ShapeOfCons(img: Image, fs: u16, v: Visit, rest: seq<Visit>)
    requires rest != [] ==> rest[0].insn.pc == Following(v.insn)
    requires InOrder(rest)
    ensures InOrder([v] + rest)
  {
    var vs := [v] + rest;
    forall k | 0 < k < |vs|
      ensures vs[k].insn.pc == Following(vs[k - 1].insn)
    {
      assert vs[k] == rest[k - 1];
      if k > 1 {
        assert vs[k - 1] == rest[k - 2];
      }
    }
  }

  // ---- what the emitter sees of a body ----

  /** The instruction's end passes $FFFF, so the sweep goes on at the bottom of memory. */
  predicate Wraps(r: Insn) { r.pc + r.len >= 0x1_0000 }

  /** The visits before the first instruction that wraps. */
  function Unwrapped(vs: seq<Visit>): (r: seq<Visit>)
    ensures r <= vs && forall v :: v in r ==> v in vs && !Wraps(v.insn)
    decreases |vs|
  {
    if vs == [] || Wraps(vs[0].insn) then [] else [vs[0]] + Unwrapped(vs[1..])
  }

  /** The visits that lie between a function's start and its recorded end. */
  function Emitted(img: Image, fs: u16): seq<Visit> { Unwrapped(Body(img, fs)) }

  /** Once wrapped below its start, a sweep adds nothing to the extent. */
  lemma {:induction false} WrappedTail(img: Image, fs: u16, addr: u16, maxt: u16, end: u16)
    requires addr < fs <= end
    ensures forall v :: v in SweepFrom(img, fs, addr, maxt, end) ==> v.end == end
    decreases 0x1000 - Word(addr - fs)
  {
    hide Pending, Stops;
    if Decodes(img, fs, addr) {
      var r := InsnAt(img, addr);
      var maxt' := Pending(img, r, maxt, end);
      StaysBelow(fs, addr, r.len);
      if !Stops(r, maxt') {
        WrappedTail(img, fs, Following(r), maxt', end);
      }
    }
  }

  lemma StaysBelow(fs: u16, addr: u16, len: nat)
    requires addr < fs && Word(addr - fs) < 0x1000 && len <= 3
    ensures Word(addr + len) == addr + len < fs
  {
  }

  /** The visits end with their instructions, and the emitted ones reach the whole extent. */
  predicate EndsRight(end: u16, vs: seq<Visit>) {
    && (forall v :: v in Unwrapped(vs) ==> v.end == v.insn.pc + v.insn.len)
    && EndFrom(end, vs) == EndFrom(end, Unwrapped(vs))
  }

  lemma EndsCons(end: u16, v: Visit, rest: seq<Visit>)
    requires if Wraps(v.insn) then v.end == end && forall u :: u in rest ==> u.end == end
             else v.end == v.insn.pc + v.insn.len && EndsRight(v.end, rest)
    ensures EndsRight(end, [v] + rest)
  {
    hide Unwrapped;
    UnwrappedCons(v, rest);
    ExtentOfCons(end, v, rest);
    if !Wraps(v.insn) { ExtentOfCons(end, v, Unwrapped(rest)); }
  }

  lemma UnwrappedCons(v: Visit, rest: seq<Visit>)
    ensures Unwrapped([v] + rest) == if Wraps(v.insn) then [] else [v] + Unwrapped(rest)
  {
    assert ([v] + rest)[1..] == rest;
  }

  lemma ExtentOfCons(end: u16, v: Visit, rest: seq<Visit>)
    ensures EndFrom(end, [v] + rest) == EndFrom(v.end, rest)
  {
    var vs := [v] + rest;
    assert rest != [] ==> vs[|vs| - 1] == rest[|rest| - 1];
  }

  lemma {:induction false} SweepEnds(img: Image, fs: u16, addr: u16, maxt: u16, end: u16)
    requires fs <= end == addr
    ensures EndsRight(end, SweepFrom(img, fs, addr, maxt, end))
    decreases 0x1000 - Word(addr - fs)
  {
    hide Pending, Stops, EndsRight, InImage, Terminates;
    if Decodes(img, fs, addr) {
      var r := InsnAt(img, addr);
      var end' := Max(end, Following(r));
      var maxt' := Pending(img, r, maxt, end');
      var rest := if Stops(r, maxt') then [] else SweepFrom(img, fs, Following(r), maxt', end');
      if Wraps(r) {
        WrapIsBelow(fs, addr, r.len);
        if !Stops(r, maxt') { WrappedTail(img, fs, Following(r), maxt', end'); }
      } else if !Stops(r, maxt') {
        SweepEnds(img, fs, Following(r), maxt', end');
      } else {
        NothingEnds(end');
      }
      EndsCons(end, Visit(r, end'), rest);
      assert SweepFrom(img, fs, addr, maxt, end) == [Visit(r, end')] + rest;
    } else {
      NothingEnds(end);
    }
  }

  lemma NothingEnds(end: u16)
    ensures EndsRight(end, [])
  {
  }

  lemma WrapIsBelow(fs: u16, addr: u16, len: nat)
    requires Word(addr - fs) < 0x1000 && 1 <= len <= 3 && addr + len >= 0x1_0000 && fs <= addr
    ensures Word(addr + len) < fs
  {
  }

  /** Instructions that follow one another from `fs` to the end. */
  predicate Consecutive(img: Image, fs: u16, vs: seq<Visit>) {
    && (vs != [] ==> vs[0].insn.pc == fs)
    && (forall v :: v in vs ==> Genuine(img, fs, v) && !Wraps(v.insn) && v.end == v.insn.pc + v.insn.len)
    && (forall k :: 0 < k < |vs| ==> vs[k].insn.pc == vs[k - 1].end)
  }

  /** The emitted visits are consecutive instructions from the start to the recorded end,
      whether or not the sweep went on past $FFFF. */
  lemma BodyIsConsecutive(img: Image, fs: u16)
    ensures Consecutive(img, fs, Emitted(img, fs))
    ensures EndFrom(fs, Emitted(img, fs)) == EndFrom(fs, Body(img, fs))
  {
    hide SweepFrom, Genuine, Unwrapped;
    SweepShape(img, fs, fs, fs, fs);
    SweepEnds(img, fs, fs, fs, fs);
    var all, vs := Body(img, fs), Emitted(img, fs);
    forall k | 0 < k < |vs|
      ensures vs[k].insn.pc == vs[k - 1].end
    {
      assert vs[k] == all[k] && vs[k - 1] == all[k - 1];
      assert vs[k - 1] in vs;
    }
  }

  /** Later instructions of a body lie at higher addresses. */
  lemma {:induction false} PcsIncrease(img: Image, fs: u16, vs: seq<Visit>, j: nat, k: nat)
    requires Consecutive(img, fs, vs) && j < k < |vs|
    ensures vs[j].end <= vs[k].insn.pc
    decreases k
  {
    if j < k - 1 {
      PcsIncrease(img, fs, vs, j, k - 1);
      assert vs[k - 1] in vs;
    }
  }

  // ---- how a sweep ends ----

  /** A sweep ends at a terminator, or where it may not decode the next instruction: at the
      0x1000-byte limit, the end of the image or a truncated instruction. */
  lemma {:induction false} WhySweepEnds(img: Image, fs: u16, addr: u16, maxt: u16, end: u16)
    ensures var vs := SweepFrom(img, fs, addr, maxt, end);
            if vs == [] then !Decodes(img, fs, addr)
            else Terminates(vs[|vs| - 1].insn) || !Decodes(img, fs, Following(vs[|vs| - 1].insn))
    decreases 0x1000 - Word(addr - fs)
  {
    hide Pending;
    if Decodes(img, fs, addr) {
      var r := InsnAt(img, addr);
      var end' := Max(end, Following(r));
      var maxt' := Pending(img, r, maxt, end');
      if !Stops(r, maxt') {
        WhySweepEnds(img, fs, Following(r), maxt', end');
      }
    }
  }

  /** A visited transfer that keeps its function open at address `a`: a branch to `a` or beyond, or a
      jump there from behind the extent reached. */
  predicate KeepsOpen(img: Image, v: Visit, a: u16) {
    && InImage(img, v.insn.target) && v.insn.target >= a
    && (v.insn.flow.Branch? || (v.insn.flow.Jump? && v.insn.target != 0 && v.insn.target <= v.end))
  }

  /** Something visited up to place `k` keeps the function open at `a`. */
  predicate OpenAt(img: Image, vs: seq<Visit>, k: int, a: u16)
    requires k < |vs|
  {
    exists j :: 0 <= j <= k && KeepsOpen(img, vs[j], a)
  }

  /** A sweep that could go on ends at a terminator with nothing pending: every branch target seen
      lies before the end. */
  ghost predicate EndsClosed(img: Image, fs: u16, maxt: u16, vs: seq<Visit>) {
    vs != [] && Decodes(img, fs, Following(vs[|vs| - 1].insn)) ==>
      && Terminates(vs[|vs| - 1].insn) && maxt < Following(vs[|vs| - 1].insn)
      && forall v :: v in vs ==> !KeepsOpen(img, v, Following(vs[|vs| - 1].insn))
  }

  /** It goes on past a terminator only for a pending target. */
  ghost predicate StaysOpenFor(img: Image, maxt: u16, vs: seq<Visit>) {
    forall k :: 0 <= k < |vs| - 1 && Terminates(vs[k].insn) ==>
      maxt >= Following(vs[k].insn) || OpenAt(img, vs, k, Following(vs[k].insn))
  }

  lemma PendingExactly(img: Image, v: Visit, maxt: u16, a: u16)
    ensures Pending(img, v.insn, maxt, v.end) >= a <==> maxt >= a || KeepsOpen(img, v, a)
  {
    hide InImage;
  }

  /** Where a sweep ends, both ways: not before a pending target, and not after the first terminator
      with none. */
  lemma {:induction false} SweepEndsExactly(img: Image, fs: u16, addr: u16, maxt: u16, end: u16)
    ensures var vs := SweepFrom(img, fs, addr, maxt, end);
            EndsClosed(img, fs, maxt, vs) && StaysOpenFor(img, maxt, vs)
    decreases 0x1000 - Word(addr - fs)
  {
    hide Pending, InImage, KeepsOpen, Terminates, Following;
    if Decodes(img, fs, addr) {
      var r := InsnAt(img, addr);
      var end' := Max(end, Following(r));
      var v, maxt' := Visit(r, end'), Pending(img, r, maxt, end');
      var rest := if Stops(r, maxt') then [] else SweepFrom(img, fs, Following(r), maxt', end');
      PendingExactly(img, v, maxt, Following(r));
      if !Stops(r, maxt') {
        Advances(fs, r);
        SweepEndsExactly(img, fs, Following(r), maxt', end');
        OpenCons(img, fs, v, maxt, maxt', rest);
      }
      assert SweepFrom(img, fs, addr, maxt, end) == [v] + rest;
    }
  }

  lemma Advances(fs: u16, r: Insn)
    requires Word(r.pc - fs) < 0x1000 && 1 <= r.len <= 3
    ensures 0x1000 - Word(Following(r) - fs) < 0x1000 - Word(r.pc - fs)
  {
  }

  lemma OpenCons(img: Image, fs: u16, v: Visit, maxt: u16, maxt': u16, rest: seq<Visit>)
    requires maxt' == Pending(img, v.insn, maxt, v.end) && !Stops(v.insn, maxt')
    requires EndsClosed(img, fs, maxt', rest) && StaysOpenFor(img, maxt', rest)
    requires rest == [] ==> !Decodes(img, fs, Following(v.insn))
    ensures EndsClosed(img, fs, maxt, [v] + rest) && StaysOpenFor(img, maxt, [v] + rest)
  {
    hide Pending, InImage, KeepsOpen, Terminates, Following, Decodes;
    var vs := [v] + rest;
    if rest != [] {
      var a := Following(rest[|rest| - 1].insn);
      assert vs[|vs| - 1] == rest[|rest| - 1];
      PendingExactly(img, v, maxt, a);
    }
    forall k | 0 <= k < |vs| - 1 && Terminates(vs[k].insn)
      ensures maxt >= Following(vs[k].insn) || OpenAt(img, vs, k, Following(vs[k].insn))
    {
      var a := Following(vs[k].insn);
      PendingExactly(img, v, maxt, a);
      if k > 0 {
        assert vs[k] == rest[k - 1];
        if OpenAt(img, rest, k - 1, a) {
          var j :| 0 <= j <= k - 1 && KeepsOpen(img, rest[j], a);
          assert vs[j + 1] == rest[j];
        }
      }
      if KeepsOpen(img, v, a) { assert vs[0] == v; }
    }
  }
}
