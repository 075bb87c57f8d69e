/** The Mikey timers (src/timer.c): eight down-counters stepped in batches, some of them linked
    so that one counts the underflows of another. */
module Timers {
  import opened Bytes
  import opened Division

  /** Control A, which no step changes: armed for interrupts, reloading, counting, clock select. */
  datatype Mode = Mode(armed: bool, reloads: bool, counting: bool, clock: nat)

  /** TCTLA_INT, TCTLA_RELOAD, TCTLA_COUNT and TCTLA_CLOCK. */
  function ModeOf(ctlA: u8): Mode { Mode(Bit(ctlA, 7), Bit(ctlA, 4), Bit(ctlA, 3), ctlA % 8) }

  /** One timer: its registers and its bit of the interrupt latch. */
  datatype Timer = Timer(backup: u8, mode: Mode, cnt: u8, ctlB: u8, irq: bool)

  type Index = i: int | 0 <= i < 8
  type Bank = b: seq<Timer> | |b| == 8 witness seq(8, _ => Timer(0, Mode(false, false, false, 0), 0, 0, false))
  type Counts = c: seq<nat> | |c| == 8 witness seq(8, _ => 0)

  /** Driven by its own clock. */
  predicate Free(t: Timer) { t.mode.counting && t.mode.clock != 7 }

  /** Driven by the underflows of its predecessor. */
  predicate Linked(t: Timer) { t.mode.counting && t.mode.clock == 7 }

  /** Microseconds per count of a free timer. */
  function Period(t: Timer): (p: nat)
    ensures p > 0
  {
    Exp2(t.mode.clock)
  }

  // ---- the link chain 0 -> 2 -> 4 -> 1 -> 3 -> 5 -> 7 ----

  const LINK_SUCC: seq<int> := [2, 3, 4, 5, 1, 7, -1, -1]

  /** A bank lists the timers in chain order, with timer 6, which is linked to none, last. */
  function Place(i: Index): Index {
    match i
    case 0 => 0
    case 2 => 1
    case 4 => 2
    case 1 => 3
    case 3 => 4
    case 5 => 5
    case 7 => 6
    case _ => 7
  }

  function Succ(p: Index): int { if p < 6 then p + 1 else -1 }
  function Pred(p: Index): int { if 0 < p < 7 then p - 1 else -1 }

  /** The table of the source links each timer to the next place of the chain. */
  lemma SuccOfPlace(i: Index, j: Index)
    ensures Place(i) == Place(j) ==> i == j
    ensures -1 <= LINK_SUCC[i] < 8
    ensures Succ(Place(i)) == if LINK_SUCC[i] < 0 then -1 else Place(LINK_SUCC[i])
  {
  }

  // ---- one timer by itself ----

  function SetBit0(x: u8): u8 { if Bit(x, 0) then x else x + 1 }
  function SetBit3(x: u8): u8 { if Bit(x, 3) then x else x + 8 }

  /** Control B with the done and borrow-out bits set. */
  function Flagged(ctlB: u8): u8 { SetBit3(SetBit0(ctlB)) }

  /** One count tick of a timer, the cascade aside. */
  function TickOne(t: Timer): Timer {
    if t.cnt == 0 then
      t.(cnt := if t.mode.reloads then t.backup else 0, ctlB := Flagged(t.ctlB), irq := t.irq || t.mode.armed)
    else
      t.(cnt := t.cnt - 1)
  }

  /** A timer after `n` ticks. */
  function Ticked(t: Timer, n: nat): (r: Timer)
    ensures r.mode == t.mode && r.backup == t.backup
  {
    if n == 0 then t else TickOne(Ticked(t, n - 1))
  }

  /** How often it underflows during `n` ticks. */
  function Underflows(t: Timer, n: nat): nat {
    if n == 0 then 0 else Underflows(t, n - 1) + Num(Ticked(t, n - 1).cnt == 0)
  }

  lemma {:induction false} TickedSum(t: Timer, m: nat, n: nat)
    ensures Ticked(Ticked(t, m), n) == Ticked(t, m + n)
    ensures Underflows(t, m + n) == Underflows(t, m) + Underflows(Ticked(t, m), n)
  {
    if n > 0 {
      TickedSum(t, m, n - 1);
      assert m + n - 1 == m + (n - 1);
    }
  }

  // ---- the cascade ----

  /** `tick(i)`: a count tick of timer i and of the linked timers its underflow reaches. */
  function Cascade(b: Bank, i: Index): Bank
    decreases 7 - i
  {
    var b1: Bank := b[i := TickOne(b[i])];
    var s := Succ(i);
    if b[i].cnt == 0 && s >= 0 && Linked(b[s]) then Cascade(b1, s) else b1
  }

  /** Does a tick of timer i reach timer k? */
  predicate Reaches(b: Bank, i: Index, k: Index)
    decreases k
  {
    k == i || (Pred(k) >= 0 && Linked(b[k]) && b[Pred(k)].cnt == 0 && Reaches(b, i, Pred(k)))
  }

  lemma {:induction false} ReachesForward(b: Bank, i: Index, k: Index)
    requires Reaches(b, i, k) && k != i
    ensures k > i && Succ(i) >= 0 && b[i].cnt == 0 && Linked(b[Succ(i)])
    decreases k
  {
    if Pred(k) != i {
      ReachesForward(b, i, Pred(k));
    }
  }

  /** Past timer i, reaching from i is reaching from its successor. */
  lemma {:induction false} ReachesShift(b: Bank, i: Index, k: Index)
    requires Succ(i) >= 0 && b[i].cnt == 0 && Linked(b[Succ(i)])
    requires k != i
    ensures Reaches(b[i := TickOne(b[i])], Succ(i), k) == Reaches(b, i, k)
    decreases k
  {
    if k == Succ(i) {
      assert Reaches(b, i, i);
    } else if Pred(k) >= 0 {
      ReachesShift(b, i, Pred(k));
    }
  }

  /** A tick changes exactly the timers it reaches, each by one tick of its own. */
  lemma {:induction false} TickReaches(b: Bank, i: Index, k: Index)
    ensures Cascade(b, i)[k] == if Reaches(b, i, k) then TickOne(b[k]) else b[k]
    decreases 7 - i
  {
    var b1: Bank := b[i := TickOne(b[i])];
    var s := Succ(i);
    if b[i].cnt == 0 && s >= 0 && Linked(b[s]) {
      TickReaches(b1, s, k);
      if k == i {
        if Reaches(b1, s, i) { ReachesForward(b1, s, i); }
      } else {
        ReachesShift(b, i, k);
      }
    } else if k != i && Reaches(b, i, k) {
      ReachesForward(b, i, k);
    }
  }

  // ---- batches ----

  /** The ticks each timer gets when the free ones get `n[k]` of their own: a linked timer gets
      the underflows of its predecessor, any other timer none. */
  function Share(b: Bank, n: Counts, k: Index): nat
    decreases k
  {
    if Free(b[k]) then n[k]
    else if Linked(b[k]) && Pred(k) >= 0 then Underflows(b[Pred(k)], Share(b, n, Pred(k)))
    else 0
  }

  /** Timer k of `a` is timer k of `b` after its share of `n`. */
  ghost predicate SharedAt(b: Bank, n: Counts, a: Bank, k: Index) { a[k] == Ticked(b[k], Share(b, n, k)) }

  /** `a` is the bank `b` after the ticks `n`, each timer ticked by itself. */
  ghost predicate Shared(b: Bank, n: Counts, a: Bank) { forall k: Index :: SharedAt(b, n, a, k) }

  /** One more tick of free timer i, cascade included, is one more in its own count. */
  lemma TickAdvances(b: Bank, n: Counts, a: Bank, n': Counts, i: Index)
    requires Free(b[i]) && Shared(b, n, a) && n' == n[i := n[i] + 1]
    ensures Shared(b, n', Cascade(a, i))
  {
    var c := Cascade(a, i);
    forall k: Index ensures SharedAt(b, n', c, k) {
      TickReaches(a, i, k);
      TickedAt(b, n, a, n', i, c, k);
    }
  }

  lemma TickedAt(b: Bank, n: Counts, a: Bank, n': Counts, i: Index, c: Bank, k: Index)
    requires Free(b[i]) && Shared(b, n, a) && n' == n[i := n[i] + 1]
    requires c[k] == if Reaches(a, i, k) then TickOne(a[k]) else a[k]
    ensures SharedAt(b, n', c, k)
  {
    hide TickOne, Ticked, Underflows, Share, Reaches, Free;
    assert SharedAt(b, n, a, k);
    ShareGrows(b, n, a, n', i, k);
    OneMore(b[k], Share(b, n, k), Reaches(a, i, k));
  }

  lemma OneMore(t: Timer, n: nat, more: bool)
    ensures Ticked(t, n + Num(more)) == if more then TickOne(Ticked(t, n)) else Ticked(t, n)
    ensures Underflows(t, n + Num(more)) == Underflows(t, n) + Num(more && Ticked(t, n).cnt == 0)
  {
  }

  lemma {:induction false} ShareGrows(b: Bank, n: Counts, a: Bank, n': Counts, i: Index, k: Index)
    requires Free(b[i]) && Shared(b, n, a) && n' == n[i := n[i] + 1]
    ensures Share(b, n', k) == Share(b, n, k) + Num(Reaches(a, i, k))
    decreases k
  {
    var p := Pred(k);
    assert SharedAt(b, n, a, k);
    if k != i && Linked(b[k]) && p >= 0 {
      assert SharedAt(b, n, a, p);
      ShareGrows(b, n, a, n', i, p);
      OneMore(b[p], Share(b, n, p), Reaches(a, i, p));
    }
  }

  /** Batches add up, in any order and however they are split. */
  lemma AdvanceSum(b: Bank, m: Counts, a: Bank, n: Counts, c: Bank, mn: Counts)
    requires Shared(b, m, a) && Shared(a, n, c) && forall k: Index :: Free(b[k]) ==> mn[k] == m[k] + n[k]
    ensures Shared(b, mn, c)
  {
    forall k: Index ensures SharedAt(b, mn, c, k) {
      assert SharedAt(b, m, a, k) && SharedAt(a, n, c, k);
      ShareSum(b, m, a, n, mn, k);
      TickedSum(b[k], Share(b, m, k), Share(a, n, k));
    }
  }

  lemma {:induction false} ShareSum(b: Bank, m: Counts, a: Bank, n: Counts, mn: Counts, k: Index)
    requires Shared(b, m, a) && forall k: Index :: Free(b[k]) ==> mn[k] == m[k] + n[k]
    ensures Share(b, mn, k) == Share(b, m, k) + Share(a, n, k)
    decreases k
  {
    var p := Pred(k);
    assert SharedAt(b, m, a, k);
    if !Free(b[k]) && Linked(b[k]) && p >= 0 {
      assert SharedAt(b, m, a, p);
      ShareSum(b, m, a, n, mn, p);
      TickedSum(b[p], Share(b, m, p), Share(a, n, p));
    }
  }

  // ---- whole steps ----

  type Phases = c: seq<u32> | |c| == 8 witness seq(8, _ => 0)

  /** The timers in chain order with their sub-period phases. */
  datatype Clocks = Clocks(bank: Bank, phase: Phases)

  /** A sum of two 32-bit numbers, in 32 bits. */
  function Wrap(x: nat): u32
    requires x < 0x2_0000_0000
  {
    if x < 0x1_0000_0000 then x else x - 0x1_0000_0000
  }

  /** Whole periods in `x` microseconds, and what is left. */
  function Ticks(x: nat, p: nat): nat
    requires p > 0
  {
    DivFacts(x, p);
    x / p
  }

  function Rest(x: nat, p: nat): (r: nat)
    requires p > 0
    ensures r <= x
  {
    DivFacts(x, p);
    x % p
  }

  /** Count ticks a free timer makes of its own accord in `us` microseconds. */
  function Own(t: Timer, phase: u32, us: u32): nat {
    if Free(t) then Ticks(Wrap(phase + us), Period(t)) else 0
  }

  function PhaseAfter(t: Timer, phase: u32, us: u32): u32 {
    if Free(t) then
      Rest(Wrap(phase + us), Period(t))
    else phase
  }

  function OwnCounts(s: Clocks, us: u32): Counts {
    seq(8, p requires 0 <= p < 8 => Own(s.bank[p], s.phase[p], us))
  }

  function Advance(b: Bank, n: Counts): (a: Bank)
    ensures Shared(b, n, a)
  {
    var a := seq(8, k requires 0 <= k < 8 => Ticked(b[k], Share(b, n, k)));
    assert Shared(b, n, a) by {
      forall k: Index ensures SharedAt(b, n, a, k) { assert a[k] == Ticked(b[k], Share(b, n, k)); }
    }
    a
  }

  /** Every timer after `us` microseconds, in closed form. */
  function Step(s: Clocks, us: u32): Clocks {
    Clocks(Advance(s.bank, OwnCounts(s, us)), seq(8, p requires 0 <= p < 8 => PhaseAfter(s.bank[p], s.phase[p], us)))
  }

  lemma SharedIsAdvance(b: Bank, n: Counts, a: Bank)
    requires Shared(b, n, a)
    ensures a == Advance(b, n)
  {
    var c := Advance(b, n);
    forall k: Index ensures a[k] == c[k] { assert SharedAt(b, n, a, k) && SharedAt(b, n, c, k); }
  }

  /** No free timer's phase passes 32 bits. */
  predicate Fits(s: Clocks, us: nat) { forall p: Index :: Free(s.bank[p]) ==> s.phase[p] + us < 0x1_0000_0000 }

  /** Step-size independence: two steps leave the registers, phases and interrupt latch that
      one step of the same length leaves. */
  lemma StepSplits(s: Clocks, a: u32, b: u32)
    requires a + b < 0x1_0000_0000 && Fits(s, a + b)
    ensures Step(Step(s, a), b) == Step(s, a + b)
  {
    var s1, s2, one := Step(s, a), Step(Step(s, a), b), Step(s, a + b);
    var m, n, mn := OwnCounts(s, a), OwnCounts(s1, b), OwnCounts(s, a + b);
    forall p: Index ensures s1.bank[p].mode == s.bank[p].mode { assert SharedAt(s.bank, m, s1.bank, p); }
    forall p: Index ensures Free(s.bank[p]) ==> mn[p] == m[p] + n[p]
    ensures s2.phase[p] == one.phase[p]
    {
      SplitPhase(s.bank[p], s1.bank[p], s.phase[p], a, b);
    }
    AdvanceSum(s.bank, m, s1.bank, n, s2.bank, mn);
    SharedIsAdvance(s.bank, mn, s2.bank);
    assert s2.phase == one.phase;
  }

  /** `k` steps of `us` microseconds each. */
  function Steps(s: Clocks, us: u32, k: nat): Clocks {
    if k == 0 then s else Step(Steps(s, us, k - 1), us)
  }

  lemma {:induction false} StepsBefore(s: Clocks, us: u32, k: nat, total: u32)
    requires k >= 1 && total == k * us && total + us < 0x1_0000_0000 && Fits(s, total + us)
    ensures Step(Steps(s, us, k), us) == Step(s, total + us)
    decreases k, 1
  {
    StepsAsOne(s, us, k);
    StepSplits(s, total, us);
  }

  /** Stepping by one microsecond or by four is the same: `k` short steps are one long one. */
  lemma {:induction false} StepsAsOne(s: Clocks, us: u32, k: nat)
    requires k >= 1 && k * us < 0x1_0000_0000 && Fits(s, k * us)
    ensures Steps(s, us, k) == Step(s, k * us)
    decreases k, 0
  {
    if k == 1 {
      assert Steps(s, us, 0) == s;
    } else {
      var before := (k - 1) * us;
      assert k * us == before + us && before >= 0;
      StepsBefore(s, us, k - 1, before);
    }
  }

  lemma SplitPhase(t: Timer, t': Timer, phase: u32, a: u32, b: u32)
    requires a + b < 0x1_0000_0000 && t'.mode == t.mode && (Free(t) ==> phase + a + b < 0x1_0000_0000)
    ensures var mid := PhaseAfter(t, phase, a);
            && Own(t, phase, a + b) == Own(t, phase, a) + Own(t', mid, b)
            && PhaseAfter(t, phase, a + b) == PhaseAfter(t', mid, b)
  {
    if Free(t) {
      SplitTicks(phase, a, b, Period(t));
    }
  }

  lemma SplitTicks(phase: u32, a: u32, b: u32, p: nat)
    requires p > 0 && phase + a + b < 0x1_0000_0000
    ensures var mid := Rest(Wrap(phase + a), p);
            && Ticks(Wrap(phase + a + b), p) == Ticks(Wrap(phase + a), p) + Ticks(Wrap(mid + b), p)
            && Rest(Wrap(phase + a + b), p) == Rest(Wrap(mid + b), p)
  {
    var mid := Rest(phase + a, p);
    assert Wrap(phase + a) == phase + a && Wrap(mid + b) == mid + b && Wrap(phase + a + b) == phase + a + b;
    DivSplit(phase + a, b, p);
  }

  /** For two steps that do not overflow, the single step makes the same number of ticks
      exactly when its phase does not overflow either. */
  lemma SplitsExactly(t: Timer, phase: u32, a: u32, b: u32)
    requires Free(t) && t.mode.clock < 8 && a + b < 0x1_0000_0000
    requires phase + a < 0x1_0000_0000 && PhaseAfter(t, phase, a) + b < 0x1_0000_0000
    ensures Own(t, phase, a) + Own(t, PhaseAfter(t, phase, a), b) == Own(t, phase, a + b) <==>
            phase + a + b < 0x1_0000_0000
  {
    var p, total := Period(t), phase + a + b;
    DivSplit(phase + a, b, p);
    if total >= 0x1_0000_0000 {
      assert Wrap(total) == total - 0x1_0000_0000;
      PeriodSmall(t.mode.clock);
      DivLess(total, 0x1_0000_0000, p);
    }
  }

  /** Batches for different timers, of one chain or of several, can be taken in either order. */
  lemma BatchesCommute(b: Bank, m: Counts, n: Counts)
    ensures Advance(Advance(b, m), n) == Advance(Advance(b, n), m)
  {
    var mn: Counts := seq(8, k requires 0 <= k < 8 => m[k] + n[k]);
    var am, an := Advance(b, m), Advance(b, n);
    AdvanceSum(b, m, am, n, Advance(am, n), mn);
    AdvanceSum(b, n, an, m, Advance(an, m), mn);
    SharedIsAdvance(b, mn, Advance(am, n));
    SharedIsAdvance(b, mn, Advance(an, m));
  }

  lemma PeriodSmall(clock: nat)
    requires clock < 8
    ensures Exp2(clock) <= 128
  {
    match clock
    case 0 => case 1 => case 2 => case 3 => case 4 => case 5 => case 6 => case _ =>
  }

  /** A 64-microsecond timer without reload, one microsecond short of its next count. */
  const LATE := Clocks(
    [Timer(0, Mode(false, false, true, 6), 5, 0, false)] +
    seq(7, _ => Timer(0, Mode(false, false, false, 0), 0, 0, false)), [63] + seq(7, _ => 0))

  /** Two steps whose sum is a 32-bit number, but not with the phase of `LATE` added. */
  const SHORT_STEP: u32 := 1
  const LONG_STEP: u32 := 0xFFFF_FFFE

  /** When the single step overflows the phase, the timers are left differently. */
  lemma OverflowDiffers()
    ensures !Fits(LATE, SHORT_STEP + LONG_STEP)
    ensures Step(Step(LATE, SHORT_STEP), LONG_STEP) != Step(LATE, SHORT_STEP + LONG_STEP)
  {
    var a, b := SHORT_STEP, LONG_STEP;
    var t, s1 := LATE.bank[0], Step(LATE, a);
    assert Free(t);
    PeriodOf64(t);
    var m, one, n := OwnCounts(LATE, a), OwnCounts(LATE, a + b), OwnCounts(s1, b);
    assert m[0] == 1 && one[0] == 0 by {
      ModUnique(64, 64, 1, 0);
      ModUnique(62, 64, 0, 62);
    }
    assert SharedAt(LATE.bank, m, s1.bank, 0) && s1.bank[0] == Ticked(t, 1);
    assert SharedAt(LATE.bank, one, Step(LATE, a + b).bank, 0) && Step(LATE, a + b).bank[0] == Ticked(t, 0);
    assert SharedAt(s1.bank, n, Step(s1, b).bank, 0);
    NeverUp(s1.bank[0], Share(s1.bank, n, 0));
  }

  lemma PeriodOf64(t: Timer)
    requires t.mode.clock == 6
    ensures Period(t) == 64
  {
  }

  /** Without reload a count never rises. */
  lemma {:induction false} NeverUp(t: Timer, n: nat)
    requires !t.mode.reloads
    ensures Ticked(t, n).cnt <= t.cnt
  {
    if n > 0 {
      NeverUp(t, n - 1);
    }
  }

  // ---- a reloading chain is a mixed-radix down-counter ----

  predicate Cyclic(t: Timer) { t.mode.reloads && t.cnt <= t.backup }

  /** A reloading timer counts down modulo its backup plus one, underflowing once a round. */
  lemma {:induction false} CyclicTicks(t: Timer, n: nat)
    requires Cyclic(t)
    ensures var r, e := t.backup + 1, t.backup - t.cnt + n;
            Ticked(t, n).cnt == t.backup - e % r && Underflows(t, n) == e / r
  {
    var r, e := t.backup + 1, t.backup - t.cnt + n;
    if n == 0 {
      ModUnique(e, r, 0, e);
    } else {
      CyclicTicks(t, n - 1);
      DivNext(e - 1, r);
    }
  }

  lemma DivNext(x: nat, n: nat)
    requires n > 0
    ensures if x % n == n - 1 then (x + 1) % n == 0 && (x + 1) / n == x / n + 1
            else (x + 1) % n == x % n + 1 && (x + 1) / n == x / n
  {
    DivFacts(x, n);
    if x % n == n - 1 {
      assert (x / n + 1) * n == (x / n) * n + n;
      ModUnique(x + 1, n, x / n + 1, 0);
    } else {
      ModUnique(x + 1, n, x / n, x % n + 1);
    }
  }

  /** The latch bit is set exactly when it was, or the timer is armed and underflowed. */
  lemma {:induction false} LatchExactly(t: Timer, n: nat)
    ensures Ticked(t, n).irq == (t.irq || (t.mode.armed && Underflows(t, n) > 0))
  {
    if n > 0 {
      LatchExactly(t, n - 1);
    }
  }

  ghost predicate AllCyclic(c: seq<Timer>) { forall t :: t in c ==> Cyclic(t) }

  /** Product of the backups plus one. */
  function Radix(c: seq<Timer>): (r: nat)
    ensures r > 0
  {
    if c == [] then 1 else
      var r := (c[0].backup + 1) * Radix(c[1..]);
      assert r > 0 by { MulAtLeast(c[0].backup + 1, Radix(c[1..])); }
      r
  }

  /** The counts as one number, the head least significant. */
  function Value(c: seq<Timer>): nat {
    if c == [] then 0 else c[0].cnt + (c[0].backup + 1) * Value(c[1..])
  }

  /** Underflows out of the chain during `n` ticks of its head. */
  function Carry(c: seq<Timer>, n: nat): nat {
    if c == [] then n else Carry(c[1..], Underflows(c[0], n))
  }

  function RunChain(c: seq<Timer>, n: nat): (r: seq<Timer>)
    ensures |r| == |c|
    decreases |c|
  {
    if c == [] then [] else [Ticked(c[0], n)] + RunChain(c[1..], Underflows(c[0], n))
  }

  lemma MixedRadix(r: nat, rs: nat, cnt: nat, v: nat, n: nat, u: nat, low: nat)
    requires cnt < r && v < rs && u * r + low == r - 1 - cnt + n && low < r
    ensures var e', e := rs - 1 - v + u, r * rs - 1 - (cnt + r * v) + n;
            && cnt + r * v < r * rs
            && e == r * e' + low && e / (r * rs) == e' / rs && e % (r * rs) == r * (e' % rs) + low
  {
    var e' := rs - 1 - v + u;
    var e := r * rs - 1 - (cnt + r * v) + n;
    var q, m := e' / rs, e' % rs;
    DivFacts(e', rs);
    assert r * e' == r * rs - r - r * v + r * u;
    assert r * e' == (r * rs) * q + r * m by { assert e' == q * rs + m; Distribute(r, rs, q, m); }
    LowDigit(r, rs, m, low);
    LowDigit(r, rs, v, cnt);
    ModUnique(e, r * rs, q, r * m + low);
  }

  lemma Distribute(r: int, rs: int, q: int, m: int)
    ensures r * (q * rs + m) == (r * rs) * q + r * m
  {
  }

  lemma LowDigit(r: nat, rs: nat, m: nat, low: nat)
    requires m < rs && low < r
    ensures 0 <= r * m + low < r * rs
  {
    MulAtLeast(rs - m, r);
    assert r * rs == r * m + (rs - m) * r && r * m >= 0;
  }

  /** `n` ticks of the head lower the combined value by `n` modulo the product of the radices,
      and carry out once a round. */
  lemma {:induction false} ChainCounts(c: seq<Timer>, n: nat)
    requires AllCyclic(c)
    ensures Value(c) < Radix(c)
    ensures Carry(c, n) == (Radix(c) - 1 - Value(c) + n) / Radix(c)
    ensures Value(RunChain(c, n)) == Radix(c) - 1 - (Radix(c) - 1 - Value(c) + n) % Radix(c)
    decreases |c|
  {
    if c == [] {
    } else {
      var t, rest := c[0], c[1..];
      assert t in c;
      var u, e := Underflows(t, n), t.backup - t.cnt + n;
      ChainCounts(rest, u);
      CyclicTicks(t, n);
      DivFacts(e, t.backup + 1);
      MixedRadix(t.backup + 1, Radix(rest), t.cnt, Value(rest), n, u, e % (t.backup + 1));
      var run := RunChain(c, n);
      assert run[1..] == RunChain(rest, u) && run[0] == Ticked(t, n);
      CountDigits(t.backup + 1, Radix(rest), (Radix(rest) - 1 - Value(rest) + u) % Radix(rest), e % (t.backup + 1));
    }
  }

  lemma CountDigits(r: nat, rs: nat, m: nat, low: nat)
    ensures (r - 1 - low) + r * (rs - 1 - m) == r * rs - 1 - (r * m + low)
  {
  }

  lemma {:induction false} CarrySnoc(c: seq<Timer>, t: Timer, n: nat)
    ensures Carry(c + [t], n) == Underflows(t, Carry(c, n))
    decreases |c|
  {
    if c == [] {
      assert (c + [t])[1..] == [];
    } else {
      assert (c + [t])[1..] == c[1..] + [t];
      CarrySnoc(c[1..], t, Underflows(c[0], n));
    }
  }

  lemma {:induction false} RunChainAt(c: seq<Timer>, n: nat, j: nat)
    requires j < |c|
    ensures RunChain(c, n)[j] == Ticked(c[j], Carry(c[..j], n))
    decreases |c|
  {
    if j > 0 {
      RunChainAt(c[1..], Underflows(c[0], n), j - 1);
      assert c[..j][1..] == c[1..][..j - 1];
    }
  }

  /** Places p to p + len of the bank are a chain headed by a free timer. */
  ghost predicate Segment(b: Bank, p: Index, len: nat) {
    0 < len && p + len <= 7 && Free(b[p]) && forall q: Index :: p < q < p + len ==> Linked(b[q])
  }

  lemma {:induction false} ShareIsCarry(b: Bank, n: Counts, p: Index, len: nat, j: nat)
    requires Segment(b, p, len) && j < len
    ensures Share(b, n, p + j) == Carry(b[p..p + j], n[p])
  {
    if j > 0 {
      ShareIsCarry(b, n, p, len, j - 1);
      CarrySnoc(b[p..p + j - 1], b[p + j - 1], n[p]);
      assert b[p..p + j] == b[p..p + j - 1] + [b[p + j - 1]];
      assert Linked(b[p + j]);
    }
  }

  /** A chain in a bank runs as a chain by itself. */
  lemma SegmentRuns(b: Bank, n: Counts, a: Bank, p: Index, len: nat)
    requires Shared(b, n, a) && Segment(b, p, len)
    ensures a[p..p + len] == RunChain(b[p..p + len], n[p])
  {
    var c := b[p..p + len];
    forall j | 0 <= j < len ensures a[p + j] == RunChain(c, n[p])[j] {
      assert SharedAt(b, n, a, p + j);
      ShareIsCarry(b, n, p, len, j);
      RunChainAt(c, n[p], j);
      assert c[..j] == b[p..p + j];
    }
  }

  /** A linked, reloading chain in a whole step: its combined value goes down by the head's own
      ticks, modulo the product of the radices. */
  lemma ChainCountsDown(s: Clocks, us: u32, p: Index, len: nat)
    requires Segment(s.bank, p, len) && AllCyclic(s.bank[p..p + len])
    ensures var c, c', n := s.bank[p..p + len], Step(s, us).bank[p..p + len], Own(s.bank[p], s.phase[p], us);
            Value(c') == (Value(c) - n) % Radix(c) && Value(c) < Radix(c)
  {
    var b, n := s.bank, OwnCounts(s, us);
    var c := b[p..p + len];
    SegmentRuns(b, n, Advance(b, n), p, len);
    ChainCounts(c, n[p]);
    Complement(Radix(c), Value(c), n[p]);
  }

  lemma Complement(r: nat, v: nat, n: nat)
    requires v < r
    ensures r - 1 - (r - 1 - v + n) % r == (v - n) % r
  {
    var e := r - 1 - v + n;
    DivFacts(e, r);
    assert v - n == (-(e / r)) * r + (r - 1 - e % r);
    ModUnique(v - n, r, -(e / r), r - 1 - e % r);
  }

  /** How often the timer at place p + j underflows: once each time the chain up to it goes round. */
  lemma ChainUnderflows(b: Bank, n: Counts, p: Index, len: nat, j: nat, c: seq<Timer>)
    requires Segment(b, p, len) && j < len && c == b[p..p + j + 1] && AllCyclic(c)
    ensures Underflows(b[p + j], Share(b, n, p + j)) == (Radix(c) - 1 - Value(c) + n[p]) / Radix(c)
  {
    ChainCounts(c, n[p]);
    CarrySnoc(b[p..p + j], b[p + j], n[p]);
    assert c == b[p..p + j] + [b[p + j]];
    ShareIsCarry(b, n, p, len, j);
  }

  /** The latch bit of the timer at place p + j of the chain, in closed form: it is set exactly
      when it was, or the timer is armed and the chain up to it went round. */
  lemma ChainLatches(s: Clocks, us: u32, p: Index, len: nat, j: nat, c: seq<Timer>)
    requires Segment(s.bank, p, len) && j < len && c == s.bank[p..p + j + 1] && AllCyclic(c)
    ensures var t, rounds := s.bank[p + j], (Radix(c) - 1 - Value(c) + Own(s.bank[p], s.phase[p], us)) / Radix(c);
            Step(s, us).bank[p + j].irq == (t.irq || (t.mode.armed && rounds > 0))
  {
    hide Radix, Value, Carry;
    var b, n := s.bank, OwnCounts(s, us);
    var a := Advance(b, n);
    ChainUnderflows(b, n, p, len, j, c);
    LatchExactly(b[p + j], Share(b, n, p + j));
    assert SharedAt(b, n, a, p + j);
  }
}
