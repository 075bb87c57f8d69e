/** The stepping code of src/timer.c on the Mikey registers, proved to leave what the closed
    form of module Timers says. */
module TimerUnit {
  import opened Bytes
  import opened Division
  import opened Timers

  /** Timer number i in the registers, four to a timer, and the latch. */
  function TimerIn(reg: seq<u8>, latch: u8, i: Index): Timer
    requires |reg| == 0x100
  {
    Timer(reg[4 * i], ModeOf(reg[4 * i + 1]), reg[4 * i + 2], reg[4 * i + 3], Bit(latch, i))
  }

  /** The timer at a place of the chain. */
  function AtPlace(p: Index): (i: Index)
    ensures Place(i) == p
  {
    match p
    case 0 => 0
    case 1 => 2
    case 2 => 4
    case 3 => 1
    case 4 => 3
    case 5 => 5
    case 6 => 7
    case _ => 6
  }

  function BankOf(reg: seq<u8>, latch: u8): Bank
    requires |reg| == 0x100
  {
    seq(8, p requires 0 <= p < 8 => TimerIn(reg, latch, AtPlace(p)))
  }

  lemma TimerAt(reg: seq<u8>, latch: u8, i: Index)
    requires |reg| == 0x100
    ensures BankOf(reg, latch)[Place(i)] == TimerIn(reg, latch, i)
  {
    assert AtPlace(Place(i)) == i;
  }

  /** Only count and control B registers of timers differ. */
  ghost predicate Kept(before: seq<u8>, after: seq<u8>) {
    |before| == |after| == 0x100 && forall k :: 0 <= k < 0x100 && (k >= 32 || k % 4 < 2) ==> before[k] == after[k]
  }

  /** TCTLB_DONE and TCTLB_BORROWOUT. */
  const DONE_BORROW: u8 := 0x09

  lemma {:induction false} FlaggedBits(x: u8, k: nat)
    requires k < 8
    ensures Bit(Flagged(x), k) == (Bit(x, k) || k == 0 || k == 3)
  {
    Bit0Only(x, k);
    Bit3Only(SetBit0(x), k);
  }

  lemma Bit0Only(x: u8, k: nat)
    requires k < 8
    ensures Bit(SetBit0(x), k) == (Bit(x, k) || k == 0)
  {
    if k > 0 && !Bit(x, 0) {
      assert (x + 1) / 2 == x / 2;
      BitOfHalf(x, k);
      BitOfHalf(x + 1, k);
    }
  }

  lemma Bit3Only(x: u8, k: nat)
    requires k < 8
    ensures Bit(SetBit3(x), k) == (Bit(x, k) || k == 3)
  {
    if !Bit(x, 3) {
      if k > 3 {
        SameHighPart(x);
        HighBits(x, k);
        HighBits(x + 8, k);
      } else if k < 3 {
        LowBits(x, k);
      }
    }
  }

  lemma SameHighPart(x: nat)
    requires (x / 8) % 2 == 0
    ensures (x + 8) / 16 == x / 16
  {
  }

  lemma HighBits(x: nat, k: nat)
    requires 3 < k < 8
    ensures Bit(x, k) == Bit(x / 16, k - 4)
  {
    Halves(x);
    BitOfHalf(x, k);
    BitOfHalf(x / 2, k - 1);
    BitOfHalf(x / 4, k - 2);
    BitOfHalf(x / 8, k - 3);
  }

  lemma LowBits(x: nat, k: nat)
    requires k < 3
    ensures Bit(x + 8, k) == Bit(x, k)
  {
    match k
    case 0 =>
    case 1 => assert (x + 8) / 2 == x / 2 + 4;
    case 2 => assert (x + 8) / 4 == x / 4 + 2;
  }

  /** The bits of TCTLB_DONE | TCTLB_BORROWOUT are those `Flagged` sets. */
  lemma FlagsAreOr(x: u8)
    ensures Or(x, DONE_BORROW) == Flagged(x)
  {
    hide Or, Flagged, Exp2;
    var r, f := Or(x, DONE_BORROW), Flagged(x);
    forall k: nat | k < 8 ensures Bit(r, k) == Bit(f, k) {
      BitOfOr(x, DONE_BORROW, k);
      FlaggedBits(x, k);
    }
    ByteOfBits(r, f);
  }

  /** New count, control B and latch bit of timer i: a new timer at its place. */
  lemma BankUpdate(reg: seq<u8>, latch: u8, i: Index, cnt: u8, ctlB: u8, latch': u8)
    requires |reg| == 0x100 && forall k: Index :: k != i ==> Bit(latch', k) == Bit(latch, k)
    ensures var b := BankOf(reg, latch);
            BankOf(reg[4 * i + 2 := cnt][4 * i + 3 := ctlB], latch') ==
            b[Place(i) := b[Place(i)].(cnt := cnt, ctlB := ctlB, irq := Bit(latch', i))]
  {
    var b, b' := BankOf(reg, latch), BankOf(reg[4 * i + 2 := cnt][4 * i + 3 := ctlB], latch');
    forall p: Index | p != Place(i) ensures b'[p] == b[p] {
      assert AtPlace(p) != i;
    }
    assert AtPlace(Place(i)) == i;
  }

  class MikeyTimers {
    const reg: array<u8>
    const phase: array<u32>
    var irqLatch: u8

    ghost predicate Valid() { reg.Length == 0x100 && phase.Length == 8 }

    ghost function Bank(): Bank
      requires Valid()
      reads this, reg
    {
      BankOf(reg[..], irqLatch)
    }

    /** Registers and phases in chain order. */
    ghost function View(): Clocks
      requires Valid()
      reads this, reg, phase
    {
      Clocks(Bank(), seq(8, p requires 0 <= p < 8 reads phase requires Valid() => phase[AtPlace(p)]))
    }

    constructor (reg: array<u8>)
      requires reg.Length == 0x100
      ensures Valid() && this.reg == reg && fresh(phase) && irqLatch == 0
      ensures View().phase == seq(8, _ => 0)
    {
      this.reg, irqLatch := reg, 0;
      phase := new u32[8](_ => 0);
    }

    method IrqPending() returns (r: bool)
      ensures r <==> irqLatch != 0
    {
      r := irqLatch != 0;
    }

    /** Clears the bits of `mask` in the latch. */
    method IrqAck(mask: u8)
      modifies `irqLatch
      ensures forall k: Index :: Bit(irqLatch, k) == (Bit(old(irqLatch), k) && !Bit(mask, k))
    {
      forall k: Index ensures Bit(And(irqLatch, 0xFF - mask), k) == (Bit(irqLatch, k) && !Bit(mask, k)) {
        BitOfAndNot(irqLatch, mask, k);
      }
      irqLatch := And(irqLatch, 0xFF - mask);
    }

    /** Sets the bits of `mask` in the latch. */
    method IrqRaise(mask: u8)
      modifies `irqLatch
      ensures forall k: Index :: Bit(irqLatch, k) == (Bit(old(irqLatch), k) || Bit(mask, k))
    {
      forall k: Index ensures Bit(Or(irqLatch, mask), k) == (Bit(irqLatch, k) || Bit(mask, k)) {
        BitOfOr(irqLatch, mask, k);
      }
      irqLatch := Or(irqLatch, mask);
    }

    /** `ctlB |= TCTLB_DONE | TCTLB_BORROWOUT`. */
    static method SetDone(ctlB: u8) returns (r: u8)
      ensures r == Flagged(ctlB)
    {
      r := Or(ctlB, DONE_BORROW);
      FlagsAreOr(ctlB);
    }

    /** `lynx_irq_latch |= 1u << i`. */
    method RaiseTimer(i: Index)
      modifies `irqLatch
      ensures forall k: Index :: Bit(irqLatch, k) == (Bit(old(irqLatch), k) || k == i)
    {
      forall k: Index ensures Bit(Or(irqLatch, Mask(i)), k) == (Bit(irqLatch, k) || k == i) {
        BitOfOrMask(irqLatch, i, k);
      }
      irqLatch := Or(irqLatch, Mask(i));
    }

    /** One count tick of timer i. */
    method Tick(i: Index)
      requires Valid()
      modifies reg, `irqLatch
      ensures Bank() == Cascade(old(Bank()), Place(i)) && Kept(old(reg[..]), reg[..])
      decreases 8 - Place(i)
    {
      TimerAt(reg[..], irqLatch, i);
      if reg[4 * i + 2] == 0 {
        Underflow(i);
        SuccOfPlace(i, i);
        var succ := LINK_SUCC[i];
        if succ >= 0 {
          var nA := reg[4 * succ + 1];
          TimerAt(reg[..], irqLatch, succ);
          if Bit(nA, 3) && nA % 8 == 7 {
            Tick(succ);
          }
        }
      } else {
        CountDown(i);
      }
    }

    /** `(*cnt)--`. */
    method CountDown(i: Index)
      requires Valid() && reg[4 * i + 2] > 0
      modifies reg
      ensures Bank() == old(Bank())[Place(i) := TickOne(old(Bank())[Place(i)])] && Kept(old(reg[..]), reg[..])
    {
      ghost var was: seq<u8>, flags: u8 := reg[..], reg[4 * i + 3];
      TimerAt(was, irqLatch, i);
      var less: u8 := reg[4 * i + 2] - 1;
      BankUpdate(was, irqLatch, i, less, flags, irqLatch);
      reg[4 * i + 2] := less;
      assert reg[..] == was[4 * i + 2 := less][4 * i + 3 := flags];
    }

    /** Reload, flags and interrupt of an underflow. */
    method Underflow(i: Index)
      requires Valid() && reg[4 * i + 2] == 0
      modifies reg, `irqLatch
      ensures Bank() == old(Bank())[Place(i) := TickOne(old(Bank())[Place(i)])] && Kept(old(reg[..]), reg[..])
    {
      ghost var was: seq<u8>, latch: u8 := reg[..], irqLatch;
      Reflag(i);
      if Bit(reg[4 * i + 1], 7) { RaiseTimer(i); }
      UnderflowInBank(was, latch, i, reg[..], irqLatch);
    }

    method Reflag(i: Index)
      requires Valid() && reg[4 * i + 2] == 0
      modifies reg
      ensures reg[..] == Reflagged(old(reg[..]), i)
    {
      if Bit(reg[4 * i + 1], 4) { reg[4 * i + 2] := reg[4 * i]; }
      reg[4 * i + 3] := SetDone(reg[4 * i + 3]);
    }

    /** One period of timer i off its phase, and one tick. */
    method CountOnce(i: Index, period: nat, ghost b: Timers.Bank, ghost n: Counts) returns (ghost n': Counts)
      requires Valid() && 0 < period <= phase[i] && Free(b[Place(i)]) && Shared(b, n, Bank())
      modifies reg, phase, `irqLatch
      ensures n' == n[Place(i) := n[Place(i)] + 1] && Shared(b, n', Bank())
      ensures phase[..] == old(phase[..])[i := phase[i]] && phase[i] == old(phase[i]) - period
      ensures Kept(old(reg[..]), reg[..])
    {
      phase[i] := phase[i] - period;
      n' := n[Place(i) := n[Place(i)] + 1];
      TickAdvances(b, n, Bank(), n', Place(i));
      Tick(i);
    }

    /** The counts of one free timer: the while loop of the step. */
    method RunTimer(i: Index, period: nat, ghost b: Timers.Bank, ghost n: Counts) returns (ghost n': Counts)
      requires Valid() && period > 0 && Free(b[Place(i)]) && n[Place(i)] == 0 && Shared(b, n, Bank())
      modifies reg, phase, `irqLatch
      ensures n' == n[Place(i) := Ticks(old(phase[i]), period)] && Shared(b, n', Bank())
      ensures phase[..] == old(phase[..])[i := Rest(old(phase[i]), period)] && Kept(old(reg[..]), reg[..])
    {
      ghost var x, done := phase[i], 0;
      n' := n;
      while phase[i] >= period
        invariant Kept(old(reg[..]), reg[..]) && phase[..] == old(phase[..])[i := phase[i]]
        invariant done + Ticks(phase[i], period) == Ticks(x, period) && Rest(phase[i], period) == Rest(x, period)
        invariant n' == n[Place(i) := done] && Shared(b, n', Bank())
      {
        DivStep(phase[i], period);
        n' := CountOnce(i, period, b, n');
        done := done + 1;
      }
      ModUnique(phase[i], period, 0, phase[i]);
    }

    /** Timer i in one step. */
    method StepTimer(i: Index, us: u32, ghost b: Timers.Bank, ghost n: Counts) returns (ghost n': Counts)
      requires Valid() && n[Place(i)] == 0 && Shared(b, n, Bank())
      modifies reg, phase, `irqLatch
      ensures n' == n[Place(i) := Own(b[Place(i)], old(phase[i]), us)] && Shared(b, n', Bank())
      ensures phase[..] == old(phase[..])[i := PhaseAfter(b[Place(i)], old(phase[i]), us)]
      ensures Kept(old(reg[..]), reg[..])
    {
      n' := n;
      var ctlA := reg[4 * i + 1];
      assert SharedAt(b, n, Bank(), Place(i));
      TimerAt(reg[..], irqLatch, i);
      if Bit(ctlA, 3) && ctlA % 8 != 7 {
        var period := Exp2(ctlA % 8);
        phase[i] := Wrap(phase[i] + us);
        n' := RunTimer(i, period, b, n);
      }
    }

    /** `lynx_timer_step`: the loop over the timers leaves the closed form. */
    method TimerStep(us: u32) returns (latch: u8)
      requires Valid()
      modifies reg, phase, `irqLatch
      ensures View() == Step(old(View()), us) && latch == irqLatch && Kept(old(reg[..]), reg[..])
    {
      ghost var s, n: Counts := View(), seq(8, _ => 0);
      assert Shared(s.bank, n, Bank()) by { NothingShared(s.bank, n); }
      var i := 0;
      while i < 8
        invariant 0 <= i <= 8 && Kept(old(reg[..]), reg[..]) && Shared(s.bank, n, Bank())
        invariant forall p: Index :: n[p] == if AtPlace(p) < i then Own(s.bank[p], s.phase[p], us) else 0
        invariant forall p: Index :: phase[AtPlace(p)] ==
                    if AtPlace(p) < i then PhaseAfter(s.bank[p], s.phase[p], us) else s.phase[p]
      {
        n := StepTimer(i, us, s.bank, n);
        i := i + 1;
      }
      latch := irqLatch;
      assert n == OwnCounts(s, us);
      SharedIsAdvance(s.bank, n, Bank());
    }
  }

  lemma NothingShared(b: Bank, n: Counts)
    requires forall p: Index :: n[p] == 0
    ensures Shared(b, n, b)
  {
    forall k: Index ensures Share(b, n, k) == 0 {
      NoShare(b, n, k);
    }
    forall k: Index ensures SharedAt(b, n, b, k) {}
  }

  lemma {:induction false} NoShare(b: Bank, n: Counts, k: Index)
    requires forall p: Index :: n[p] == 0
    ensures Share(b, n, k) == 0
    decreases k
  {
    if Pred(k) >= 0 {
      NoShare(b, n, Pred(k));
    }
  }

  /** The registers after an underflow of timer i. */
  function Reflagged(reg: seq<u8>, i: Index): (r: seq<u8>)
    requires |reg| == 0x100
    ensures |r| == 0x100
  {
    var count := if Bit(reg[4 * i + 1], 4) then reg[4 * i] else reg[4 * i + 2];
    reg[4 * i + 2 := count][4 * i + 3 := Flagged(reg[4 * i + 3])]
  }

  lemma UnderflowInBank(reg: seq<u8>, latch: u8, i: Index, reg': seq<u8>, latch': u8)
    requires |reg| == 0x100 && reg[4 * i + 2] == 0 && reg' == Reflagged(reg, i)
    requires forall k: Index :: Bit(latch', k) == (Bit(latch, k) || (k == i && Bit(reg[4 * i + 1], 7)))
    ensures BankOf(reg', latch') == BankOf(reg, latch)[Place(i) := TickOne(BankOf(reg, latch)[Place(i)])]
    ensures Kept(reg, reg')
  {
    TimerAt(reg, latch, i);
    var flags: u8 := Flagged(reg[4 * i + 3]);
    var cnt: u8 := if Bit(reg[4 * i + 1], 4) then reg[4 * i] else 0;
    BankUpdate(reg, latch, i, cnt, flags, latch');
  }

  /** The status bits of a timer after `n` ticks: done and borrow-out are set exactly when they were or
      the timer underflowed, armed or not, and no other bit changes. */
  lemma {:induction false} DoneExactly(t: Timer, n: nat, k: nat)
    requires k < 8
    ensures Bit(Ticked(t, n).ctlB, k) <==> Bit(t.ctlB, k) || ((k == 0 || k == 3) && Underflows(t, n) > 0)
  {
    hide Flagged;
    if n > 0 {
      DoneExactly(t, n - 1, k);
      FlaggedBits(Ticked(t, n - 1).ctlB, k);
    }
  }
}
