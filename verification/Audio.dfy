/** The four Mikey audio channels (src/audio.c): a down-counter clocking a shift register whose
    low bit adds to or subtracts from the channel's output. */
module Audio {
  import opened Bytes
  import Timers

  /** What the game sets and no step changes. */
  datatype Settings = Settings(volume: int, switches: nat, reload: u8, reloads: bool, counting: bool,
                               integrate: bool, clock: nat)

  /** `(int8_t)x`. */
  function Signed(x: u8): int { if x < 0x80 then x else x - 0x100 }

  /** The nine feedback switches: control bit 7, then the feedback register from its lowest bit. */
  function SwitchesOf(feedback: u8, control: u8): nat {
    control / 0x80 + 2 * (feedback % 0x40) + 0x80 * (feedback / 0x40)
  }

  /** A channel: settings, the two registers a step writes, and the internal state. */
  datatype Channel = Channel(cfg: Settings, count: u8, dacReg: u8, voice: Voice)

  datatype Voice = Voice(lfsr: u16, dac: int, phase: u32)

  /** The tap of each switch. */
  const TAP: seq<nat> := [7, 0, 1, 2, 3, 4, 5, 10, 11]

  /** The exclusive-or of the taps switched on, from switch i up. */
  function Parity(switches: nat, lfsr: nat, i: nat): bool
    requires i <= 9
    decreases 9 - i
  {
    if i == 9 then false
    else (Has(switches, i) && Has(lfsr, TAP[i])) != Parity(switches, lfsr, i + 1)
  }

  /** The shift register clocked once: inverted feedback into the low bit of twelve. */
  function Shifted(switches: nat, lfsr: u16): u16 {
    (2 * lfsr + Num(!Parity(switches, lfsr, 0))) % 0x1000
  }

  function Clamp(x: int, lo: int, hi: int): int { if x > hi then hi else if x < lo then lo else x }

  /** The output after the register was clocked to `lfsr`. */
  function Output(cfg: Settings, dac: int, lfsr: u16): int {
    var move := if lfsr % 2 == 1 then cfg.volume else -cfg.volume;
    if cfg.integrate then Clamp(dac + move, -128, 127) else move
  }

  function Clocked(c: Channel): Channel {
    var lfsr := Shifted(c.cfg.switches, c.voice.lfsr);
    var dac := Output(c.cfg, c.voice.dac, lfsr);
    c.(dacReg := Byte(dac), voice := c.voice.(lfsr := lfsr, dac := dac))
  }

  function Tick(c: Channel): Channel {
    if c.count == 0 then Clocked(c.(count := if c.cfg.reloads then c.cfg.reload else 0))
    else c.(count := c.count - 1)
  }

  function Ticked(c: Channel, n: nat): (r: Channel)
    ensures r.cfg == c.cfg && r.voice.phase == c.voice.phase
  {
    if n == 0 then c else Tick(Ticked(c, n - 1))
  }

  predicate Runs(c: Channel) { c.cfg.counting && c.cfg.clock != 7 }

  function Period(c: Channel): (p: nat)
    ensures p > 0
  {
    Exp2(c.cfg.clock)
  }

  /** A channel after `us` microseconds. */
  function Step(c: Channel, us: u32): Channel {
    if Runs(c) then
      var x := Timers.Wrap(c.voice.phase + us);
      var t := Ticked(c, Timers.Ticks(x, Period(c)));
      t.(voice := t.voice.(phase := Timers.Rest(x, Period(c))))
    else c
  }

  // ---- step-size independence ----

  lemma {:induction false} TickedSum(c: Channel, m: nat, n: nat)
    ensures Ticked(Ticked(c, m), n) == Ticked(c, m + n)
  {
    if n > 0 {
      TickedSum(c, m, n - 1);
    }
  }

  /** Ticks do not look at the phase. */
  lemma {:induction false} TickedPhase(c: Channel, phase: u32, n: nat)
    ensures var d := c.(voice := c.voice.(phase := phase));
            Ticked(d, n) == Ticked(c, n).(voice := Ticked(c, n).voice.(phase := phase))
  {
    if n > 0 {
      TickedPhase(c, phase, n - 1);
    }
  }

  /** Two steps are one, for any settings, as long as the phase does not pass 32 bits. */
  lemma StepSplits(c: Channel, a: u32, b: u32)
    requires a + b < 0x1_0000_0000 && (Runs(c) ==> c.voice.phase + a + b < 0x1_0000_0000)
    ensures Step(Step(c, a), b) == Step(c, a + b)
  {
    if Runs(c) {
      var p, x := Period(c), c.voice.phase;
      var m, mid := Timers.Ticks(Timers.Wrap(x + a), p), Timers.Rest(Timers.Wrap(x + a), p);
      Timers.SplitTicks(x, a, b, p);
      TickedSum(c, m, Timers.Ticks(Timers.Wrap(mid + b), p));
      TickedPhase(Ticked(c, m), mid, Timers.Ticks(Timers.Wrap(mid + b), p));
    }
  }

  // ---- a channel is a timer that clocks a shift register ----

  /** The count register as a timer. */
  function AsTimer(c: Channel): Timers.Timer {
    Timers.Timer(c.cfg.reload, Timers.Mode(false, c.cfg.reloads, c.cfg.counting, c.cfg.clock), c.count, 0, false)
  }

  /** The shift register and output clocked `k` times. */
  function ClockedTimes(c: Channel, k: nat): Channel {
    if k == 0 then c else Clocked(ClockedTimes(c, k - 1))
  }

  /** The count goes as a timer's, and the shift register is clocked at its underflows only. */
  lemma {:induction false} TicksAsTimer(c: Channel, n: nat)
    ensures var t := AsTimer(c);
            && Ticked(c, n).count == Timers.Ticked(t, n).cnt
            && Ticked(c, n) == ClockedTimes(c, Timers.Underflows(t, n)).(count := Ticked(c, n).count)
  {
    if n > 0 {
      TicksAsTimer(c, n - 1);
    }
  }

  /** A reloading channel clocks its shift register once every reload + 1 periods. */
  lemma ClocksInClosedForm(c: Channel, n: nat)
    requires c.cfg.reloads && c.count <= c.cfg.reload
    ensures Ticked(c, n).voice == ClockedTimes(c, (c.cfg.reload - c.count + n) / (c.cfg.reload + 1)).voice
  {
    TicksAsTimer(c, n);
    Timers.CyclicTicks(AsTimer(c), n);
  }

  // ---- ranges ----

  /** Twelve bits of shift register, and an output of at most 128 either way. */
  predicate InRange(v: Voice) { v.lfsr < 0x1000 && -128 <= v.dac <= 128 }

  lemma {:induction false} TickedInRange(c: Channel, n: nat)
    requires InRange(c.voice) && -128 <= c.cfg.volume <= 127
    ensures InRange(Ticked(c, n).voice)
  {
    if n > 0 {
      TickedInRange(c, n - 1);
    }
  }

  /** Every step of every channel stays in range. */
  lemma StepInRange(c: Channel, us: u32)
    requires InRange(c.voice) && -128 <= c.cfg.volume <= 127
    ensures InRange(Step(c, us).voice)
  {
    if Runs(c) {
      TickedInRange(c, Timers.Ticks(Timers.Wrap(c.voice.phase + us), Period(c)));
    }
  }

  /** The bound 128 is met, at volume -128 without integration on a clear low bit. */
  lemma LoudestOutput(cfg: Settings, dac: int, lfsr: u16)
    requires -128 <= cfg.volume <= 127 && -128 <= dac <= 128
    ensures Output(cfg, dac, lfsr) == 128 <==> cfg.volume == -128 && !cfg.integrate && lfsr % 2 == 0
  {
  }

  // ---- the feedback from the registers ----

  /** An odd number of them is true. */
  function Odd(bits: seq<bool>): bool {
    if bits == [] then false else bits[0] != Odd(bits[1..])
  }

  lemma {:induction false} ParityIsOdd(switches: nat, lfsr: nat, bits: seq<bool>, i: nat)
    requires i <= 9 == |bits| && forall j :: 0 <= j < 9 ==> bits[j] == (Has(switches, j) && Has(lfsr, TAP[j]))
    ensures Parity(switches, lfsr, i) == Odd(bits[i..])
    decreases 9 - i
  {
    hide Has;
    if i < 9 {
      ParityIsOdd(switches, lfsr, bits, i + 1);
      assert bits[i..][1..] == bits[i + 1..];
    }
  }

  /** The bits of the shift register that feed back: bit 7 for the control register's top bit, and
      bits 0 to 5, 10 and 11 for the feedback register's bits in order. */
  function FedBack(feedback: u8, control: u8, lfsr: nat): (bits: seq<bool>)
    ensures |bits| == 9
  {
    [Bit(control, 7) && Has(lfsr, 7),
     Bit(feedback, 0) && Has(lfsr, 0), Bit(feedback, 1) && Has(lfsr, 1), Bit(feedback, 2) && Has(lfsr, 2),
     Bit(feedback, 3) && Has(lfsr, 3), Bit(feedback, 4) && Has(lfsr, 4), Bit(feedback, 5) && Has(lfsr, 5),
     Bit(feedback, 6) && Has(lfsr, 10), Bit(feedback, 7) && Has(lfsr, 11)]
  }

  lemma FedBackAt(feedback: u8, control: u8, lfsr: nat, j: nat)
    requires j < 9
    ensures FedBack(feedback, control, lfsr)[j] == (Has(SwitchesOf(feedback, control), j) && Has(lfsr, TAP[j]))
  {
    hide SwitchesOf, Has, Bit;
    if j == 0 { LowSwitch(feedback, control); } else { OtherSwitch(feedback, control, j - 1); }
  }

  /** The register is clocked with the inverse of their exclusive-or. */
  lemma FeedbackBits(feedback: u8, control: u8, lfsr: nat)
    ensures Parity(SwitchesOf(feedback, control), lfsr, 0) == Odd(FedBack(feedback, control, lfsr))
  {
    hide SwitchesOf, Has, Odd, FedBack, Parity;
    var sw, bits := SwitchesOf(feedback, control), FedBack(feedback, control, lfsr);
    forall j: nat | j < 9
      ensures bits[j] == (Has(sw, j) && Has(lfsr, TAP[j]))
    {
      FedBackAt(feedback, control, lfsr, j);
    }
    ParityIsOdd(sw, lfsr, bits, 0);
    assert bits[0..] == bits;
  }

  lemma LowSwitch(feedback: u8, control: u8)
    ensures Has(SwitchesOf(feedback, control), 0) == Bit(control, 7)
  {
  }

  lemma OtherSwitch(feedback: u8, control: u8, k: nat)
    requires k < 8
    ensures Has(SwitchesOf(feedback, control), k + 1) == Bit(feedback, k)
  {
    var sw := SwitchesOf(feedback, control);
    assert sw / 2 == feedback % 0x40 + 0x40 * (feedback / 0x40) == feedback;
    HasIsBit(feedback, k);
  }

  lemma {:induction false} HasIsBit(x: nat, k: nat)
    requires k < 8
    ensures Has(x, k) == Bit(x, k)
  {
    if k > 0 {
      HasIsBit(x / 2, k - 1);
      BitOfHalf(x, k);
    }
  }
}
