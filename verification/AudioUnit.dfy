/** The stepping code of src/audio.c on the Mikey registers, proved to leave what module Audio
    says, and the range of the samples. */
module AudioUnit {
  import opened Bytes
  import opened Division
  import opened Audio
  import Timers

  type ChannelNo = c: int | 0 <= c < 4

  const AUD_BASE := 0x20

  // Registers of a channel.
  const VOLUME := 0
  const FEEDBACK := 1
  const DAC := 2
  const SHIFTLO := 3
  const RELOAD := 4
  const CONTROL := 5
  const COUNT := 6
  const OTHER := 7

  function Index(c: ChannelNo, field: nat): (k: nat)
    requires field < 8
    ensures k < 0x40
  {
    AUD_BASE + 8 * c + field
  }

  function SettingsIn(reg: seq<u8>, c: ChannelNo): Settings
    requires |reg| == 0x100
  {
    var ctl := reg[Index(c, CONTROL)];
    Settings(Signed(reg[Index(c, VOLUME)]), SwitchesOf(reg[Index(c, FEEDBACK)], ctl), reg[Index(c, RELOAD)],
             Bit(ctl, 4), Bit(ctl, 3), Bit(ctl, 5), ctl % 8)
  }

  function ChannelIn(reg: seq<u8>, voice: Voice, c: ChannelNo): Channel
    requires |reg| == 0x100
  {
    Channel(SettingsIn(reg, c), reg[Index(c, COUNT)], reg[Index(c, DAC)], voice)
  }

  /** Where a channel's settings lie: eight registers from $20 on, and the bits of its control byte. */
  lemma ChannelLayout(reg: seq<u8>, voice: Voice, c: ChannelNo)
    requires |reg| == 0x100
    ensures var b, ch := 0x20 + 8 * c, ChannelIn(reg, voice, c);
            var ctl := reg[b + 5];
            && ch.cfg.volume == (if reg[b] < 128 then reg[b] as int else reg[b] as int - 256)
            && ch.cfg.switches == SwitchesOf(reg[b + 1], ctl) && ch.dacReg == reg[b + 2]
            && ch.cfg.reload == reg[b + 4] && ch.count == reg[b + 6] && ch.voice == voice
            && ch.cfg.reloads == (ctl / 16 % 2 == 1) && ch.cfg.counting == (ctl / 8 % 2 == 1)
            && ch.cfg.integrate == (ctl / 32 % 2 == 1) && ch.cfg.clock == ctl % 8
  {
  }

  /** Only the count and DAC registers of channel c differ. */
  ghost predicate Kept(before: seq<u8>, after: seq<u8>, c: ChannelNo) {
    && |before| == |after| == 0x100
    && forall k :: 0 <= k < 0x100 && k != Index(c, COUNT) && k != Index(c, DAC) ==> before[k] == after[k]
  }

  /** Only count and DAC registers of channels differ. */
  ghost predicate KeptAll(before: seq<u8>, after: seq<u8>) {
    && |before| == |after| == 0x100
    && forall k :: 0 <= k < 0x100 && (k < 0x20 || k >= 0x40 || (k % 8 != COUNT && k % 8 != DAC)) ==>
         before[k] == after[k]
  }

  lemma KeptNothing(regs: seq<u8>)
    requires |regs| == 0x100
    ensures KeptAll(regs, regs)
  {
  }

  lemma KeptMore(before: seq<u8>, mid: seq<u8>, after: seq<u8>, c: ChannelNo)
    requires KeptAll(before, mid) && Kept(mid, after, c)
    ensures KeptAll(before, after)
  {
    forall k | 0 <= k < 0x100 && (k < 0x20 || k >= 0x40 || (k % 8 != COUNT && k % 8 != DAC))
      ensures before[k] == after[k]
    {
      assert before[k] == mid[k] && k != Index(c, COUNT) && k != Index(c, DAC);
    }
  }

  class AudioChannels {
    const reg: array<u8>
    const ch: array<Voice>

    ghost predicate Valid() { reg.Length == 0x100 && ch.Length == 4 }

    ghost function At(c: ChannelNo): Channel
      requires Valid()
      reads reg, ch
    {
      ChannelIn(reg[..], ch[c], c)
    }

    ghost predicate AllInRange()
      requires Valid()
      reads ch
    {
      forall c: ChannelNo :: InRange(ch[c])
    }

    constructor (reg: array<u8>)
      requires reg.Length == 0x100
      ensures Valid() && this.reg == reg && fresh(ch) && AllInRange()
      ensures forall c: ChannelNo :: ch[c] == Voice(0, 0, 0)
    {
      this.reg := reg;
      ch := new Voice[4](_ => Voice(0, 0, 0));
    }

    /** Loads the twelve shift-register bits from the channel's registers. */
    method Reseed(c: ChannelNo)
      requires Valid()
      modifies ch
      ensures ch[..] == old(ch[..])[c := ch[c]] && ch[c] == old(ch[c]).(lfsr := ch[c].lfsr)
      ensures ch[c].lfsr % 0x100 == reg[0x23 + 8 * c] && ch[c].lfsr / 0x100 == reg[0x27 + 8 * c] / 0x10
      ensures old(AllInRange()) ==> AllInRange()
    {
      var lo: nat, hi: nat := reg[Index(c, SHIFTLO)], reg[Index(c, OTHER)] / 0x10;
      var seed: u16 := lo + 0x100 * hi;
      ch[c] := ch[c].(lfsr := seed);
    }

    /** The inverted feedback bit: the loop over the nine switches. */
    static method FeedbackBit(switches: nat, lfsr: u16) returns (r: bool)
      ensures r == !Parity(switches, lfsr, 0)
    {
      r := false;
      var i := 0;
      while i < 9
        invariant 0 <= i <= 9 && Parity(switches, lfsr, 0) == (r != Parity(switches, lfsr, i))
      {
        if Has(switches, i) { r := r != Has(lfsr, TAP[i]); }
        i := i + 1;
      }
      r := !r;
    }

    /** Clocks the shift register of a channel and updates its output. */
    method ClockLfsr(c: ChannelNo)
      requires Valid()
      modifies reg, ch
      ensures At(c) == Clocked(old(At(c))) && Kept(old(reg[..]), reg[..], c) && ch[..] == old(ch[..])[c := ch[c]]
    {
      var ctl := reg[Index(c, CONTROL)];
      var r := FeedbackBit(SwitchesOf(reg[Index(c, FEEDBACK)], ctl), ch[c].lfsr);
      var shifted: u16 := (2 * ch[c].lfsr + Num(r)) % 0x1000;
      var vol := Signed(reg[Index(c, VOLUME)]);
      var move := if shifted % 2 == 1 then vol else -vol;
      var dac := move;
      if Bit(ctl, 5) {
        dac := ch[c].dac + move;
        if dac > 127 { dac := 127; }
        if dac < -128 { dac := -128; }
      }
      ch[c] := ch[c].(lfsr := shifted, dac := dac);
      reg[Index(c, DAC)] := Byte(dac);
    }

    /** One count of a channel. */
    method TickChannel(c: ChannelNo)
      requires Valid()
      modifies reg, ch
      ensures At(c) == Audio.Tick(old(At(c))) && Kept(old(reg[..]), reg[..], c) && ch[..] == old(ch[..])[c := ch[c]]
    {
      var cnt := reg[Index(c, COUNT)];
      if cnt == 0 {
        if Bit(reg[Index(c, CONTROL)], 4) { reg[Index(c, COUNT)] := reg[Index(c, RELOAD)]; }
        ClockLfsr(c);
      } else {
        reg[Index(c, COUNT)] := cnt - 1;
      }
    }

    /** The while loop of a channel's step. */
    method RunChannel(c: ChannelNo, period: nat)
      requires Valid() && period > 0
      modifies reg, ch
      ensures var x, was := old(ch[c].phase), old(At(c));
              var t := Ticked(was, Timers.Ticks(x, period));
              At(c) == t.(voice := t.voice.(phase := Timers.Rest(x, period)))
      ensures Kept(old(reg[..]), reg[..], c) && ch[..] == old(ch[..])[c := ch[c]]
    {
      ghost var x, done, was := ch[c].phase, 0, At(c);
      while ch[c].phase >= period
        invariant Kept(old(reg[..]), reg[..], c) && ch[..] == old(ch[..])[c := ch[c]]
        invariant done + Timers.Ticks(ch[c].phase, period) == Timers.Ticks(x, period)
        invariant Timers.Rest(ch[c].phase, period) == Timers.Rest(x, period)
        invariant At(c) == Rephased(Ticked(was, done), ch[c].phase)
        decreases ch[c].phase
      {
        DivStep(ch[c].phase, period);
        ch[c] := ch[c].(phase := ch[c].phase - period);
        TickRephased(Ticked(was, done), ch[c].phase);
        TickChannel(c);
        done := done + 1;
      }
      ModUnique(ch[c].phase, period, 0, ch[c].phase);
    }

    /** `lynx_audio_step`: every channel is left as its own step says. */
    method AudioStep(us: u32)
      requires Valid()
      modifies reg, ch
      ensures forall c: ChannelNo :: At(c) == Step(old(At(c)), us)
      ensures KeptAll(old(reg[..]), reg[..])
      ensures old(AllInRange()) ==> AllInRange()
    {
      hide Step, KeptAll, Kept, InRange;
      ghost var was := seq(4, c requires 0 <= c < 4 && Valid() reads reg, ch => At(c));
      KeptNothing(reg[..]);
      var c := 0;
      while c < 4
        invariant 0 <= c <= 4 && KeptAll(old(reg[..]), reg[..])
        invariant forall d: ChannelNo :: At(d) == if d < c then Step(was[d], us) else was[d]
      {
        ghost var mid := reg[..];
        StepChannel(c, us);
        KeptMore(old(reg[..]), mid, reg[..], c);
        c := c + 1;
      }
      forall d: ChannelNo | InRange(was[d].voice) ensures InRange(ch[d]) {
        StepInRange(was[d], us);
      }
    }

    method StepChannel(c: ChannelNo, us: u32)
      requires Valid()
      modifies reg, ch
      ensures At(c) == Step(old(At(c)), us) && forall d: ChannelNo | d != c :: At(d) == old(At(d))
      ensures Kept(old(reg[..]), reg[..], c)
    {
      var ctl := reg[Index(c, CONTROL)];
      if Bit(ctl, 3) && ctl % 8 != 7 {
        ghost var was := At(c);
        ch[c] := ch[c].(phase := Timers.Wrap(ch[c].phase + us));
        TickedPhase(was, ch[c].phase, Timers.Ticks(ch[c].phase, Exp2(ctl % 8)));
        RunChannel(c, Exp2(ctl % 8));
      }
    }

    /** The mix of the four outputs, as a 16-bit sample; in range the clamp never acts. */
    method Sample() returns (s: int)
      requires Valid()
      ensures -0x8000 <= s <= 0x7FFF
      ensures var mix := ch[0].dac + ch[1].dac + ch[2].dac + ch[3].dac;
              && s == Clamp(48 * mix, -0x8000, 0x7FFF)
              && (AllInRange() ==> s == 48 * mix && -24576 <= s <= 24576)
    {
      var mix := ch[0].dac + ch[1].dac + ch[2].dac + ch[3].dac;
      s := mix * 48;
      if s > 32767 { s := 32767; }
      if s < -32768 { s := -32768; }
    }
  }

  function Rephased(c: Channel, phase: u32): Channel { c.(voice := c.voice.(phase := phase)) }

  lemma TickRephased(c: Channel, phase: u32)
    ensures Audio.Tick(Rephased(c, phase)) == Rephased(Audio.Tick(c), phase)
  {
  }
}
