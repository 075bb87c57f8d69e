/** A loop back-edge of recompiled code (src/recomp_exec.c, `lynx_tick`): time advances for the
    timers and the audio channels, which share the Mikey registers, and a pending interrupt is
    entered unless it is masked. */
module Tick {
  import opened Bytes
  import opened Runtime
  import Audio
  import AudioUnit
  import Cpu
  import Interrupts
  import Timers
  import TimerUnit

  const TICK_US: Bytes.u32 := 4

  /** The timers live in the first 32 registers. */
  lemma TimersElsewhere(reg: seq<u8>, reg': seq<u8>, latch: u8)
    requires |reg| == |reg'| == 0x100 && forall k :: 0 <= k < 0x20 ==> reg'[k] == reg[k]
    ensures TimerUnit.BankOf(reg', latch) == TimerUnit.BankOf(reg, latch)
  {
    forall i: Timers.Index ensures TimerUnit.TimerIn(reg', latch, i) == TimerUnit.TimerIn(reg, latch, i) {}
  }

  /** The channels live in the 32 after them. */
  lemma ChannelsElsewhere(reg: seq<u8>, reg': seq<u8>, voice: Audio.Voice, c: AudioUnit.ChannelNo)
    requires |reg| == |reg'| == 0x100 && forall k :: 0x20 <= k < 0x40 ==> reg'[k] == reg[k]
    ensures AudioUnit.ChannelIn(reg', voice, c) == AudioUnit.ChannelIn(reg, voice, c)
  {
  }

  /** Steps timers and audio on the one register file. */
  method AdvanceTime(timers: TimerUnit.MikeyTimers, audio: AudioUnit.AudioChannels)
    requires timers.Valid() && audio.Valid() && audio.reg == timers.reg
    modifies timers.reg, timers.phase, timers`irqLatch, audio.ch
    ensures timers.View() == Timers.Step(old(timers.View()), TICK_US)
    ensures forall c: AudioUnit.ChannelNo :: audio.At(c) == Audio.Step(old(audio.At(c)), TICK_US)
  {
    ghost var start, voices := timers.reg[..], audio.ch[..];
    var latch := timers.TimerStep(TICK_US);
    ghost var mid := timers.reg[..];
    forall c: AudioUnit.ChannelNo ensures audio.At(c) == AudioUnit.ChannelIn(start, voices[c], c) {
      ChannelsElsewhere(start, mid, voices[c], c);
    }
    audio.AudioStep(TICK_US);
    TimersElsewhere(mid, timers.reg[..], timers.irqLatch);
  }

  /** `lynx_tick`, up to the call of the handler at `vec`. */
  method LynxTick(cpu: LynxCpu, timers: TimerUnit.MikeyTimers, audio: AudioUnit.AudioChannels)
    returns (delivered: bool, vec: u16)
    requires cpu.Valid() && timers.Valid() && audio.Valid() && audio.reg == timers.reg
    requires cpu.ram != timers.reg
    modifies cpu, cpu.ram, timers.reg, timers.phase, timers`irqLatch, audio.ch
    ensures timers.View() == Timers.Step(old(timers.View()), TICK_US)
    ensures forall c: AudioUnit.ChannelNo :: audio.At(c) == Audio.Step(old(audio.At(c)), TICK_US)
    ensures delivered <==> timers.irqLatch != 0 && !old(cpu.i)
    ensures cpu.View() == if delivered then Interrupts.IrqEntry(old(cpu.View()), 0) else old(cpu.View())
    ensures delivered ==> vec == Cpu.Read16(old(cpu.View()), 0xFFFE)
  {
    AdvanceTime(timers, audio);
    var pending := timers.IrqPending();
    delivered, vec := pending && !cpu.i, 0;
    if delivered {
      vec := Interrupts.LynxIrqEnter(cpu);
    }
  }

  /** The latch is nonzero exactly when some timer's bit is set. */
  lemma PendingIsSomeTimer(reg: seq<u8>, latch: u8)
    requires |reg| == 0x100
    ensures latch != 0 <==> exists p: Timers.Index :: TimerUnit.BankOf(reg, latch)[p].irq
  {
    var b := TimerUnit.BankOf(reg, latch);
    if latch != 0 {
      if forall k: Timers.Index :: !Bit(latch, k) {
        ByteOfBits(latch, 0);
      }
      var k: Timers.Index :| Bit(latch, k);
      TimerUnit.TimerAt(reg, latch, k);
      assert b[Timers.Place(k)].irq;
    } else {
      forall p: Timers.Index ensures !b[p].irq {}
    }
  }

  /** A tick is four microseconds of the timers, one after the other. */
  lemma TickIsFourSteps(s: Timers.Clocks)
    requires Timers.Fits(s, 4)
    ensures Timers.Step(s, TICK_US) == Timers.Steps(s, 1, 4)
  {
    Timers.StepsAsOne(s, 1, 4);
  }
}
