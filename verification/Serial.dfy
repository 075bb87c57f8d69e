/** The ComLynx UART (src/serial.c): what each register access does to the port, then the port
    itself with its 256-byte ring, proved to be a queue of at most 255 bytes. */
module Serial {
  import opened Bytes
  import opened TimerUnit
  import opened Timers

  const RXFIFO_SIZE := 256
  const CAPACITY := 255

  /** The port as a caller sees it: the last control byte, the sticky overrun flag, the bytes
      received and not yet read, and the shared interrupt bit. */
  datatype Port = Port(ctrl: u8, overrun: bool, queue: seq<u8>, irq: bool)

  predicate RxInten(ctrl: u8) { Bit(ctrl, 6) }
  predicate TxInten(ctrl: u8) { Bit(ctrl, 7) }
  predicate ResetErr(ctrl: u8) { Bit(ctrl, 3) }

  /** A waiting byte interrupts when receive interrupts are armed. */
  function Service(p: Port): Port { p.(irq := p.irq || (p.queue != [] && RxInten(p.ctrl))) }

  predicate Full(p: Port) { |p.queue| >= CAPACITY }

  function Receive(p: Port, b: u8): Port {
    if Full(p) then p.(overrun := true) else Service(p.(queue := p.queue + [b]))
  }

  /** Reading SERDAT: the port after it and the byte read, 0 when none waits. */
  function ReadData(p: Port): (Port, u8) {
    if p.queue == [] then (p, 0) else (Service(p.(queue := p.queue[1..])), p.queue[0])
  }

  /** TXRDY and TXEMPTY always; RXRDY and OVERRUN as the port is. */
  function Status(p: Port): u8 {
    0xA0 + (if p.queue != [] then 0x40 else 0) + (if p.overrun then 0x08 else 0)
  }

  function WriteData(p: Port): Port { p.(irq := p.irq || TxInten(p.ctrl)) }

  function WriteControl(p: Port, v: u8): Port {
    Service(p.(ctrl := v, overrun := p.overrun && !ResetErr(v)))
  }

  // ---- the ring ----

  /** The bytes of a ring from `head` to `tail`. */
  function Ring(fifo: seq<u8>, head: nat, tail: nat): seq<u8>
    requires head < |fifo| && tail < |fifo|
  {
    if head <= tail then fifo[head..tail] else fifo[head..] + fifo[..tail]
  }

  function Next(k: nat): nat { (k + 1) % RXFIFO_SIZE }

  lemma RingPut(fifo: seq<u8>, head: nat, tail: nat, b: u8)
    requires |fifo| == RXFIFO_SIZE && head < RXFIFO_SIZE && tail < RXFIFO_SIZE && Next(tail) != head
    ensures Ring(fifo[tail := b], head, Next(tail)) == Ring(fifo, head, tail) + [b]
  {
    hide Next;
    NextOf(tail);
    var put := fifo[tail := b];
    if head <= tail {
      assert put[head..tail + 1] == fifo[head..tail] + [b];
      if tail + 1 == RXFIFO_SIZE { assert put[head..] + put[..0] == put[head..tail + 1]; }
    } else {
      assert put[head..] == fifo[head..] && put[..tail + 1] == fifo[..tail] + [b];
    }
  }

  lemma FrontOf(fifo: seq<u8>, i: nat, j: nat)
    requires i < j <= |fifo|
    ensures fifo[i..j] == [fifo[i]] + fifo[i + 1..j]
  {
  }

  lemma NextOf(k: nat)
    requires k < RXFIFO_SIZE
    ensures Next(k) == if k + 1 == RXFIFO_SIZE then 0 else k + 1
  {
  }

  /** The first byte of a ring that wraps. */
  lemma TakeWrapped(fifo: seq<u8>, head: nat, next: nat, tail: nat)
    requires tail < head < |fifo| && next == if head + 1 == |fifo| then 0 else head + 1
    ensures Ring(fifo, head, tail) == [fifo[head]] + Ring(fifo, next, tail)
  {
    if head + 1 == |fifo| {
      assert fifo[head..] == [fifo[head]] && fifo[0..tail] == fifo[..tail];
    } else {
      var rest, wrapped := fifo[head + 1..], fifo[..tail];
      assert fifo[head..] == [fifo[head]] + rest;
      assert ([fifo[head]] + rest) + wrapped == [fifo[head]] + (rest + wrapped);
    }
  }

  lemma RingTake(fifo: seq<u8>, head: nat, tail: nat)
    requires |fifo| == RXFIFO_SIZE && head < RXFIFO_SIZE && tail < RXFIFO_SIZE && head != tail
    ensures Ring(fifo, head, tail) == [fifo[head]] + Ring(fifo, Next(head), tail)
  {
    hide Next;
    NextOf(head);
    if head < tail {
      FrontOf(fifo, head, tail);
    } else {
      hide Ring;
      TakeWrapped(fifo, head, Next(head), tail);
    }
  }

  lemma RingSize(fifo: seq<u8>, head: nat, tail: nat)
    requires |fifo| == RXFIFO_SIZE && head < RXFIFO_SIZE && tail < RXFIFO_SIZE
    ensures |Ring(fifo, head, tail)| <= CAPACITY
    ensures Ring(fifo, head, tail) == [] <==> head == tail
    ensures |Ring(fifo, head, tail)| == CAPACITY <==> Next(tail) == head
  {
  }

  const SERIAL_IRQ := 4   // the UART shares timer 4's latch bit
  const OVERRUN: u8 := 0x08

  class Uart {
    const latch: MikeyTimers
    var ctrl: u8
    var statusErr: u8
    const rxFifo: array<u8>
    var rxHead: nat
    var rxTail: nat

    ghost predicate Valid()
      reads this
    {
      rxFifo.Length == RXFIFO_SIZE && rxHead < RXFIFO_SIZE && rxTail < RXFIFO_SIZE && statusErr in {0, OVERRUN}
    }

    ghost function View(): Port
      requires Valid()
      reads this, rxFifo, latch
    {
      Port(ctrl, statusErr == 0x08, Ring(rxFifo[..], rxHead, rxTail), Bit(latch.irqLatch, 4))
    }

    constructor (latch: MikeyTimers)
      ensures Valid() && this.latch == latch && fresh(rxFifo)
      ensures View() == Port(0, false, [], Bit(latch.irqLatch, SERIAL_IRQ))
    {
      this.latch, ctrl, statusErr, rxHead, rxTail := latch, 0, 0, 0, 0;
      rxFifo := new u8[RXFIFO_SIZE](_ => 0);
    }

    method RxEmpty() returns (r: bool)
      requires Valid()
      ensures r <==> View().queue == []
    {
      RingSize(rxFifo[..], rxHead, rxTail);
      r := rxHead == rxTail;
    }

    method Raise()
      modifies latch`irqLatch
      ensures Bit(latch.irqLatch, SERIAL_IRQ)
      ensures forall k: Index :: k != SERIAL_IRQ ==> Bit(latch.irqLatch, k) == Bit(old(latch.irqLatch), k)
    {
      latch.RaiseTimer(SERIAL_IRQ);
    }

    method RxService()
      requires Valid()
      modifies latch`irqLatch
      ensures View() == Service(old(View()))
    {
      var empty := RxEmpty();
      if !empty && Bit(ctrl, 6) { Raise(); }
    }

    /** `lynx_serial_rx_push`. */
    method RxPush(b: u8)
      requires Valid()
      modifies this, rxFifo, latch`irqLatch
      ensures Valid() && View() == Receive(old(View()), b)
    {
      RingSize(rxFifo[..], rxHead, rxTail);
      var next := (rxTail + 1) % RXFIFO_SIZE;
      if next == rxHead {
        statusErr := OVERRUN;
        return;
      }
      RingPut(rxFifo[..], rxHead, rxTail, b);
      rxFifo[rxTail] := b;
      rxTail := next;
      RxService();
    }

    /** `lynx_serial_read(SERDAT)`. */
    method ReadSerdat() returns (b: u8)
      requires Valid()
      modifies this, latch`irqLatch
      ensures Valid() && (View(), b) == ReadData(old(View()))
    {
      var empty := RxEmpty();
      if empty { return 0; }
      RingTake(rxFifo[..], rxHead, rxTail);
      b := rxFifo[rxHead];
      rxHead := (rxHead + 1) % RXFIFO_SIZE;
      RxService();
    }

    /** `lynx_serial_read(SERCTL)`. */
    method ReadSerctl() returns (st: u8)
      requires Valid()
      ensures st == Status(View())
    {
      var empty := RxEmpty();
      st := 0xA0;
      if !empty { st := st + 0x40; }
      if statusErr == OVERRUN { st := st + OVERRUN; }
    }

    /** `lynx_serial_write(SERDAT)`: the byte goes to the transmit hook. */
    method WriteSerdat(v: u8) returns (sent: u8)
      requires Valid()
      modifies latch`irqLatch
      ensures View() == WriteData(old(View())) && sent == v
    {
      sent := v;
      if Bit(ctrl, 7) { Raise(); }
    }

    /** `lynx_serial_write(SERCTL)`. */
    method WriteSerctl(v: u8)
      requires Valid()
      modifies this, latch`irqLatch
      ensures Valid() && View() == WriteControl(old(View()), v)
    {
      ctrl := v;
      if Bit(v, 3) { statusErr := 0; }
      RxService();
    }
  }
}
