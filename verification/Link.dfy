/** Two consoles joined by the ComLynx bridge (frontend/src/net.c): each unit's transmit hook
    feeds the other's channel, and each pump drains a channel into the UART. The transport in
    between is a reliable stream that delivers any prefix of what was sent and not yet taken. */
module Link {
  import opened Bytes
  import opened Serial

  // ---- one port over a run of accesses ----

  datatype Access = Push(b: u8) | Take | Poll | Send(v: u8) | Control(v: u8)

  function After(p: Port, e: Access): Port {
    match e
    case Push(b) => Receive(p, b)
    case Take => ReadData(p).0
    case Poll => p
    case Send(_) => WriteData(p)
    case Control(v) => WriteControl(p, v)
  }

  function Run(p: Port, es: seq<Access>): Port {
    if es == [] then p else After(Run(p, es[..|es| - 1]), es[|es| - 1])
  }

  /** The bytes pushed and accepted, and the bytes read, in order. */
  function Accepted(p: Port, es: seq<Access>): seq<u8> {
    if es == [] then [] else
      var q, e := Run(p, es[..|es| - 1]), es[|es| - 1];
      Accepted(p, es[..|es| - 1]) + if e.Push? && !Full(q) then [e.b] else []
  }

  function Taken(p: Port, es: seq<Access>): seq<u8> {
    if es == [] then [] else
      var q, e := Run(p, es[..|es| - 1]), es[|es| - 1];
      Taken(p, es[..|es| - 1]) + if e.Take? && q.queue != [] then [ReadData(q).1] else []
  }

  lemma Reassociate(q0: seq<u8>, acc: seq<u8>, taken: seq<u8>, q: seq<u8>, b: u8)
    requires q0 + acc == taken + q
    ensures q0 + (acc + [b]) == taken + (q + [b])
  {
    assert q0 + (acc + [b]) == (q0 + acc) + [b] && taken + (q + [b]) == (taken + q) + [b];
  }

  /** First in, first out: what was waiting and what was accepted is what was read and what
      still waits, in the same order; and no more than 255 bytes ever wait. */
  lemma {:induction false} FirstInFirstOut(p: Port, es: seq<Access>)
    requires |p.queue| <= CAPACITY
    ensures p.queue + Accepted(p, es) == Taken(p, es) + Run(p, es).queue
    ensures |Run(p, es).queue| <= CAPACITY
  {
    if es != [] {
      var front, e := es[..|es| - 1], es[|es| - 1];
      FirstInFirstOut(p, front);
      var q, acc, taken := Run(p, front).queue, Accepted(p, front), Taken(p, front);
      assert acc + [] == acc && taken + [] == taken;
      match e {
        case Push(b) => if |q| < CAPACITY { Reassociate(p.queue, acc, taken, q, b); }
        case Take => if q != [] { assert taken + q == (taken + [q[0]]) + q[1..]; }
        case _ =>
      }
    }
  }

  predicate Clears(e: Access) { e.Control? && ResetErr(e.v) }

  /** Was the push at k refused? */
  predicate Refused(p: Port, es: seq<Access>, k: nat)
    requires k < |es|
  {
    es[k].Push? && Full(Run(p, es[..k]))
  }

  /** A refused push after which the error was not reset. */
  ghost predicate LostSinceReset(p: Port, es: seq<Access>) {
    exists k :: 0 <= k < |es| && Refused(p, es, k) && forall j :: k < j < |es| ==> !Clears(es[j])
  }

  lemma OverrunStep(q: Port, e: Access)
    ensures After(q, e).overrun == ((q.overrun && !Clears(e)) || (e.Push? && Full(q)))
  {
  }

  /** OVERRUN is set exactly when a byte was refused, or the flag was set at the start, and no
      reset came since. */
  lemma {:induction false} OverrunExactly(p: Port, es: seq<Access>)
    ensures Run(p, es).overrun <==>
            LostSinceReset(p, es) || (p.overrun && forall j :: 0 <= j < |es| ==> !Clears(es[j]))
  {
    hide After, Full, ResetErr;
    if es != [] {
      var m := |es| - 1;
      OverrunStep(Run(p, es[..m]), es[m]);
      var front, q := es[..m], Run(p, es[..m]);
      OverrunExactly(p, front);
      forall k: nat | k < m ensures Refused(p, es, k) == Refused(p, front, k) {
        assert es[..k] == front[..k];
      }
      assert Run(p, es).overrun == ((q.overrun && !Clears(es[m])) || Refused(p, es, m));
      if Clears(es[m]) {
        assert !LostSinceReset(p, es);
      } else {
        assert LostSinceReset(p, es) <== LostSinceReset(p, front) by {
          if LostSinceReset(p, front) {
            var k :| 0 <= k < m && Refused(p, front, k) && forall j :: k < j < m ==> !Clears(front[j]);
            assert Refused(p, es, k);
          }
        }
      }
    }
  }

  // ---- the receive interrupt ----

  /** A waiting byte has interrupted if receive interrupts are armed. */
  predicate Serviced(p: Port) { p.queue != [] && Bit(p.ctrl, 6) ==> p.irq }

  /** An access that brings or takes a byte, or writes the control register, sees to that, even if the
      interrupt was acknowledged before. */
  lemma AccessServices(p: Port, e: Access)
    requires e.Control? || (e.Push? && |p.queue| < 255) || (e.Take? && p.queue != [])
    ensures Serviced(After(p, e))
  {
  }

  /** And no run of accesses undoes it. */
  lemma {:induction false} StaysServiced(p: Port, es: seq<Access>)
    requires Serviced(p)
    ensures Serviced(Run(p, es))
  {
    if es != [] {
      StaysServiced(p, es[..|es| - 1]);
    }
  }

  /** The interrupt bit is set by nothing else: a byte waiting with receive interrupts armed, or a byte
      sent with transmit interrupts armed. */
  lemma InterruptHasCause(p: Port, e: Access)
    requires !p.irq && After(p, e).irq
    ensures var q := After(p, e); (q.queue != [] && Bit(q.ctrl, 6)) || (e.Send? && Bit(q.ctrl, 7))
  {
  }

  // ---- subsequences ----

  /** `s` is `t` with some elements left out. */
  predicate Within(s: seq<u8>, t: seq<u8>)
    decreases |t|
  {
    if t == [] then s == []
    else Within(s, t[..|t| - 1]) ||
         (s != [] && s[|s| - 1] == t[|t| - 1] && Within(s[..|s| - 1], t[..|t| - 1]))
  }

  lemma WithinSnoc(s: seq<u8>, t: seq<u8>, b: u8)
    requires Within(s, t)
    ensures Within(s, t + [b]) && Within(s + [b], t + [b])
  {
    assert (t + [b])[..|t|] == t && (s + [b])[..|s|] == s;
  }

  lemma {:induction false} WithinConcat(s: seq<u8>, t: seq<u8>, more: seq<u8>)
    requires Within(s, t)
    ensures Within(s + more, t + more)
    decreases |more|
  {
    if more == [] {
      assert s + more == s && t + more == t;
    } else {
      var front, b := more[..|more| - 1], more[|more| - 1];
      WithinConcat(s, t, front);
      WithinSnoc(s + front, t + front, b);
      assert s + more == (s + front) + [b] && t + more == (t + front) + [b];
    }
  }

  lemma {:induction false} WithinLength(s: seq<u8>, t: seq<u8>)
    requires Within(s, t)
    ensures |s| <= |t| && (|s| == |t| ==> s == t)
    decreases |t|
  {
    if t != [] {
      var u := t[..|t| - 1];
      assert t == u + [t[|t| - 1]];
      if Within(s, u) {
        WithinLength(s, u);
      } else {
        WithinLength(s[..|s| - 1], u);
        assert s == s[..|s| - 1] + [s[|s| - 1]];
      }
    }
  }

  // ---- two units ----

  /** One unit: its port, the bytes in flight to it, and what it has sent and read so far,
      with the number of bytes its full queue has refused. */
  datatype Unit = Unit(port: Port, inbox: seq<u8>, sent: seq<u8>, read: seq<u8>, refused: nat)

  datatype Link = Link(a: Unit, b: Unit)

  /** What a unit does: write or read SERDAT, write SERCTL, or drain `k` bytes of its inbox. */
  datatype Action = Transmit(v: u8) | Fetch | Configure(v: u8) | Pump(k: nat)

  /** Bytes pushed into a port one after the other, and how many of them it refuses. */
  function PushAll(p: Port, s: seq<u8>): Port {
    if s == [] then p else Receive(PushAll(p, s[..|s| - 1]), s[|s| - 1])
  }

  function Refusals(p: Port, s: seq<u8>): nat {
    if s == [] then 0 else
      Refusals(p, s[..|s| - 1]) + Num(Full(PushAll(p, s[..|s| - 1])))
  }

  /** The acting unit after its action. */
  function Act(u: Unit, e: Action): Unit {
    match e
    case Transmit(v) => u.(port := WriteData(u.port), sent := u.sent + [v])
    case Fetch =>
      var (p, b) := ReadData(u.port);
      u.(port := p, read := u.read + if u.port.queue == [] then [] else [b])
    case Configure(v) => u.(port := WriteControl(u.port, v))
    case Pump(k) =>
      var k := if k <= |u.inbox| then k else |u.inbox|;
      u.(port := PushAll(u.port, u.inbox[..k]), inbox := u.inbox[k..],
         refused := u.refused + Refusals(u.port, u.inbox[..k]))
  }

  /** The other unit: a transmitted byte is in flight to it. */
  function Peer(u: Unit, e: Action): Unit {
    if e.Transmit? then u.(inbox := u.inbox + [e.v]) else u
  }

  /** One step of the link, by unit a when `byA`. */
  function Step(l: Link, byA: bool, e: Action): Link {
    if byA then Link(Act(l.a, e), Peer(l.b, e)) else Link(Peer(l.a, e), Act(l.b, e))
  }

  function Steps(l: Link, es: seq<(bool, Action)>): Link {
    if es == [] then l else var (byA, e) := es[|es| - 1]; Step(Steps(l, es[..|es| - 1]), byA, e)
  }

  const IDLE := Unit(Port(0, false, [], false), [], [], [], 0)

  /** One direction: what left the channel is what was sent and is not in flight; the bytes read
      and waiting are those of it the port did not refuse. */
  ghost predicate Carries(from: Unit, to: Unit) { exists taken :: CarriesAs(from, to, taken) }

  /** The bytes that left the channel are `taken`. */
  ghost predicate CarriesAs(from: Unit, to: Unit, taken: seq<u8>) {
    && from.sent == taken + to.inbox && Within(to.read + to.port.queue, taken)
    && |to.read + to.port.queue| + to.refused == |taken| && |to.port.queue| <= CAPACITY
  }

  /** Draining bytes into the port. */
  lemma {:induction false} PushAllCarries(p: Port, s: seq<u8>, read: seq<u8>, taken: seq<u8>)
    requires Within(read + p.queue, taken) && |p.queue| <= CAPACITY
    ensures var q := PushAll(p, s);
            && Within(read + q.queue, taken + s) && |q.queue| <= CAPACITY
            && |q.queue| + Refusals(p, s) == |p.queue| + |s|
    decreases |s|
  {
    if s == [] {
      assert taken + s == taken;
    } else {
      var front, b := s[..|s| - 1], s[|s| - 1];
      PushAllCarries(p, front, read, taken);
      var q := PushAll(p, front);
      WithinSnoc(read + q.queue, taken + front, b);
      assert taken + s == (taken + front) + [b];
      assert (read + q.queue) + [b] == read + (q.queue + [b]);
    }
  }

  lemma ActCarries(from: Unit, to: Unit, e: Action)
    requires Carries(from, to)
    ensures Carries(Act(from, e), Peer(to, e))
  {
    var taken :| CarriesAs(from, to, taken);
    if e.Transmit? {
      assert from.sent + [e.v] == taken + (to.inbox + [e.v]);
    }
    assert CarriesAs(Act(from, e), Peer(to, e), taken);
  }

  lemma FetchCarries(from: Unit, to: Unit, taken: seq<u8>)
    requires CarriesAs(from, to, taken)
    ensures CarriesAs(from, Act(to, Fetch), taken)
  {
    if to.port.queue != [] {
      var q, b := to.port.queue[1..], to.port.queue[0];
      assert to.read + to.port.queue == (to.read + [b]) + q;
    } else {
      assert to.read + [] == to.read;
    }
  }

  lemma PumpCarries(from: Unit, to: Unit, k: nat, taken: seq<u8>)
    requires CarriesAs(from, to, taken) && k <= |to.inbox|
    ensures CarriesAs(from, Act(to, Pump(k)), taken + to.inbox[..k])
  {
    var now := to.inbox[..k];
    PushAllCarries(to.port, now, to.read, taken);
    assert from.sent == (taken + now) + to.inbox[k..];
  }

  lemma PeerCarries(from: Unit, to: Unit, e: Action)
    requires Carries(from, to)
    ensures Carries(Peer(from, e), Act(to, e))
  {
    var taken :| CarriesAs(from, to, taken);
    match e {
      case Transmit(_) => assert CarriesAs(Peer(from, e), Act(to, e), taken);
      case Configure(_) => assert CarriesAs(from, Act(to, e), taken);
      case Fetch => FetchCarries(from, to, taken);
      case Pump(k) =>
        var k := if k <= |to.inbox| then k else |to.inbox|;
        PumpCarries(from, to, k, taken);
        assert Act(to, e) == Act(to, Pump(k));
    }
  }

  lemma {:induction false} LinkCarries(es: seq<(bool, Action)>)
    ensures var l := Steps(Link(IDLE, IDLE), es); Carries(l.a, l.b) && Carries(l.b, l.a)
  {
    var l := Steps(Link(IDLE, IDLE), es);
    if es == [] {
      assert CarriesAs(IDLE, IDLE, []);
    } else {
      var m := Steps(Link(IDLE, IDLE), es[..|es| - 1]);
      var (byA, e) := es[|es| - 1];
      LinkCarries(es[..|es| - 1]);
      if byA {
        ActCarries(m.a, m.b, e);
        PeerCarries(m.b, m.a, e);
      } else {
        PeerCarries(m.a, m.b, e);
        ActCarries(m.b, m.a, e);
      }
    }
  }

  /** Over every run of two bridged units, in each direction: the bytes read, waiting and in
      flight are a subsequence of the bytes sent, and they are all of them, in order, exactly
      when the receiving queue refused none. */
  lemma LinkIsFaithful(es: seq<(bool, Action)>, toB: bool)
    ensures var l := Steps(Link(IDLE, IDLE), es);
            var from, to := if toB then l.a else l.b, if toB then l.b else l.a;
            var received := to.read + to.port.queue + to.inbox;
            && Within(received, from.sent)
            && (received == from.sent <==> to.refused == 0)
  {
    LinkCarries(es);
    var l := Steps(Link(IDLE, IDLE), es);
    var from, to := if toB then l.a else l.b, if toB then l.b else l.a;
    var taken :| CarriesAs(from, to, taken);
    WithinConcat(to.read + to.port.queue, taken, to.inbox);
    WithinLength(to.read + to.port.queue + to.inbox, from.sent);
  }

  // ---- the pump ----

  /** The receiving end of the transport: `Recv` hands over as much as has arrived. */
  class Channel {
    var pending: seq<u8>

    constructor ()
      ensures pending == []
    {
      pending := [];
    }

    /** `mp_link_send`, of one byte. */
    method Deliver(b: u8)
      modifies this
      ensures pending == old(pending) + [b]
    {
      pending := pending + [b];
    }

    /** `mp_link_recv`: at most `arrived` bytes, and no more than fit; 0 when nothing is pending. */
    method Recv(buf: array<u8>, arrived: nat) returns (n: nat)
      requires arrived > 0
      modifies this, buf
      ensures n <= buf.Length && n <= |old(pending)| && buf[..n] == old(pending)[..n] && pending == old(pending)[n..]
      ensures n < buf.Length ==> n == arrived || pending == []
    {
      n := if arrived <= |pending| then arrived else |pending|;
      if n > buf.Length { n := buf.Length; }
      var i := 0;
      while i < n
        invariant 0 <= i <= n <= |pending| && buf[..i] == pending[..i] && pending == old(pending)
      {
        buf[i] := pending[i];
        i := i + 1;
      }
      pending := pending[n..];
    }
  }

  /** A write to SERDAT with `tx_to_link` as the transmit hook: both halves of the step
      `Transmit(v)`, the port's and the peer's inbox, in place. Without a peer the port acts the
      same and the byte is dropped. */
  method TransmitByte(uart: Uart, chan: Channel, connected: bool, v: u8)
    requires uart.Valid()
    modifies uart.latch`irqLatch, chan
    ensures uart.Valid()
    ensures forall u: Unit :: u.port == old(uart.View()) ==> Act(u, Transmit(v)).port == uart.View()
    ensures connected ==>
              forall u: Unit :: u.inbox == old(chan.pending) ==> Peer(u, Transmit(v)).inbox == chan.pending
    ensures !connected ==> chan.pending == old(chan.pending)
  {
    var sent := uart.WriteSerdat(v);
    if connected { chan.Deliver(sent); }
  }

  lemma {:induction false} PushAllConcat(p: Port, s: seq<u8>, t: seq<u8>)
    ensures PushAll(p, s + t) == PushAll(PushAll(p, s), t)
    decreases |t|
  {
    if t == [] {
      assert s + t == s;
    } else {
      assert (s + t)[..|s + t| - 1] == s + t[..|t| - 1];
      PushAllConcat(p, s, t[..|t| - 1]);
    }
  }

  /** Pushes the first `n` bytes of the buffer. */
  method PushBuffer(uart: Uart, buf: array<u8>, n: nat)
    requires uart.Valid() && n <= buf.Length && buf != uart.rxFifo
    modifies uart, uart.rxFifo, uart.latch`irqLatch
    ensures uart.Valid() && uart.View() == PushAll(old(uart.View()), buf[..n])
  {
    var i := 0;
    while i < n
      invariant i <= n && uart.Valid() && uart.View() == PushAll(old(uart.View()), buf[..i])
    {
      uart.RxPush(buf[i]);
      assert buf[..i + 1][..i] == buf[..i];
      i := i + 1;
    }
  }

  /** One turn of the pump: as much as the transport has, and the buffer holds, is pushed. */
  method PumpOnce(uart: Uart, chan: Channel, buf: array<u8>, arrived: nat) returns (n: nat)
    requires uart.Valid() && arrived > 0 && buf != uart.rxFifo && buf.Length == 256
    modifies uart, uart.rxFifo, uart.latch`irqLatch, chan, buf
    ensures uart.Valid() && n <= 256 && n <= |old(chan.pending)|
    ensures uart.View() == PushAll(old(uart.View()), old(chan.pending)[..n]) && chan.pending == old(chan.pending)[n..]
    ensures n < 256 ==> n == arrived || chan.pending == []
  {
    n := chan.Recv(buf, arrived);
    PushBuffer(uart, buf, n);
  }

  /** The pump's progress: the first `k` of the bytes pending at the start are in the port. */
  ghost predicate Pumped(p0: Port, before: seq<u8>, p: Port, pending: seq<u8>, k: nat) {
    k <= |before| && p == PushAll(p0, before[..k]) && pending == before[k..]
  }

  lemma NothingPumped(p: Port, pending: seq<u8>)
    ensures Pumped(p, pending, p, pending, 0)
  {
  }

  lemma PumpedMore(p0: Port, before: seq<u8>, p: Port, pending: seq<u8>, k: nat, n: nat)
    requires Pumped(p0, before, p, pending, k) && n <= |pending|
    ensures Pumped(p0, before, PushAll(p, pending[..n]), pending[n..], k + n)
  {
    hide PushAll;
    PushAllConcat(p0, before[..k], pending[..n]);
    assert before[..k + n] == before[..k] + pending[..n];
  }

  /** `lynx_net_pump`: a prefix of what is pending goes to the UART, in order, and the pump goes
      on while the transport fills its buffer. `arrived` is how much each call finds. */
  method NetPump(uart: Uart, chan: Channel, connected: bool, arrived: seq<nat>) returns (k: nat)
    requires uart.Valid() && forall i :: 0 <= i < |arrived| ==> arrived[i] > 0
    modifies uart, uart.rxFifo, uart.latch`irqLatch, chan
    ensures uart.Valid() && Pumped(old(uart.View()), old(chan.pending), uart.View(), chan.pending, k)
    ensures !connected ==> k == 0
    ensures connected && arrived == [] ==> chan.pending == []
  {
    hide Pumped, PushAll, Ring;
    k := 0;
    NothingPumped(uart.View(), chan.pending);
    if !connected { return; }
    ghost var before, p0 := chan.pending, uart.View();
    var buf := new u8[256](_ => 0);
    var turn, more := 0, true;
    while more
      invariant uart.Valid() && Pumped(p0, before, uart.View(), chan.pending, k) && buf != uart.rxFifo
      invariant !more && arrived == [] ==> chan.pending == []
      decreases |chan.pending|, more
    {
      ghost var p, pending := uart.View(), chan.pending;
      var n := PumpOnce(uart, chan, buf, if turn < |arrived| then arrived[turn] else |chan.pending| + 1);
      PumpedMore(p0, before, p, pending, k, n);
      k, turn, more := k + n, turn + 1, n == 256;
    }
  }
}
