/** Sequences of interrupts: what one gate window of the meter accumulates
    and publishes. Each event is the register state the handler finds when
    it is entered; the handler runs each one to completion. */
module GateWindow {
  import opened MachineInt
  import opened FreqMeter

  /** The globals after the handler has served `events` in order. */
  function Run(m: Meter, events: seq<Regs>): Meter
    decreases |events|
  {
    if events == [] then m else Run(IsrStep(m, events[0]).0, events[1..])
  }

  /** Number of events with the Timer0 flag set. */
  function Timer0Ticks(events: seq<Regs>): (n: nat)
    ensures n <= |events|
  {
    if events == [] then 0 else (if events[0].t0if then 1 else 0) + Timer0Ticks(events[1..])
  }

  /** Number of events with the Timer1 overflow flag set. */
  function Overflows(events: seq<Regs>): (n: nat)
    ensures n <= |events|
  {
    if events == [] then 0 else (if events[0].tmr1if then 1 else 0) + Overflows(events[1..])
  }

  lemma {:induction false} WrapAdd(x: int, y: int)
    ensures Wrap32(Wrap32(x) + y) == Wrap32(x + y)
  {
    var k := x / 0x1_0000_0000;
    assert x == k * 0x1_0000_0000 + Wrap32(x);
    assert x + y == k * 0x1_0000_0000 + (Wrap32(x) + y);
  }

  /** A whole number `k` of overflows, taken modulo 2^32, leaves room for a
      16-bit residual: adding it after the wrap is adding it before. */
  lemma {:induction false} WrapThenResidual(k: nat, r: uint16)
    ensures Wrap32(k * 0x1_0000) + r == Wrap32(k * 0x1_0000 + r)
  {
    var x := k * 0x1_0000;
    var j := k / 0x1_0000;
    assert k == j * 0x1_0000 + k % 0x1_0000;
    assert x == j * 0x1_0000_0000 + (k % 0x1_0000) * 0x1_0000;
    assert Wrap32(x) == (k % 0x1_0000) * 0x1_0000;
    WrapAdd(x, r);
  }

  lemma {:induction false} AlignedSum(f: nat, n: nat)
    requires f % 0x1_0000 == 0
    ensures f + n * 0x1_0000 == (f / 0x1_0000 + n) * 0x1_0000
  {
  }

  /** Between interrupts the invariant holds forever after start-up. */
  lemma {:induction false} RunKeepsInvariant(m: Meter, events: seq<Regs>)
    requires Invariant(m)
    ensures Invariant(Run(m, events))
    decreases |events|
  {
    if events != [] {
      IsrKeepsInvariant(m, events[0]);
      RunKeepsInvariant(IsrStep(m, events[0]).0, events[1..]);
    }
  }

  /** Inside a gate window (fewer Timer0 ticks than the downcounter holds)
      each tick lowers the downcounter by one, each overflow adds 0x10000 to
      `freq` modulo 2^32, and `pwm_dc` and the LED stay as they were. */
  lemma {:induction false} RunWithinWindow(m: Meter, events: seq<Regs>)
    requires Invariant(m) && Timer0Ticks(events) < m.freqCnt
    ensures Run(m, events).freqCnt == m.freqCnt - Timer0Ticks(events)
    ensures Run(m, events).freq == Wrap32(m.freq + Overflows(events) * 0x1_0000)
    ensures Run(m, events).pwmDc == m.pwmDc && Run(m, events).led == m.led
    decreases |events|
  {
    if events != [] {
      var e := events[0];
      var next := IsrStep(m, e).0;
      IsrKeepsInvariant(m, e);
      OpenGateStep(m, e);
      RunWithinWindow(next, events[1..]);
      WrapAdd(m.freq + (if e.tmr1if then OVERFLOW_QUANTUM else 0),
              Overflows(events[1..]) * 0x1_0000);
    }
  }

  /** Inside a gate window the Timer1 residual adds to `freq` without
      carry: `freq + TMR1` is the window's whole count modulo 2^32. */
  lemma {:induction false} WindowCount(m: Meter, events: seq<Regs>, r: uint16)
    requires Invariant(m) && Timer0Ticks(events) < m.freqCnt
    ensures Run(m, events).freq + r == Wrap32(m.freq + Overflows(events) * 0x1_0000 + r)
  {
    var k := m.freq / 0x1_0000 + Overflows(events);
    RunWithinWindow(m, events);
    AlignedSum(m.freq, Overflows(events));
    WrapThenResidual(k, r);
  }

  /** The Timer0 tick that brings the window's tick count to the value the
      downcounter held closes the gate: the downcounter is reloaded, TMR1
      is reset, and the reading published is that of the count
      `freq + overflows * 0x10000 + TMR1` modulo 2^32. */
  lemma {:induction false} WindowClosure(m: Meter, events: seq<Regs>, closing: Regs)
    requires Invariant(m) && Timer0Ticks(events) == m.freqCnt - 1 && closing.t0if
    ensures var (next, out) := IsrStep(Run(m, events), closing);
            && next.freqCnt == FREQ_CNT
            && out.tmr1 == 0
            && Reading(next.pwmDc, next.led)
               == Duty(Wrap32(m.freq + Overflows(events) * 0x1_0000 + closing.tmr1))
  {
    var last := Run(m, events);
    RunWithinWindow(m, events);
    RunKeepsInvariant(m, events);
    WindowCount(m, events, closing.tmr1);
    assert last.freqCnt == 1;
    GateClosure(last, closing);
  }

  /** A full gate window opened by a closure that saw no overflow: exactly
      FREQ_CNT Timer0 ticks later the gate closes again, and the count it
      publishes is N * 0x10000 + r modulo 2^32, for N overflows in the
      window and residual r in TMR1. That no earlier tick closes it follows
      from RunWithinWindow applied to each prefix of `events`. */
  lemma {:induction false} FullWindow(m: Meter, events: seq<Regs>, closing: Regs)
    requires Invariant(m) && m.freq == 0 && m.freqCnt == FREQ_CNT
    requires Timer0Ticks(events) == FREQ_CNT - 1 && closing.t0if
    ensures Run(m, events).pwmDc == m.pwmDc && Run(m, events).led == m.led
    ensures Run(m, events).freqCnt == 1
    ensures var next := IsrStep(Run(m, events), closing).0;
            Reading(next.pwmDc, next.led)
            == Duty(Wrap32(Overflows(events) * 0x1_0000 + closing.tmr1))
  {
    RunWithinWindow(m, events);
    WindowClosure(m, events, closing);
  }
}
