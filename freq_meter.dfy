/** The frequency meter of main.c: the Timer0 gate, the Timer1 pulse
    accumulator with its overflow extension, the two-range mapping of a
    count to a PWM duty value and a range LED, and the PWM compare of the
    main loop. */
module FreqMeter {
  import opened MachineInt

  /** Timer0 interrupts per gate window (FREQ_CNT). */
  const FREQ_CNT: uint8 := 200
  /** Full-scale frequency in MHz (FREQ_HIGH). */
  const FREQ_HIGH: nat := 20
  /** Lowest count of the high range, `256ul * FREQ_CNT * FREQ_HIGH / 10`
      (see ConstantsAsWritten). */
  const RANGE_THRESHOLD: nat := 102400
  /** What one Timer1 overflow adds to `freq`: Timer1 is 16 bits wide. */
  const OVERFLOW_QUANTUM: nat := 0x1_0000

  /** The pair written at gate closure: `pwm_dc` and the LED (set = high range). */
  datatype Reading = Reading(duty: uint8, highRange: bool)

  /** The 8-bit quotient by 4000 locates a count within its full-scale
      period of 256 * 4000: the count's residue modulo that period lies in
      the quotient's 4000-block. */
  lemma {:induction false} HighRangeResidue(count: nat)
    ensures Wrap8(count / 4000) * 4000 <= count % (256 * 4000)
            < (Wrap8(count / 4000) + 1) * 4000
  {
    var q := count / 4000;
    assert count == q * 4000 + count % 4000;
    assert q == (q / 256) * 256 + q % 256;
    assert count == (q / 256) * (256 * 4000) + ((q % 256) * 4000 + count % 4000);
    assert count % (256 * 4000) == (q % 256) * 4000 + count % 4000;
  }

  /** The conversion of the latched count `freq10` into `pwm_dc` and the
      range LED. The high range divides by 4000 and keeps the low byte (no
      clamp), so it reads the count modulo full scale 256 * 4000; the low
      range divides by 400. The divisors are the source's expressions in
      FREQ_CNT and FREQ_HIGH (see ConstantsAsWritten). */
  function Duty(count: uint32): (r: Reading)
    ensures r.highRange <==> count >= RANGE_THRESHOLD
    ensures !r.highRange ==> r.duty * 400 <= count < (r.duty + 1) * 400
    ensures r.highRange ==>
              r.duty * 4000 <= count % (256 * 4000) < (r.duty + 1) * 4000
    ensures r.highRange && count < 256 * 4000 ==>
              r.duty * 4000 <= count < (r.duty + 1) * 4000
  {
    if count >= RANGE_THRESHOLD then
      HighRangeResidue(count);
      Reading(Wrap8(count / 4000), true)
    else
      Reading(Wrap8(count / 400), false)
  }

  /** The main loop's compare: the PWM pin is cleared when TMR0 exceeds
      `pwm_dc` and set otherwise. */
  function PwmPinHigh(tmr0: uint8, pwmDc: uint8): bool
  {
    !(tmr0 > pwmDc)
  }

  /** The four globals the interrupt handler owns. */
  datatype Meter = Meter(freq: uint32, freqCnt: uint8, pwmDc: uint8, led: bool)

  /** The hardware registers the handler reads and writes: the Timer0 and
      Timer1 interrupt flags and the 16-bit Timer1 count. */
  datatype Regs = Regs(t0if: bool, tmr1if: bool, tmr1: uint16)

  /** What holds between interrupts: the gate downcounter is in [1, FREQ_CNT]
      and `freq` holds whole Timer1 overflows only. */
  predicate Invariant(m: Meter)
  {
    1 <= m.freqCnt <= FREQ_CNT && m.freq % 0x1_0000 == 0
  }

  /** The globals after `freq_init`; `freq` is zero as a C global with
      static storage, the LED latch keeps whatever it held. */
  function InitialMeter(led: bool): Meter
  {
    Meter(0, FREQ_CNT, 0, led)
  }

  /** The Timer0 branch of the handler, with the Timer1 count before and after. */
  function GateTick(m: Meter, tmr1: uint16): (Meter, uint16)
  {
    var freqCnt := Wrap8(m.freqCnt - 1);
    if freqCnt == 0 then
      var freq10 := Or32(m.freq, tmr1);
      var r := Duty(freq10);
      (Meter(0, FREQ_CNT, r.duty, r.highRange), 0)
    else
      (m.(freqCnt := freqCnt), tmr1)
  }

  /** The Timer1 branch of the handler. */
  function Overflow(m: Meter): Meter
  {
    m.(freq := Wrap32(m.freq + OVERFLOW_QUANTUM))
  }

  /** One run of the interrupt handler: the Timer0 branch first, then the
      Timer1 branch; each clears the flag it serves. */
  function IsrStep(m: Meter, regs: Regs): (Meter, Regs)
  {
    var (m1, tmr1) := if regs.t0if then GateTick(m, regs.tmr1) else (m, regs.tmr1);
    var m2 := if regs.tmr1if then Overflow(m1) else m1;
    (m2, Regs(false, false, tmr1))
  }

  /** The globals `freq`, `pwm_dc` and `freq_cnt` and the LED latch. */
  class FrequencyMeter {
    var freq: uint32
    var freqCnt: uint8
    var pwmDc: uint8
    var led: bool

    function State(): Meter
      reads this
    {
      Meter(freq, freqCnt, pwmDc, led)
    }

    /** The variable part of `freq_init`, with `freq` zeroed at start-up. */
    constructor Init(ledAtReset: bool)
      ensures State() == InitialMeter(ledAtReset)
      ensures Invariant(State())
    {
      freq := 0;
      pwmDc := 0;
      freqCnt := FREQ_CNT;
      led := ledAtReset;
    }

    /** The interrupt handler `isr`. */
    method Isr(t0if: bool, tmr1if: bool, tmr1: uint16)
      returns (t0ifOut: bool, tmr1ifOut: bool, tmr1Out: uint16)
      modifies this
      ensures (State(), Regs(t0ifOut, tmr1ifOut, tmr1Out))
              == IsrStep(old(State()), Regs(t0if, tmr1if, tmr1))
      ensures old(Invariant(State())) ==> Invariant(State())
    {
      t0ifOut, tmr1ifOut, tmr1Out := t0if, tmr1if, tmr1;
      ghost var before := State();
      if t0ifOut {
        t0ifOut := false;
        freqCnt := Wrap8(freqCnt - 1);
        if freqCnt == 0 {
          freq := Or32(freq, tmr1Out);
          tmr1Out := 0;
          var freq10 := freq;
          freq := 0;
          freqCnt := FREQ_CNT;
          var r := Duty(freq10);
          pwmDc := r.duty;
          led := r.highRange;
        }
      }
      if tmr1ifOut {
        tmr1ifOut := false;
        freq := Wrap32(freq + OVERFLOW_QUANTUM);
      }
      if Invariant(before) {
        IsrKeepsInvariant(before, Regs(t0if, tmr1if, tmr1));
      }
    }

    /** One pass of the main loop: the level written to the PWM pin for the
        current TMR0 value. */
    method DrivePwmPin(tmr0: uint8) returns (pinHigh: bool)
      ensures pinHigh == PwmPinHigh(tmr0, pwmDc)
    {
      if tmr0 > pwmDc {
        pinHigh := false;
      } else {
        pinHigh := true;
      }
    }
  }

  // ---------------------------------------------------------------------
  // Properties of one interrupt

  /** The range threshold and the divisors 4000 and 400 that Duty uses, as
      main.c writes them in terms of FREQ_CNT and FREQ_HIGH (`FREQ_HIGH / 10`
      is the integer 2). */
  lemma ConstantsAsWritten()
    ensures RANGE_THRESHOLD == 256 * FREQ_CNT * FREQ_HIGH / 10
    ensures 4000 == FREQ_CNT * (FREQ_HIGH / 1)
    ensures 400 == FREQ_CNT * (FREQ_HIGH / 10)
  {
  }

  /** The value-level form of the constructor Init: the globals after
      `freq_init` satisfy the invariant, with `pwm_dc` zero and a full
      downcounter, for lemmas about runs that start from reset. */
  lemma {:induction false} InitialInvariant(led: bool)
    ensures Invariant(InitialMeter(led))
    ensures InitialMeter(led).pwmDc == 0 && InitialMeter(led).freqCnt == FREQ_CNT
  {
  }

  lemma {:induction false} OverflowKeepsAlignment(f: uint32)
    requires f % 0x1_0000 == 0
    ensures Wrap32(f + OVERFLOW_QUANTUM) % 0x1_0000 == 0
    ensures Wrap32(f + OVERFLOW_QUANTUM) == if f + OVERFLOW_QUANTUM == TWO_TO_THE_32 then 0 else f + OVERFLOW_QUANTUM
  {
  }

  /** Every run of the handler keeps the downcounter in [1, FREQ_CNT] and
      `freq` a whole number of overflows. */
  lemma {:induction false} IsrKeepsInvariant(m: Meter, regs: Regs)
    requires Invariant(m)
    ensures Invariant(IsrStep(m, regs).0)
  {
    var (m1, _) := if regs.t0if then GateTick(m, regs.tmr1) else (m, regs.tmr1);
    assert Invariant(m1);
    if regs.tmr1if {
      OverflowKeepsAlignment(m1.freq);
    }
  }

  /** A run of the handler that does not close the gate (no Timer0 flag,
      or a downcounter above 1) lowers the downcounter by one per Timer0
      tick, adds one overflow quantum to `freq` modulo 2^32 if Timer1
      overflowed, clears both flags and leaves TMR1, `pwm_dc` and the LED
      as they were. */
  lemma {:induction false} OpenGateStep(m: Meter, regs: Regs)
    requires Invariant(m) && (regs.t0if ==> m.freqCnt > 1)
    ensures IsrStep(m, regs).0.freqCnt == m.freqCnt - (if regs.t0if then 1 else 0)
    ensures IsrStep(m, regs).0.freq == Wrap32(m.freq + (if regs.tmr1if then OVERFLOW_QUANTUM else 0))
    ensures IsrStep(m, regs).0.pwmDc == m.pwmDc && IsrStep(m, regs).0.led == m.led
    ensures IsrStep(m, regs).1 == Regs(false, false, regs.tmr1)
  {
  }

  /** A Timer0 tick that does not close the gate only decrements the
      downcounter. */
  lemma {:induction false} TickWithoutClosure(m: Meter, tmr1: uint16)
    requires Invariant(m) && m.freqCnt > 1
    ensures IsrStep(m, Regs(true, false, tmr1))
            == (m.(freqCnt := m.freqCnt - 1), Regs(false, false, tmr1))
  {
  }

  /** A Timer0 tick closes the gate exactly when the downcounter was 1.
      Then the latched count is `freq + TMR1`, TMR1 and `freq` are reset,
      the downcounter is reloaded and the reading is published; an overflow
      served in the same run is credited to the next window. */
  lemma {:induction false} GateClosure(m: Meter, regs: Regs)
    requires Invariant(m) && regs.t0if
    ensures IsrStep(m, regs).0.freqCnt == FREQ_CNT <==> m.freqCnt == 1
    ensures m.freqCnt == 1 ==> IsrStep(m, regs).1 == Regs(false, false, 0)
    ensures m.freqCnt == 1 ==>
              IsrStep(m, regs).0.freq == (if regs.tmr1if then OVERFLOW_QUANTUM else 0)
    ensures m.freqCnt == 1 ==>
              Reading(IsrStep(m, regs).0.pwmDc, IsrStep(m, regs).0.led) == Duty(m.freq + regs.tmr1)
  {
  }

  // ---------------------------------------------------------------------
  // Properties of the duty mapping

  /** The range boundary is inclusive: the threshold count is high range
      with the lowest high-range duty, one below it is low range at full
      low-range duty; half the threshold reads mid-scale and zero reads
      zero, both in the low range; above full scale the quotient keeps only
      its low byte (262 reads 6). */
  lemma DutyAtBoundaries()
    ensures RANGE_THRESHOLD == 102400
    ensures Duty(RANGE_THRESHOLD as uint32) == Reading(25, true)
    ensures Duty((RANGE_THRESHOLD - 1) as uint32) == Reading(255, false)
    ensures Duty(0) == Reading(0, false)
    ensures Duty(RANGE_THRESHOLD / 2) == Reading(128, false)
    ensures Duty(1050000) == Reading(6, true)
  {
  }

  /** No clamp in the high range: a count one full scale (256 * 4000) higher
      gives the same `pwm_dc`, so full scale itself reads 0. */
  lemma {:induction false} DutyWrapsAboveFullScale(count: uint32)
    requires count >= RANGE_THRESHOLD && count + 256 * 4000 < TWO_TO_THE_32
    ensures Duty((count + 256 * 4000) as uint32) == Duty(count)
    ensures Duty(256 * 4000) == Reading(0, true)
  {
    var q := count / 4000;
    assert count + 256 * 4000 == (q + 256) * 4000 + count % 4000;
    assert (count + 256 * 4000) / 4000 == q + 256;
    assert Wrap8(q + 256) == Wrap8(q);
  }

  /** Within one range, and below full scale, a larger count never gives a
      smaller duty. */
  lemma {:induction false} DutyMonotoneInRange(c1: uint32, c2: uint32)
    requires c1 <= c2 && c2 < 256 * 4000
    requires (c1 >= RANGE_THRESHOLD) == (c2 >= RANGE_THRESHOLD)
    ensures Duty(c1).duty <= Duty(c2).duty
  {
  }

  /** Below full scale (counts under 256 * 4000) the high range is the low
      range's scale divided by ten: the LED says whether the needle reads x1
      or x10. Above full scale the high range wraps (DutyWrapsAboveFullScale). */
  lemma {:induction false} DutyScalesByTen(count: uint32)
    requires RANGE_THRESHOLD <= count < 256 * 4000
    ensures Duty(count).duty == (count / 400) / 10
  {
    var q := count / 400;
    assert count == q * 400 + count % 400;
    assert count / 4000 == q / 10;
  }

  /** Number of TMR0 values in [0, n) for which the pin is high. */
  function HighTicks(pwmDc: uint8, n: nat): nat
    requires n <= TWO_TO_THE_8
  {
    if n == 0 then 0 else HighTicks(pwmDc, n - 1) + (if PwmPinHigh(n - 1, pwmDc) then 1 else 0)
  }

  /** Over one TMR0 period of 256 counts the pin is high for `pwm_dc + 1`
      of them, so `pwm_dc == 255` keeps it high throughout. */
  lemma {:induction false} PwmHighTime(pwmDc: uint8, n: nat)
    requires n <= TWO_TO_THE_8
    ensures HighTicks(pwmDc, n) == if n <= pwmDc then n else pwmDc + 1
  {
    if n > 0 {
      PwmHighTime(pwmDc, n - 1);
    }
  }
}
