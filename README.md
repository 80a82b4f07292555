# PIC12F675 frequency meter — Dafny model

The firmware measures an input frequency by gated counting:

- Timer1 counts the input pulses on T1CKI. Each Timer1 overflow adds 0x10000 to the 32-bit global `freq`.
- Timer0 provides the time base. Each gate window lasts `FREQ_CNT` = 200 Timer0 interrupts, counted down in `freq_cnt`.
- When the downcounter reaches zero the handler closes the gate. It latches the window's count as `freq | TMR1` and resets `freq`, `TMR1` and the downcounter.
- The latched count becomes a PWM duty value `pwm_dc` and a range LED:
  - High range: counts of 102400 and above, divided by 4000. The LED is set.
  - Low range: counts below 102400, divided by 400. The LED is cleared.
- The main loop drives the PWM pin from `TMR0` and `pwm_dc`.

The model covers three parts of `main.c`:

- the interrupt handler `isr`
- the variable part of `freq_init`
- the PWM compare in `main`

It is organised in three modules:

- `MachineInt` (machine_int.dfy) covers the C integer types.
  - `uint8_t`, `uint16_t` and `uint32_t` are int subset types.
  - Conversion to an unsigned type is reduction modulo 2^n (`Wrap8`, `Wrap32`).
  - The bitwise OR `freq |= TMR1` is `BitOr`/`Or32`, an arithmetic definition bit by bit. When one operand is a multiple of 2^k and the other is below 2^k, OR is proved equal to addition (`BitOrDisjoint`). With k = 16 this gives `freq | TMR1 == freq + TMR1` (`Or32`).
- `FreqMeter` (freq_meter.dfy) holds the meter itself.
  - The class `FrequencyMeter` has the globals `freq`, `freq_cnt`, `pwm_dc` and the LED latch as fields.
  - Its constructor `Init` is `freq_init`. Its method `Isr` is the handler, and `DrivePwmPin` is one pass of the main loop.
  - The handler's effect is specified by the pure function `IsrStep` on a value `Meter` of the globals and `Regs`, the registers the handler reads and writes (T0IF, TMR1IF, TMR1).
  - Lemmas about one interrupt and about the duty mapping `Duty` are stated over `IsrStep`.
- `GateWindow` (gate_window.dfy) holds the properties of a sequence of interrupts (`Run`).
  - It counts what one gate window accumulates.
  - It fixes which count the closing interrupt publishes.

Three behaviours of `main.c` are worth stating explicitly:

- **The high range has no clamp.** The clamp at main.c:89-93 is commented out. A high-range count gives `pwm_dc = (count / 4000) mod 256`, which is the 4000-block of the count modulo full scale 256 * 4000 = 1024000 (20 MHz) (`Duty`). So full scale itself reads 0 and not 255, and 1050000 reads 6 (`DutyWrapsAboveFullScale`, `DutyAtBoundaries`).
- **The downcounter stays in [1, 200] between interrupts.** It is reloaded in the same interrupt that brings it to 0, so 0 is never observable (`IsrKeepsInvariant`).
- **The Timer0 branch runs before the Timer1 branch.** When both flags are pending at gate closure, the overflow is credited to the next window, not to the count just latched (`GateClosure`).

Two initial values are not set by `freq_init`:

- `freq` is a C global with static storage, so it is 0 at start-up.
- The LED latch is not written. Its initial level is a constructor parameter.

## Model

| member | source | states |
|---|---|---|
| MachineInt.Wrap8 | main.c:80 | storing into a `uint8_t` keeps a value that fits and otherwise differs from the input by a multiple of 256 (so 0 - 1 becomes 255) |
| MachineInt.Wrap32 | main.c:109 | storing into a `uint32_t` keeps a value that fits and otherwise differs by a multiple of 2^32 |
| MachineInt.BitOr | main.c:82 | the OR of two values is at least each operand and at most their sum |
| MachineInt.BitOrDisjoint | main.c:82 | when `a` is a multiple of 2^k and `b < 2^k`, `a \| b == a + b` |
| MachineInt.BitOrBounded | main.c:82 | the OR of two n-bit values is an n-bit value |
| MachineInt.Or32 | main.c:82 | `freq \| TMR1` is the `uint32_t` OR; when `freq` holds whole overflows and TMR1 is 16 bits, it equals `freq + TMR1` |
| FreqMeter.Duty | main.c:94-101 | the LED is set exactly when the count is at least 102400. In the low range `pwm_dc` is the count's 400-block. In the high range it is the 4000-block of the count modulo 1024000 (the `uint8_t` store keeps the quotient's low byte), which is the count's own 4000-block below 20 MHz full scale |
| FreqMeter.HighRangeResidue | main.c:96 | storing `count / 4000` into a `uint8_t` gives the 4000-block in which `count mod 1024000` lies, for every count |
| FreqMeter.FrequencyMeter.Init | main.c:115-118 | after `freq_init`: `pwm_dc == 0`, `freq_cnt == FREQ_CNT`, `freq == 0`, LED unchanged. The invariant holds |
| FreqMeter.FrequencyMeter.Isr | main.c:74-112 | the new globals and registers are `IsrStep` of the old ones. The invariant between interrupts is preserved |
| FreqMeter.FrequencyMeter.DrivePwmPin | main.c:162-166 | the pin is high exactly when `TMR0 <= pwm_dc` |
| FreqMeter.ConstantsAsWritten | main.c:94-100 | the threshold 102400 and the divisors 4000 and 400 used by `Duty` are the source's expressions in `FREQ_CNT` and `FREQ_HIGH`, with `FREQ_HIGH / 10 == 2` |
| FreqMeter.InitialInvariant | main.c:115-118 | the state after `freq_init` satisfies the invariant, with `pwm_dc == 0` and a full downcounter |
| FreqMeter.OverflowKeepsAlignment | main.c:107-110 | adding 0x10000 to a multiple of 0x10000 modulo 2^32 gives a multiple of 0x10000. It wraps to 0 exactly when the sum is 2^32 |
| FreqMeter.IsrKeepsInvariant | main.c:78-110 | every run of the handler keeps `1 <= freq_cnt <= 200` and `freq` a multiple of 0x10000 |
| FreqMeter.OpenGateStep | main.c:78-110 | a run that does not close the gate decrements the downcounter once per Timer0 flag and adds 0x10000 modulo 2^32 per Timer1 flag. It clears both flags and leaves TMR1, `pwm_dc` and the LED unchanged |
| FreqMeter.TickWithoutClosure | main.c:78-81 | a Timer0 tick with downcounter above 1 and no overflow only decrements the downcounter and clears T0IF |
| FreqMeter.GateClosure | main.c:81-110 | a Timer0 tick reloads the downcounter exactly when it was 1. In that case TMR1 is zeroed and the published reading is `Duty(freq + TMR1)`. `freq` restarts at 0, or at 0x10000 if an overflow is pending |
| FreqMeter.DutyAtBoundaries | main.c:94-101 | 102400 reads 25 high range, 102399 reads 255 low range, 51200 reads 128, 0 reads 0, and 1050000 (quotient 262) reads 6 high range |
| FreqMeter.DutyWrapsAboveFullScale | main.c:89-96 | in the high range a count 1024000 higher gives the same reading, and 1024000 itself reads 0 |
| FreqMeter.DutyMonotoneInRange | main.c:94-101 | within one range and below full scale, a larger count never gives a smaller `pwm_dc` |
| FreqMeter.DutyScalesByTen | main.c:94-100 | below full scale (count < 1024000), a high-range `pwm_dc` is the low-range formula's value divided by ten |
| FreqMeter.PwmHighTime | main.c:162-166 | over one 256-count TMR0 period the pin is high for `pwm_dc + 1` counts (all of them for 255) |
| GateWindow.RunKeepsInvariant | main.c:74-112 | the invariant holds after any sequence of interrupts |
| GateWindow.RunWithinWindow | main.c:78-110 | inside a gate window the downcounter drops by the number of Timer0 ticks. `freq` grows by 0x10000 per overflow modulo 2^32. `pwm_dc` and the LED do not change |
| GateWindow.WindowCount | main.c:81-85 | at the window's end `freq + TMR1` equals (start + overflows * 0x10000 + TMR1) modulo 2^32, with no carry lost |
| GateWindow.WindowClosure | main.c:78-103 | the tick that exhausts the downcounter reloads it and zeroes TMR1. It publishes `Duty` of the window's whole count modulo 2^32 |
| GateWindow.FullWindow | main.c:74-112 | from a fresh gate, 199 Timer0 ticks leave the reading unchanged and the downcounter at 1. The 200th publishes `Duty(overflows * 0x10000 + TMR1 mod 2^32)` |

## Left out

- The peripheral set-up in `freq_init` (main.c:121-153) is not modelled. This covers pin directions, Timer0 and Timer1 clock sources and prescalers, and interrupt enables. These are register writes that do not touch the modelled globals. T0IF, TMR1IF and TMR1 enter every interrupt as arbitrary inputs instead.
- The initial register values `freq_init` writes (`TMR0 = 0`, `TMR1 = 0`, both flags cleared, PWM pin low) are not modelled, for the same reason. The registers are not state of the model.
- `mcu_init`, `ei` and the headers `config.h`, `gpio.h` and `delay.h` are not part of this model.
- Real time is not modelled:
  - the 409.6 ms gate and the prescalers
  - the hardware counting of TMR0 and TMR1 between interrupts
  - the relation of a count to a frequency in Hz
  The model works on counts and register values.
- Concurrency is not modelled:
  - the main loop being pre-empted by the handler
  - `volatile` accesses
  Each handler run and each pass of the main loop is modelled as an atomic step.
- The endless `while (1)` loop of `main` is not modelled; one pass is `DrivePwmPin`. Its non-termination is not a property of the model.
- The macro `FREQ2CNT` (main.c:67), the `X1024to1000` conversion (main.c:84) and the high-range clamp (main.c:89-93) are not modelled, because they are unused or commented out.
- The pin writes `IO_SET`/`IO_CLR` are modelled as the boolean level they leave on the LED latch and the PWM pin.
