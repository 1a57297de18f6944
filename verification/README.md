# PIANO2 firmware core in Dafny

PIANO2 is a four-pad capacitive-touch keyboard running on a PIC12F1840. Button
S1 cycles it through piano mode, metronome mode and a low-power off mode. This
project models the logic of `Piano.X/Piano.c` as pure functions over an
immutable state record, and proves what that logic keeps true:

- `common.dfy` (`Common`): the machine types (`byte`, 16-bit `uint16`, the pin
  level `bit`), `Option`, and the PWM setting `Tone` (stopped, or PR2/CCPR1L values).
- `touch.dfy` (`TouchSensor`): the start-up calibration `init_touch` (16 counts
  per pad averaged in a 16-bit accumulator), and one sensing pass `touch_input`:
  - the per-pad trip rule `Tcount < Tavg - Tavg/8`;
  - the baseline snap-up and 1/16 smoothing;
  - the touch vector `Ttarget` and the active count `Tactive`.
- `notes.dfy` (`NoteDecoder`): the first-match decision chain from the touch
  vector to notes 1..8, and the note-to-PWM table.
- `metronome.dfy` (`Metronome`): the 41-entry `beatDelay` table and its index
  `(bpm - 40)/5`, one beat `metronome_beat`, and the metronome touch handler
  (beats per measure, tempo in steps of 5, start/stop, the `settingChange` latch).
- `firmware.dfy` (`Firmware`): the off/piano/metronome state machine. One `Step`
  is one pass through the body of the `while (mode == ...)` loop that is running.
  The `modeSwitch` latch and CapSense enable (CPSON) are part of the state.

Raw counts (TMR0 after the sensing window) and the level of S1 are inputs to a
step. The PWM registers and the beat pulse with its delay are outputs. Sleeping
until the watchdog wakes the core is the output `Napped`.

Two details of the code that the model settles:
- The pad diagram in the file header (`Piano.c:45-50`) labels T1 as note 1, but the
  decision chain (`Piano.c:226-257`) maps a lone T1 to note 7 and a lone T4 to note 1.
  The model follows the chain.
- The chain has no final `else`, so a touched vector that matched no branch would
  keep the previous note. `NoteDecoder.DecodeChain` proves that this cannot happen:
  every non-empty touch vector matches a branch (three adjacent pads T1, T2, T3, for
  example, give note 6), so the previous note is never carried over.

## Model

| member | source | states |
|---|---|---|
| TouchSensor.Average | Piano.X/Piano.c:140-147 | a pad's calibrated baseline is the floor of the mean of its 16 counts, and lies between the smallest and largest sample, so it fits the byte `Tavg[i]` |
| TouchSensor.InitTouch | Piano.X/Piano.c:135-149 | the count-down loop over 16 samples accumulates the exact sum in the 16-bit `Ttemp` without wrapping, and stores the floor of the mean, between the minimum and maximum sample, for each of the four pads |
| TouchSensor.Smooth | Piano.X/Piano.c:179-182 | the 1/16 smoothing step for a reading at or below the baseline stores exactly `Tavg - Tavg/16 + Tcount/16`, with no byte truncation; that value never goes below the reading or above the old baseline; it leaves the baseline unchanged exactly when reading and baseline share the same sixteenth |
| TouchSensor.PadStep | Piano.X/Piano.c:165-183 | a pad trips exactly when its count is below `Tavg - Tavg/8`, equality being untripped; a tripped pad keeps its baseline; an untripped pad's new baseline lies between the reading and the larger of the old baseline and the reading; a reading above the baseline is never a trip and becomes the baseline exactly; an untripped reading at or below the baseline moves it to `Tavg - Tavg/16 + Tcount/16` |
| TouchSensor.UntrippedStaysUntripped | Piano.X/Piano.c:166-183 | adapting the baseline of an untripped pad never moves its trip point above the reading that left it untripped |
| TouchSensor.TouchPass | Piano.X/Piano.c:156-186 | after a pass every `Ttarget[i]` is 0 or 1, and is 1 exactly for the pads whose count is below their trip point; each new baseline is what `PadStep` gives for that pad, so tripped pads keep their baselines and untripped ones lie between reading and maximum; `Tactive` is the number of 1s and is 0 exactly when no pad tripped |
| TouchSensor.TouchInput | Piano.X/Piano.c:156-186 | the pad-by-pad loop that increments `Tactive` on each trip computes exactly the pass result described by `TouchPass` |
| NoteDecoder.DecodeChain | Piano.X/Piano.c:226-257 | the first-match chain matches some branch exactly when at least one pad is tripped, so it has no gap, and every note it yields lies in 1..8 |
| NoteDecoder.ChainMatchesKeyboard | Piano.X/Piano.c:226-257 | on every non-empty touch vector the chain agrees with an independent reading of the keyboard: T1&T4 gives 8; otherwise the highest touched pad at index i gives 7 - 2i, one lower if the neighbouring lower pad is also touched |
| NoteDecoder.DecodeCases | Piano.X/Piano.c:226-257 | no pad matches nothing; lone T1/T2/T3/T4 give 7/5/3/1; pairs T1T2/T2T3/T3T4 give 6/4/2 |
| NoteDecoder.OuterPadsPlayTop | Piano.X/Piano.c:226-229 | any touch vector holding both T1 and T4 plays note 8, whatever else is touched |
| NoteDecoder.NextNote | Piano.X/Piano.c:224-262 | the note after a piano pass is 0 when no pad tripped, and otherwise the keyboard note in 1..8, independent of the previous note |
| NoteDecoder.ToneFor | Piano.X/Piano.c:276-327 | note 0 (and any value outside 1..8) stops the PWM; notes 1..8 load an on-time CCPR1L within half a count of half the period PR2 + 1, the 50% duty cycle |
| NoteDecoder.PitchRises | Piano.X/Piano.c:276-323 | PR2 strictly decreases from note 1 to note 8, so each higher note sounds higher |
| NoteDecoder.PlaysAMajorScale | Piano.X/Piano.c:10-13 | with the 62.5 kHz PWM clock (4 MHz oscillator, divided by 4 and by the 16:1 prescaler), notes 1..8 sound within 2% of the A major scale from A4 to A5 |
| Metronome.BeatDelayRounded | Piano.X/Piano.c:95-102 | table entry k is 60000 ms divided by 40 + 5k beats per minute, rounded to the nearest millisecond |
| Metronome.BeatDelayFalls | Piano.X/Piano.c:95-102 | the table entries fall strictly and all exceed the 20 ms subtracted from them |
| Metronome.TableIndex | Piano.X/Piano.c:337-346 | for tempos from 40 to 244 the index lies inside the 41-entry table; for a multiple of 5 in 60..240 it lies in 4..40 and recovers the tempo as 40 + 5k |
| Metronome.BeatCounts | Piano.X/Piano.c:337-346 | the delay handed to `metronome_beat` never underflows and fits the 16-bit counter (230..1480 ms); for a tempo in 60..240 that is a multiple of 5, it is 60000/bpm rounded, less 20 |
| Metronome.BeatCountsAt100 | Piano.X/Piano.c:92-102 | at the starting tempo of 100 BPM the delay is 580 ms |
| Metronome.BeatCountsMonotone | Piano.X/Piano.c:95-102 | a faster tempo always waits strictly less between beats |
| Metronome.MetronomeBeat | Piano.X/Piano.c:105-132 | a beat plays the accent tone iff the counter is 0, waits the delay it is given, and within a measure advances the counter as +1 modulo `beats`, so `beat < beats` is kept |
| Metronome.AccentIsHigher | Piano.X/Piano.c:107-122 | the first-beat tone has the shorter period, so it is the higher pitch, and both beat tones have a 50% duty cycle |
| Metronome.AccentEveryMeasure | Piano.X/Piano.c:105-127 | over any run of beats, beat j from counter value `beat` is accented exactly when `beat + j` is a multiple of `beats`, so there is one accent per measure |
| Metronome.HandleTouch | Piano.X/Piano.c:360-395 | first match wins: an unlatched T1 sets the latch and steps beats per measure 1..8 cyclically (8 to 1); otherwise T2 raises the tempo by 5 unless it is 240, also while a latched T1 is held; otherwise T3 lowers it by 5 unless it is 60; otherwise an unlatched T4 sets the latch and toggles `beatOn`; a latched T1 or T4 alone changes nothing. It keeps beats in 1..8, beat < beats, and bpm a multiple of 5 in 60..240; at most one of beats, bpm, beatOn changes; beats changes only on T1 and beatOn only on T4, both only while `settingChange` is clear; `settingChange` clears only on a pass with no pad tripped; beats wraps 8 to 1 and then resets beat to 0; bpm moves by exactly 5 and only below 240 (up) or above 60 (down) |
| Firmware.LatchAfter | Piano.X/Piano.c:264-274 | after an iteration's button checks, the `modeSwitch` latch is set exactly when S1 reads low |
| Firmware.PowerOn | Piano.X/Piano.c:77-92 | the power-on state is piano mode with the latch clear, CapSense on, note 0, the baselines `init_touch` calibrates, and the metronome running at 100 BPM with beat 0 of one beat per measure and `settingChange` clear; it satisfies the invariant and starts with a 580 ms beat delay |
| Firmware.OffStep | Piano.X/Piano.c:200-219 | an off-mode pass sleeps, switches to piano mode exactly on a counted press, and leaves CapSense enabled exactly when it switched; nothing else changes |
| Firmware.PianoStep | Piano.X/Piano.c:222-328 | a piano pass adapts the baselines, sets note 0 and stops the PWM when no pad trips, and otherwise plays the keyboard note; it enters metronome mode exactly on a counted press, setting `beatOn` and leaving bpm, beats and beat unchanged |
| Firmware.AfterBeat | Piano.X/Piano.c:335-347 | the beat at the top of a metronome pass advances the counter by one modulo `beats` when the metronome runs, and leaves the settings alone when it is stopped |
| Firmware.MetronomeStep | Piano.X/Piano.c:333-396 | a metronome pass beats exactly when `beatOn`, with the table delay, the accent tone on beat 0 and the offbeat tone on every other beat; it enters off mode exactly on a counted press; the new baselines are those of the sensing pass, and the new settings are the touch handler applied to the settings after the beat, with that pass's touch vector; it keeps the metronome settings in range |
| Firmware.Step | Piano.X/Piano.c:194-397 | the mode changes exactly on a counted press (S1 low, latch clear) and only along piano to metronome to off to piano; afterwards the latch records whether S1 is held; off mode keeps baselines and settings and leaves sensing on only when switching to piano; the invariant is kept |
| Firmware.Run | Piano.X/Piano.c:194-397 | any number of main-loop iterations keeps the state defined and keeps the invariant |
| Firmware.ReachableStatesKeepInv | Piano.X/Piano.c:189-197 | every state reached from power-on satisfies the invariant |
| Firmware.HeldButtonSwitchesOnce | Piano.X/Piano.c:264-274 | holding S1 through any number of iterations changes the mode at most once, and not at all if the latch was already set |
| Firmware.PressRelease | Piano.X/Piano.c:349-358 | a press followed by a release advances the mode by exactly one step of the cycle and leaves the latch clear |
| Firmware.ThreeCyclesReturn | Piano.X/Piano.c:5-6 | the three-mode cycle always changes the mode, and three presses return to the starting mode |

## Left out

- `init()` in `Piano.X/PIANO2.c` configures the oscillator, ports, PWM, CapSense and watchdog registers and has no logic. Its effects appear only as constants: CPSON is on at power-on, and the PWM clock is 62.5 kHz.
- `Piano.X/PIANO2.h` holds pin aliases, clock constants and the channel variables T1–T4, which the code never reads.
- Raw sensing hardware is not modelled: the CPSCON1 channel select, and clearing and reading TMR0 over the 1 ms window. Each pad's count is a byte input.
- Timing is not modelled: `__delay_ms`/`__delay_us`, the 990 µs countdown loop, the 25 ms beat pulse, and the watchdog sleep and wake. A beat is modelled as its tone and the millisecond count passed to `metronome_beat`; a sleep is the output `Napped`.
- SWDTEN toggling is not modelled. It only arms the wake-up timer for the sleep.
- PWM and TMR2 register side effects are modelled as an output `Tone` (the final PR2/CCPR1L values, or stopped), not as register writes.
- `Tdelta`, `Tthresh` and the stored arrays `Tcount`/`Ttrip` are not kept as state. `Tdelta` and `Tthresh` are never read. `Tcount` and `Ttrip` are only used within a pass, where the model computes them directly.
- Firmware.Step: each loop reads S1 twice (the press check, then the release check). The model samples S1 once per iteration, so it does not cover the pin changing between the two reads.
- Firmware.Step: the step requires the tempo to lie in 40..244, the range where the table index stays inside the 41-entry table. Outside that range the C code reads beyond `beatDelay`. Such states are unreachable from power-on (`Firmware.ReachableStatesKeepInv`).
- Metronome.TableIndex: the `bpmIndex == 0` branch is modelled as written. It is dead under the tempo invariant, and even at 40 BPM it selects the same entry as the general branch.
- NoteDecoder.DecodeChain: requires every touch-vector entry to be 0 or 1, which `touch_input` always guarantees.
- Metronome.HandleTouch: requires `Tactive` to be the number of tripped pads, which `touch_input` always returns.
