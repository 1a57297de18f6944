/** The main program: three operating modes cycled by button S1, each running
    its own loop body once per iteration of the main loop. One `Step` is one pass
    through the body of whichever of the three `while (mode == ...)` loops runs. */
module Firmware {
  import opened Common
  import opened TouchSensor
  import NoteDecoder
  import Metronome

  /** `off_mode`, `piano_mode`, `metronome_mode`. */
  datatype Mode = OffMode | PianoMode | MetronomeMode

  /** All firmware state the loops read and write. `sensing` is the CapSense
      enable bit CPSON; `modeSwitch` is the button latch. */
  datatype State = State(
    mode: Mode,
    modeSwitch: bool,
    sensing: bool,
    avg: seq<byte>,
    note: byte,
    metro: Metronome.Settings)

  /** What one iteration reads: the level of S1 (0 while pressed) and the raw
      count of each pad over its sensing window (unused in off mode). */
  datatype Inputs = Inputs(s1: bit, counts: seq<byte>)

  /** What one iteration does to the outside: sleeps until the watchdog wakes
      it, leaves the PWM playing a tone or stopped, or plays one metronome beat
      (none while the metronome is stopped). */
  datatype Output = Napped | Played(tone: Tone) | Ticked(pulse: Option<Metronome.Pulse>)

  datatype StepResult = StepResult(next: State, out: Output)

  /** The mode cycle a button press advances: piano, metronome, off, piano. */
  function NextMode(m: Mode): Mode
  {
    match m
    case PianoMode => MetronomeMode
    case MetronomeMode => OffMode
    case OffMode => PianoMode
  }

  /** A button press counts when S1 reads low and the latch is clear. */
  predicate Fires(modeSwitch: bool, s1: bit)
  {
    s1 == 0 && !modeSwitch
  }

  /** The latch after an iteration's two button checks: a counted press sets it,
      a high S1 clears it. Either way it ends up recording whether S1 is held. */
  function LatchAfter(modeSwitch: bool, s1: bit): (latch: bool)
    ensures latch <==> s1 == 0
  {
    var latched := if Fires(modeSwitch, s1) then true else modeSwitch;
    if s1 == 1 then false else latched
  }

  /** State on which every step is defined: four baselines, and a tempo whose
      table index lands inside the table. */
  predicate Defined(s: State)
  {
    |s.avg| == Pads && Metronome.TempoInTable(s.metro)
  }

  /** What the firmware keeps true: a note of 0..8, the metronome settings in
      range, and sensing enabled outside off mode. */
  predicate Inv(s: State)
  {
    Defined(s) && s.note <= 8 && Metronome.Valid(s.metro) && (s.mode != OffMode ==> s.sensing)
  }

  /** The state after `init` and `init_touch` at power-on: piano mode, sensing on,
      calibrated baselines, and the metronome at 100 BPM, one beat per measure. */
  function PowerOn(samples: seq<seq<byte>>): (s: State)
    requires |samples| == Pads
    requires forall p :: 0 <= p < Pads ==> |samples[p]| == Samples
    ensures Inv(s) && s.mode == PianoMode && !s.modeSwitch && s.sensing
    ensures s.avg == Calibrate(samples) && s.note == 0
    ensures s.metro == Metronome.Settings(true, false, 0, 1, 100)
    ensures Metronome.BeatCounts(s.metro.bpm) == 580
  {
    Metronome.BeatCountsAt100();
    State(PianoMode, false, true, Calibrate(samples), 0,
          Metronome.Settings(true, false, 0, 1, 100))
  }

  /** One pass of the off-mode loop: CapSense off, sleep, then on a counted press
      turn CapSense back on and switch to piano mode. */
  function OffStep(s: State, s1: bit): (r: StepResult)
    requires s.mode == OffMode
    ensures r.out == Napped
    ensures r.next.sensing <==> r.next.mode == PianoMode
    ensures r.next.mode == (if Fires(s.modeSwitch, s1) then PianoMode else OffMode)
    ensures r.next == s.(mode := r.next.mode, sensing := r.next.sensing, modeSwitch := r.next.modeSwitch)
  {
    var fire := Fires(s.modeSwitch, s1);
    var next := s.(sensing := fire,
                   mode := if fire then PianoMode else OffMode,
                   modeSwitch := LatchAfter(s.modeSwitch, s1));
    StepResult(next, Napped)
  }

  /** One pass of the piano loop: sense, decode the note, check the button (a
      counted press enters metronome mode and starts the beat), then set the PWM
      for the note. */
  function PianoStep(s: State, inp: Inputs): (r: StepResult)
    requires s.mode == PianoMode && |s.avg| == Pads && |inp.counts| == Pads
    ensures r.out == Played(NoteDecoder.ToneFor(r.next.note))
    ensures var pass := TouchPass(s.avg, inp.counts);
            r.next.avg == pass.avg &&
            (pass.active == 0 ==> r.next.note == 0 && r.out == Played(Silent)) &&
            (pass.active > 0 ==> r.next.note == NoteDecoder.KeyboardNote(pass.targets) && r.out.tone.Pwm?)
    ensures r.next.mode == MetronomeMode <==> Fires(s.modeSwitch, inp.s1)
    ensures r.next.mode != MetronomeMode ==> r.next.mode == PianoMode && r.next.metro == s.metro
    ensures r.next.mode == MetronomeMode ==> r.next.metro == s.metro.(beatOn := true)
    ensures r.next.sensing == s.sensing
  {
    var pass := TouchPass(s.avg, inp.counts);
    var note := NoteDecoder.NextNote(s.note, pass.active, pass.targets);
    var fire := Fires(s.modeSwitch, inp.s1);
    var next := s.(avg := pass.avg,
                   note := note,
                   mode := if fire then MetronomeMode else PianoMode,
                   metro := if fire then s.metro.(beatOn := true) else s.metro,
                   modeSwitch := LatchAfter(s.modeSwitch, inp.s1));
    StepResult(next, Played(NoteDecoder.ToneFor(note)))
  }

  /** The metronome settings after the beat of a metronome pass: a running
      metronome advances its counter by one within the measure. */
  function AfterBeat(m: Metronome.Settings): (r: Metronome.Settings)
    ensures !m.beatOn ==> r == m
    ensures m.beatOn && m.beat < m.beats ==> r == m.(beat := (m.beat + 1) % m.beats)
  {
    if m.beatOn then m.(beat := Metronome.MetronomeBeat(m.beat, m.beats, 0).beat)
    else m
  }

  /** One pass of the metronome loop: play a beat if the metronome runs, check
      the button (a counted press enters off mode), then sense and handle touches. */
  function MetronomeStep(s: State, inp: Inputs): (r: StepResult)
    requires s.mode == MetronomeMode && Defined(s) && |inp.counts| == Pads
    ensures r.out.Ticked?
    ensures r.out.pulse.Some? <==> s.metro.beatOn
    ensures r.out.pulse.Some? ==>
              r.out.pulse.value.delay == Metronome.BeatCounts(s.metro.bpm) &&
              r.out.pulse.value.tone == (if s.metro.beat == 0 then Metronome.Accent else Metronome.Offbeat)
    ensures r.next.mode == OffMode <==> Fires(s.modeSwitch, inp.s1)
    ensures r.next.mode != OffMode ==> r.next.mode == MetronomeMode
    ensures Metronome.Valid(s.metro) ==> Metronome.Valid(r.next.metro)
    ensures Metronome.TempoInTable(r.next.metro)
    ensures r.next.sensing == s.sensing && r.next.note == s.note
    ensures var pass := TouchPass(s.avg, inp.counts);
            r.next.avg == pass.avg &&
            r.next.metro == Metronome.HandleTouch(AfterBeat(s.metro), pass.active, pass.targets)
  {
    var beat := if s.metro.beatOn
                then Some(Metronome.MetronomeBeat(s.metro.beat, s.metro.beats, Metronome.BeatCounts(s.metro.bpm)))
                else None;
    var metro := if beat.Some? then s.metro.(beat := beat.value.beat) else s.metro;
    var fire := Fires(s.modeSwitch, inp.s1);
    var pass := TouchPass(s.avg, inp.counts);
    var next := s.(mode := if fire then OffMode else MetronomeMode,
                   modeSwitch := LatchAfter(s.modeSwitch, inp.s1),
                   avg := pass.avg,
                   metro := Metronome.HandleTouch(metro, pass.active, pass.targets));
    StepResult(next, Ticked(if beat.Some? then Some(beat.value.pulse) else None))
  }

  /** One iteration of the main loop. The mode changes only on a counted press,
      and then to the next mode of the cycle; the latch ends up recording whether
      S1 is held; the invariant is kept. */
  function Step(s: State, inp: Inputs): (r: StepResult)
    requires Defined(s) && |inp.counts| == Pads
    ensures Defined(r.next)
    ensures Inv(s) ==> Inv(r.next)
    ensures r.next.modeSwitch <==> inp.s1 == 0
    ensures r.next.mode != s.mode <==> Fires(s.modeSwitch, inp.s1)
    ensures r.next.mode != s.mode ==> r.next.mode == NextMode(s.mode)
    ensures s.mode == OffMode ==>
              r.out == Napped && r.next.avg == s.avg && r.next.metro == s.metro &&
              (r.next.sensing <==> r.next.mode == PianoMode)
    ensures s.mode != OffMode ==> r.next.sensing == s.sensing
  {
    match s.mode
    case OffMode => OffStep(s, inp.s1)
    case PianoMode => PianoStep(s, inp)
    case MetronomeMode => MetronomeStep(s, inp)
  }

  /** Every iteration's counts cover the four pads. */
  predicate WellFormed(ins: seq<Inputs>)
  {
    forall k :: 0 <= k < |ins| ==> |ins[k].counts| == Pads
  }

  /** The state after running the main loop over a sequence of iterations. */
  function Run(s: State, ins: seq<Inputs>): (r: State)
    requires Defined(s) && WellFormed(ins)
    ensures Defined(r)
    ensures Inv(s) ==> Inv(r)
    decreases |ins|
  {
    if |ins| == 0 then s else Run(Step(s, ins[0]).next, ins[1..])
  }

  /** Every state the firmware reaches from power-on keeps the invariant: bpm a
      multiple of 5 in 60..240, 1..8 beats per measure with the beat counter
      inside the measure, a note of 0..8, sensing on outside off mode. */
  lemma ReachableStatesKeepInv(samples: seq<seq<byte>>, ins: seq<Inputs>)
    requires |samples| == Pads
    requires forall p :: 0 <= p < Pads ==> |samples[p]| == Samples
    requires WellFormed(ins)
    ensures Inv(Run(PowerOn(samples), ins))
  {
  }

  /** Number of iterations of a run that change the mode. */
  function Switches(s: State, ins: seq<Inputs>): nat
    requires Defined(s) && WellFormed(ins)
    decreases |ins|
  {
    if |ins| == 0 then 0
    else
      var next := Step(s, ins[0]).next;
      (if next.mode != s.mode then 1 else 0) + Switches(next, ins[1..])
  }

  /** Holding S1 down through any number of iterations changes the mode at most
      once, and not at all if the press was already counted. */
  lemma {:induction false} HeldButtonSwitchesOnce(s: State, ins: seq<Inputs>)
    requires Defined(s) && WellFormed(ins)
    requires forall k :: 0 <= k < |ins| ==> ins[k].s1 == 0
    ensures Switches(s, ins) <= (if s.modeSwitch then 0 else 1)
    decreases |ins|
  {
    if |ins| > 0 {
      var next := Step(s, ins[0]).next;
      HeldButtonSwitchesOnce(next, ins[1..]);
    }
  }

  /** A press followed by a release advances the mode by one and leaves the latch clear. */
  lemma PressRelease(s: State, press: Inputs, release: Inputs)
    requires Defined(s) && !s.modeSwitch
    requires |press.counts| == Pads && |release.counts| == Pads
    requires press.s1 == 0 && release.s1 == 1
    ensures var r := Run(s, [press, release]);
            r.mode == NextMode(s.mode) && !r.modeSwitch
  {
    var mid := Step(s, press).next;
    assert mid.mode == NextMode(s.mode) && mid.modeSwitch;
    var fin := Step(mid, release).next;
    assert fin.mode == mid.mode && !fin.modeSwitch;
    assert [press, release][1..] == [release];
    assert [release][1..] == [];
    assert Run(s, [press, release]) == Run(mid, [release]);
    assert Run(mid, [release]) == Run(fin, []) == fin;
  }

  /** Three press-release cycles bring every mode back to itself. */
  lemma ThreeCyclesReturn(m: Mode)
    ensures NextMode(NextMode(NextMode(m))) == m
    ensures NextMode(m) != m
  {
  }
}
