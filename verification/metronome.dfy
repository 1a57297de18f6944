/** Metronome mode: the tempo table, one beat (`metronome_beat`), and the touch
    handler that adjusts beats per measure, tempo and start/stop. */
module Metronome {
  import opened Common
  import opened TouchSensor

  /** Milliseconds between beats for 40, 45, ..., 240 beats per minute (`beatDelay`). */
  const BeatDelay: seq<uint16> := [
    1500, 1333, 1200, 1091, 1000, 923, 857, 800,
    750, 706, 667, 632, 600, 571, 545, 522,
    500, 480, 462, 444, 429, 414, 400, 387,
    375, 364, 353, 343, 333, 324, 316, 308,
    300, 293, 286, 279, 273, 267, 261, 255,
    250 ]

  /** Milliseconds taken off a table entry to allow for the beat pulse. */
  const PulseAllowance: nat := 20

  /** The tone of the first beat of a measure, and of every other beat. */
  const Accent: Tone := Pwm(93, 47)
  const Offbeat: Tone := Pwm(111, 56)

  /** `a / b` rounded to the nearest integer. */
  function RoundDiv(a: nat, b: nat): nat
    requires b > 0
  {
    (2 * a + b) / (2 * b)
  }

  /** A tempo the touch handler keeps: a multiple of 5 from 60 to 240. */
  predicate ValidBpm(bpm: int)
  {
    60 <= bpm <= 240 && bpm % 5 == 0
  }

  /** Entry k of the table is one minute divided by 40 + 5k beats, rounded to the
      nearest millisecond. */
  lemma BeatDelayRounded()
    ensures |BeatDelay| == 41
    ensures forall k :: 0 <= k < |BeatDelay| ==> BeatDelay[k] == RoundDiv(60000, 40 + 5 * k)
  {
    BeatDelayRoundedFrom0();
    BeatDelayRoundedFrom11();
    BeatDelayRoundedFrom21();
    BeatDelayRoundedFrom31();
  }

  // The table is checked in four runs of about ten entries, which keeps each proof small.

  lemma BeatDelayRoundedFrom0()
    ensures forall k :: 0 <= k < 11 ==> BeatDelay[k] == RoundDiv(60000, 40 + 5 * k)
  {
  }

  lemma BeatDelayRoundedFrom11()
    ensures forall k :: 11 <= k < 21 ==> BeatDelay[k] == RoundDiv(60000, 40 + 5 * k)
  {
  }

  lemma BeatDelayRoundedFrom21()
    ensures forall k :: 21 <= k < 31 ==> BeatDelay[k] == RoundDiv(60000, 40 + 5 * k)
  {
  }

  lemma BeatDelayRoundedFrom31()
    ensures forall k :: 31 <= k < 41 ==> BeatDelay[k] == RoundDiv(60000, 40 + 5 * k)
  {
  }

  /** Entries fall strictly and all exceed the pulse allowance. */
  lemma BeatDelayFalls()
    ensures |BeatDelay| == 41
    ensures forall k :: 0 < k < |BeatDelay| ==> PulseAllowance < BeatDelay[k] < BeatDelay[k - 1]
  {
  }

  /** The table index for a tempo (`bpmIndex`), defined while it lands inside
      the table. For a tempo the handler keeps, the index inverts `40 + 5k`. */
  function TableIndex(bpm: byte): (k: nat)
    requires 40 <= bpm <= 244
    ensures k < |BeatDelay|
    ensures ValidBpm(bpm) ==> 4 <= k && bpm == 40 + 5 * k
  {
    var bpmIndex := bpm - 40;
    if bpmIndex == 0 then 0 else bpmIndex / 5
  }

  /** Milliseconds handed to `metronome_beat` for a tempo: the table entry less
      the allowance. It never underflows, and for a tempo the handler keeps it is
      one minute over the tempo, rounded, less the allowance. */
  function BeatCounts(bpm: byte): (counts: nat)
    requires 40 <= bpm <= 244
    ensures 230 <= counts <= 1480
    ensures ValidBpm(bpm) ==> counts + PulseAllowance == RoundDiv(60000, bpm)
  {
    BeatDelayRounded();
    BeatDelayFalls();
    BeatDelay[TableIndex(bpm)] - PulseAllowance
  }

  /** At 100 beats per minute, 580 ms pass between the beat pulses. */
  lemma BeatCountsAt100()
    ensures BeatCounts(100) == 580
  {
  }

  /** A faster tempo never waits longer between beats. */
  lemma BeatCountsMonotone(a: byte, b: byte)
    requires ValidBpm(a) && ValidBpm(b) && a < b
    ensures BeatCounts(b) < BeatCounts(a)
  {
    BeatDelayFalls();
    var i, j := TableIndex(a), TableIndex(b);
    var k := i + 1;
    while k < j
      invariant i < k <= j
      invariant BeatDelay[k] < BeatDelay[i]
    {
      k := k + 1;
    }
  }

  /** A beat's pulse tone and the delay that follows it. */
  datatype Pulse = Pulse(tone: Tone, delay: nat)

  datatype BeatResult = BeatResult(pulse: Pulse, beat: byte)

  /** `metronome_beat`: play the accent on beat 0 and the offbeat otherwise,
      advance the byte `beat` and wrap it to 0 when it reaches `beats`, then wait
      `counts` milliseconds. Within a measure the counter advances modulo `beats`. */
  function MetronomeBeat(beat: byte, beats: byte, counts: nat): (r: BeatResult)
    ensures r.pulse.tone == (if beat == 0 then Accent else Offbeat)
    ensures r.pulse.delay == counts
    ensures beat < beats ==> r.beat == (beat + 1) % beats
  {
    var tone := if beat == 0 then Accent else Offbeat;
    var next := (beat + 1) % 0x100;
    CounterWraps(beat, beats);
    BeatResult(Pulse(tone, counts), if next == beats then 0 else next)
  }

  /** Stepping a counter below `beats` and wrapping it at `beats` is adding one modulo `beats`. */
  lemma CounterWraps(beat: nat, beats: nat)
    ensures beat < beats ==> (if beat + 1 == beats then 0 else beat + 1) == (beat + 1) % beats
  {
    if beat + 1 == beats {
      ModUnique(beat + 1, beats, 1, 0);
    } else if beat < beats {
      ModUnique(beat + 1, beats, 0, beat + 1);
    }
  }

  /** The accent is the higher of the two beat pitches. */
  lemma AccentIsHigher()
    ensures Accent.period < Offbeat.period
    ensures Accent.period + 1 <= 2 * Accent.onTime <= Accent.period + 2
    ensures Offbeat.period + 1 <= 2 * Offbeat.onTime <= Offbeat.period + 2
  {
  }

  /** Tones of `n` successive beats starting from counter value `beat`. */
  function BeatTones(beat: byte, beats: byte, n: nat): (r: seq<Tone>)
    ensures |r| == n
    decreases n
  {
    if n == 0 then []
    else
      var b := MetronomeBeat(beat, beats, 0);
      [b.pulse.tone] + BeatTones(b.beat, beats, n - 1)
  }

  /** Euclidean division leaves a unique remainder. */
  lemma ModUnique(x: int, m: int, q: int, r: int)
    requires m > 0 && 0 <= r < m && x == q * m + r
    ensures x % m == r
  {
    var q', r' := x / m, x % m;
    assert x == q' * m + r';
    var d := q - q';
    assert d * m == q * m - q' * m;
    assert d * m == r' - r;
    if d > 0 {
      MulAtLeast(d, m);
    } else if d < 0 {
      MulAtLeast(-d, m);
    }
  }

  lemma MulAtLeast(a: int, m: int)
    requires a >= 1 && m > 0
    ensures a * m >= m
  {
    assert a * m == (a - 1) * m + m;
  }

  /** Reducing a counter before adding to it does not change the result modulo m. */
  lemma ModStep(a: nat, m: nat, j: nat)
    requires m > 0
    ensures (a % m + j) % m == (a + j) % m
  {
    var y := a % m + j;
    assert a == (a / m) * m + a % m;
    assert y == (y / m) * m + y % m;
    assert a + j == (a / m + y / m) * m + y % m;
    ModUnique(a + j, m, a / m + y / m, y % m);
  }

  /** Beat j after starting at counter value `beat` is accented exactly when
      `beat + j` is a multiple of `beats`: one accent per measure. */
  lemma {:induction false} AccentEveryMeasure(beat: byte, beats: byte, n: nat, j: nat)
    requires beat < beats && j < n
    ensures BeatTones(beat, beats, n)[j] == Accent <==> (beat + j) % beats == 0
    decreases j
  {
    var b := MetronomeBeat(beat, beats, 0);
    var tones := BeatTones(beat, beats, n);
    var rest := BeatTones(b.beat, beats, n - 1);
    assert tones == [b.pulse.tone] + rest;
    if j == 0 {
      ModUnique(beat, beats, 0, beat);
    } else {
      AccentEveryMeasure(b.beat, beats, n - 1, j - 1);
      assert tones[j] == rest[j - 1];
      ModStep(beat + 1, beats, j - 1);
    }
  }

  /** The metronome settings (`beatOn`, `settingChange`, `beat`, `beats`, `bpm`). */
  datatype Settings = Settings(beatOn: bool, settingChange: bool, beat: byte, beats: byte, bpm: byte)

  /** What the metronome keeps true: 1..8 beats per measure, the counter inside
      the measure, and a tempo from 60 to 240 in steps of 5. */
  predicate Valid(s: Settings)
  {
    1 <= s.beats <= 8 && s.beat < s.beats && ValidBpm(s.bpm)
  }

  /** Tempo range within which the table lookup is defined. */
  predicate TempoInTable(s: Settings)
  {
    40 <= s.bpm <= 244
  }

  /** The touch handler of the metronome loop. Pad T1 (edge-latched) steps the
      beats per measure through 1..8; T2 raises and T3 lowers the tempo by 5 within
      60..240; T4 (edge-latched) starts or stops the beat. The shared latch
      `settingChange` is set by T1 or T4 and cleared only by a pass with no pad
      tripped. At most one setting changes per pass. */
  function HandleTouch(s: Settings, active: byte, t: seq<byte>): (r: Settings)
    requires ValidTargets(t) && active as int == CountOnes(t)
    ensures Valid(s) ==> Valid(r)
    ensures TempoInTable(s) ==> TempoInTable(r)
    ensures active == 0 ==> r == s.(settingChange := false)
    ensures s.settingChange && !r.settingChange ==> active == 0
    ensures !s.settingChange && r.settingChange ==> r.beats != s.beats || r.beatOn != s.beatOn
    ensures (if r.beats != s.beats then 1 else 0) + (if r.bpm != s.bpm then 1 else 0)
            + (if r.beatOn != s.beatOn then 1 else 0) <= 1
    ensures r.beats != s.beats ==> t[0] == 1 && !s.settingChange
    ensures r.beatOn != s.beatOn ==> t[3] == 1 && !s.settingChange
    ensures r.bpm > s.bpm ==> t[1] == 1 && s.bpm < 240 && r.bpm == s.bpm + 5
    ensures r.bpm < s.bpm ==> t[2] == 1 && s.bpm > 60 && r.bpm == s.bpm - 5
    ensures Valid(s) && r.beats != s.beats ==>
              r.beats == s.beats % 8 + 1 && r.beat == (if s.beats == 8 then 0 else s.beat)
    ensures r.beat != s.beat ==> r.beat == 0 && r.beats == 1
    // What each pad does, first match winning: T1 (unlatched) steps beats per measure
    ensures active > 0 && t[0] == 1 && !s.settingChange ==>
              r.settingChange && r.bpm == s.bpm && r.beatOn == s.beatOn &&
              (Valid(s) ==> r.beats == s.beats % 8 + 1)
    // T2 raises the tempo, also while a held T1 is latched
    ensures active > 0 && !(t[0] == 1 && !s.settingChange) && t[1] == 1 ==>
              r == s.(bpm := if s.bpm < 240 then s.bpm + 5 else s.bpm)
    // T3 lowers the tempo
    ensures active > 0 && !(t[0] == 1 && !s.settingChange) && t[1] == 0 && t[2] == 1 ==>
              r == s.(bpm := if s.bpm > 60 then s.bpm - 5 else s.bpm)
    // T4 (unlatched) starts or stops the beat
    ensures active > 0 && !(t[0] == 1 && !s.settingChange) && t[1] == 0 && t[2] == 0 &&
            t[3] == 1 && !s.settingChange ==>
              r == s.(settingChange := true, beatOn := !s.beatOn)
    // a latched T1 or T4 alone changes nothing
    ensures active > 0 && s.settingChange && t[1] == 0 && t[2] == 0 ==> r == s
  {
    if active > 0 then
      if t[0] == 1 && !s.settingChange then
        var beats := (s.beats + 1) % 0x100;
        if beats >= 9 then s.(settingChange := true, beats := 1, beat := 0)
        else s.(settingChange := true, beats := beats)
      else if t[1] == 1 then
        if s.bpm < 240 then s.(bpm := s.bpm + 5) else s
      else if t[2] == 1 then
        if s.bpm > 60 then s.(bpm := s.bpm - 5) else s
      else if t[3] == 1 && !s.settingChange then
        s.(settingChange := true, beatOn := !s.beatOn)
      else s
    else s.(settingChange := false)
  }
}
