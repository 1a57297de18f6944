/** Piano mode: the touch vector decides a note, and the note decides the PWM
    settings of the tone played on the piezo beeper. */
module NoteDecoder {
  import opened Common
  import opened TouchSensor

  /** The decision chain of the piano loop over `Ttarget[0..3]` (pads T1..T4),
      first match wins. `None` stands for falling through every branch, which
      would leave the previous note in place. */
  function DecodeChain(t: seq<byte>): (r: Option<byte>)
    requires ValidTargets(t)
    ensures r.Some? <==> CountOnes(t) > 0
    ensures r.Some? ==> 1 <= r.value <= 8
  {
    if t[0] == 1 && t[3] == 1 then Some(8)
    else if t[0] == 1 && t[1] == 0 then Some(7)
    else if t[0] == 1 && t[1] == 1 then Some(6)
    else if t[0] == 0 && t[1] == 1 && t[2] == 0 then Some(5)
    else if t[1] == 1 && t[2] == 1 then Some(4)
    else if t[1] == 0 && t[2] == 1 && t[3] == 0 then Some(3)
    else if t[2] == 1 && t[3] == 1 then Some(2)
    else if t[3] == 1 && t[2] == 0 then Some(1)
    else None
  }

  /** Index of the first touched pad, counting from T1. */
  function FirstTouched(t: seq<byte>): (i: nat)
    requires exists k :: 0 <= k < |t| && t[k] == 1
    ensures i < |t| && t[i] == 1
    ensures forall k :: 0 <= k < i ==> t[k] != 1
  {
    if t[0] == 1 then 0
    else
      assert exists k :: 0 <= k < |t[1..]| && t[1..][k] == 1 by {
        var k :| 0 <= k < |t| && t[k] == 1;
        assert t[1..][k - 1] == 1;
      }
      FirstTouched(t[1..]) + 1
  }

  /** The keyboard read as a scale, independently of the chain: T4 is the lowest
      key and T1 the highest. A pad alone plays the odd note at its position
      (T4, T3, T2, T1 give 1, 3, 5, 7); a pad together with its lower neighbour
      plays the note between them; T1 with T4 plays the top note 8. When several
      pads are touched, the highest touched pad decides. */
  function KeyboardNote(t: seq<byte>): (n: byte)
    requires ValidTargets(t) && CountOnes(t) > 0
  {
    if t[0] == 1 && t[3] == 1 then 8
    else
      var i := FirstTouched(t);
      7 - 2 * i - (if i + 1 < Pads && t[i + 1] == 1 then 1 else 0)
  }

  /** The chain and the keyboard reading agree on every non-empty touch vector. */
  lemma ChainMatchesKeyboard(t: seq<byte>)
    requires ValidTargets(t) && CountOnes(t) > 0
    ensures DecodeChain(t) == Some(KeyboardNote(t))
  {
    var i := FirstTouched(t);
    assert i == 0 || t[0] == 0;
    assert i <= 1 || t[1] == 0;
    assert i <= 2 || t[2] == 0;
  }

  /** The chain on no pad, single pads and adjacent pairs. */
  lemma DecodeCases()
    ensures DecodeChain([0, 0, 0, 0]) == None
    ensures DecodeChain([1, 0, 0, 0]) == Some(7)
    ensures DecodeChain([0, 1, 0, 0]) == Some(5)
    ensures DecodeChain([0, 0, 1, 0]) == Some(3)
    ensures DecodeChain([0, 0, 0, 1]) == Some(1)
    ensures DecodeChain([1, 1, 0, 0]) == Some(6)
    ensures DecodeChain([0, 1, 1, 0]) == Some(4)
    ensures DecodeChain([0, 0, 1, 1]) == Some(2)
  {
  }

  /** Touching T1 and T4 together plays the top note, whatever else is touched. */
  lemma OuterPadsPlayTop(t: seq<byte>)
    requires ValidTargets(t) && t[0] == 1 && t[3] == 1
    ensures DecodeChain(t) == Some(8)
  {
  }

  /** The note after one pass of the piano loop: silence when no pad is tripped,
      otherwise the chain's note. The chain never falls through on a non-empty
      vector, so the previous note is never carried over. */
  function NextNote(note: byte, active: byte, t: seq<byte>): (n: byte)
    requires ValidTargets(t) && active as int == CountOnes(t)
    ensures active == 0 ==> n == 0
    ensures active > 0 ==> 1 <= n <= 8 && n == KeyboardNote(t)
  {
    if active > 0 then
      ChainMatchesKeyboard(t);
      match DecodeChain(t)
      case Some(v) => v
      case None => note
    else 0
  }

  /** PWM settings for a note, as the piano loop loads PR2 and CCPR1L; any value
      other than 1..8 stops the PWM. Each on-time is within half a count of half
      the PWM period (PR2 + 1), the 50% duty cycle of a square wave. */
  function ToneFor(note: byte): (r: Tone)
    ensures r.Silent? <==> note == 0 || note > 8
    ensures r.Pwm? ==> r.period + 1 <= 2 * r.onTime <= r.period + 2
  {
    if note == 8 then Pwm(69, 35)
    else if note == 7 then Pwm(74, 38)
    else if note == 6 then Pwm(83, 42)
    else if note == 5 then Pwm(93, 47)
    else if note == 4 then Pwm(105, 53)
    else if note == 3 then Pwm(111, 56)
    else if note == 2 then Pwm(125, 63)
    else if note == 1 then Pwm(140, 71)
    else Silent
  }

  /** Higher notes have strictly shorter PWM periods, so they sound higher. */
  lemma PitchRises(a: byte, b: byte)
    requires 1 <= a < b <= 8
    ensures ToneFor(a).period > ToneFor(b).period
  {
  }

  /** Frequency of the PWM clock in Hz: the 4 MHz oscillator divided by 4 and by
      the 16:1 TMR2 prescaler. A PWM period of PR2 + 1 clocks gives
      `PwmClockHz / (PR2 + 1)` Hz. */
  const PwmClockHz: nat := 62500

  /** The A major scale from A4 to A5 in equal temperament, rounded to whole Hz. */
  const AMajorHz: seq<nat> := [0, 440, 494, 554, 587, 659, 740, 831, 880]

  /** Every note sounds within 2% of its pitch in the A major scale. */
  lemma PlaysAMajorScale(n: byte)
    requires 1 <= n <= 8
    ensures var d := AMajorHz[n] * (ToneFor(n).period + 1);
            50 * (if PwmClockHz < d then d - PwmClockHz else PwmClockHz - d) <= d
  {
  }
}
