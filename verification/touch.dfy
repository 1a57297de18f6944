/** Capacitive touch sensing: start-up calibration of a per-pad baseline and the
    per-pass trip decision with baseline adaptation (`init_touch`, `touch_input`).
    Raw oscillator counts (TMR0 after the 1 ms sensing window) are inputs. */
module TouchSensor {
  import opened Common

  /** Number of touch pads, T1..T4 on CapSense channels 0..3. */
  const Pads: nat := 4

  /** Number of raw counts averaged per pad at calibration. */
  const Samples: nat := 16

  // ---------------------------------------------------------------------------
  // Calibration
  // ---------------------------------------------------------------------------

  /** Sum of a run of counts, accumulated front to back. */
  function Sum(s: seq<byte>): nat
  {
    if |s| == 0 then 0 else Sum(s[..|s| - 1]) + s[|s| - 1]
  }

  /** Smallest count of a non-empty run. */
  function Min(s: seq<byte>): (m: byte)
    requires |s| > 0
    ensures exists k :: 0 <= k < |s| && s[k] == m
    ensures forall k :: 0 <= k < |s| ==> m <= s[k]
  {
    if |s| == 1 then s[0]
    else
      var m := Min(s[..|s| - 1]);
      assert forall k :: 0 <= k < |s| - 1 ==> s[..|s| - 1][k] == s[k];
      if s[|s| - 1] < m then s[|s| - 1] else m
  }

  /** Largest count of a non-empty run. */
  function Max(s: seq<byte>): (m: byte)
    requires |s| > 0
    ensures exists k :: 0 <= k < |s| && s[k] == m
    ensures forall k :: 0 <= k < |s| ==> s[k] <= m
  {
    if |s| == 1 then s[0]
    else
      var m := Max(s[..|s| - 1]);
      assert forall k :: 0 <= k < |s| - 1 ==> s[..|s| - 1][k] == s[k];
      if s[|s| - 1] > m then s[|s| - 1] else m
  }

  /** A sum lies between |s| times any lower bound and |s| times any upper bound of its terms. */
  lemma {:induction false} SumBounds(s: seq<byte>, lo: int, hi: int)
    requires forall k :: 0 <= k < |s| ==> lo <= s[k] <= hi
    ensures |s| * lo <= Sum(s) <= |s| * hi
  {
    if |s| > 0 {
      var init := s[..|s| - 1];
      assert forall k :: 0 <= k < |init| ==> init[k] == s[k];
      SumBounds(init, lo, hi);
      assert |s| * lo == |init| * lo + lo;
      assert |s| * hi == |init| * hi + hi;
    }
  }

  /** Extending a prefix by one element adds that element to the sum. */
  lemma SumPrefix(s: seq<byte>, k: nat)
    requires k < |s|
    ensures Sum(s[..k + 1]) == Sum(s[..k]) + s[k]
  {
    assert s[..k + 1][..k] == s[..k];
  }

  /** The calibrated baseline of one pad: the 16 counts summed and divided by 16,
      truncating. The result lies between the smallest and the largest sample, so
      it fits the byte `Tavg[i]`. */
  function Average(s: seq<byte>): (a: byte)
    requires |s| == Samples
    ensures a * Samples <= Sum(s) < (a + 1) * Samples
    ensures Min(s) <= a <= Max(s)
  {
    SumBounds(s, Min(s), Max(s));
    Sum(s) / Samples
  }

  /** Baselines of all four pads from their calibration samples. */
  function Calibrate(samples: seq<seq<byte>>): (avg: seq<byte>)
    requires |samples| == Pads
    requires forall p :: 0 <= p < Pads ==> |samples[p]| == Samples
    ensures |avg| == Pads
  {
    seq(Pads, p requires 0 <= p < Pads => Average(samples[p]))
  }

  /** `init_touch`: for each pad, add 16 counts into the 16-bit accumulator `Ttemp`
      and store `Ttemp / 16`. The accumulator never wraps: it stays at most 16 * 255. */
  method InitTouch(samples: seq<seq<byte>>) returns (avg: seq<byte>)
    requires |samples| == Pads
    requires forall p :: 0 <= p < Pads ==> |samples[p]| == Samples
    ensures |avg| == Pads
    ensures forall p :: 0 <= p < Pads ==> avg[p] * Samples <= Sum(samples[p]) < (avg[p] + 1) * Samples
    ensures forall p :: 0 <= p < Pads ==> Min(samples[p]) <= avg[p] <= Max(samples[p])
    ensures avg == Calibrate(samples)
  {
    avg := [];
    var i := 0;
    while i != Pads
      invariant 0 <= i <= Pads
      invariant |avg| == i
      invariant forall p :: 0 <= p < i ==> avg[p] == Average(samples[p])
    {
      var ttemp: uint16 := 0;
      var c := Samples;
      while c != 0
        invariant 0 <= c <= Samples
        invariant ttemp == Sum(samples[i][..Samples - c])
        invariant ttemp <= 255 * (Samples - c)
      {
        SumPrefix(samples[i], Samples - c);
        ttemp := (ttemp + samples[i][Samples - c]) % 0x1_0000;
        c := c - 1;
      }
      assert samples[i][..Samples] == samples[i];
      avg := avg + [ttemp / Samples];
      i := i + 1;
    }
  }

  // ---------------------------------------------------------------------------
  // One sensing pass
  // ---------------------------------------------------------------------------

  /** The trip point of a pad with baseline `avg`: 12.5% below it, `Tavg - Tavg/8`. */
  function TripPoint(avg: byte): int
  {
    avg - avg / 8
  }

  /** The 1/16 smoothing step of an untouched pad whose reading is not above its
      baseline, stored back into a byte. It never drops below the reading or rises
      above the old baseline, so the store never truncates; it leaves the baseline
      where it is exactly when reading and baseline share a sixteenth. */
  function Smooth(avg: byte, count: byte): (a: byte)
    requires count <= avg
    ensures a == avg - avg / 16 + count / 16
    ensures count <= a <= avg
    ensures a == avg <==> avg / 16 == count / 16
  {
    (avg - avg / 16 + count / 16) % 0x100
  }

  /** Outcome of one pass for one pad: its new baseline and whether it tripped. */
  datatype PadResult = PadResult(avg: byte, tripped: bool)

  /** The body of the `touch_input` loop for one pad. */
  function PadStep(avg: byte, count: byte): (r: PadResult)
    ensures r.tripped <==> count < TripPoint(avg)
    ensures r.tripped ==> r.avg == avg
    ensures !r.tripped ==> count <= r.avg <= (if avg < count then count else avg)
    ensures count > avg ==> !r.tripped && r.avg == count
    ensures !r.tripped && count <= avg ==> r.avg == avg - avg / 16 + count / 16
  {
    if count < TripPoint(avg) then PadResult(avg, true)
    else if count > avg then PadResult(count, false)
    else PadResult(Smooth(avg, count), false)
  }

  /** A reading that did not trip a pad does not trip it against the adapted
      baseline either: adaptation never moves the trip point above the reading. */
  lemma UntrippedStaysUntripped(avg: byte, count: byte)
    requires !PadStep(avg, count).tripped
    ensures !PadStep(PadStep(avg, count).avg, count).tripped
  {
    var a' := PadStep(avg, count).avg;
    if count <= avg {
      TripPointMonotone(a', avg);
    }
  }

  /** The trip point never decreases as the baseline grows. */
  lemma TripPointMonotone(a: byte, b: byte)
    requires a <= b
    ensures TripPoint(a) <= TripPoint(b)
  {
  }

  /** Number of entries equal to 1. */
  function CountOnes(t: seq<byte>): (n: nat)
    ensures n <= |t|
    ensures n == 0 <==> forall k :: 0 <= k < |t| ==> t[k] != 1
  {
    if |t| == 0 then 0
    else
      assert forall k :: 0 <= k < |t| - 1 ==> t[..|t| - 1][k] == t[k];
      CountOnes(t[..|t| - 1]) + (if t[|t| - 1] == 1 then 1 else 0)
  }

  /** A touch vector as `Ttarget` holds it after a pass: four entries, each 0 or 1. */
  predicate ValidTargets(t: seq<byte>)
  {
    |t| == Pads && forall k :: 0 <= k < |t| ==> t[k] <= 1
  }

  /** Result of a full pass: new baselines `Tavg`, touch vector `Ttarget`, active count `Tactive`. */
  datatype PassResult = PassResult(avg: seq<byte>, targets: seq<byte>, active: byte)

  /** One full sensing pass over the four pads. */
  function TouchPass(avg: seq<byte>, counts: seq<byte>): (r: PassResult)
    requires |avg| == Pads && |counts| == Pads
    ensures |r.avg| == Pads && ValidTargets(r.targets)
    ensures forall k :: 0 <= k < Pads ==> (r.targets[k] == 1 <==> counts[k] < TripPoint(avg[k]))
    ensures forall k :: 0 <= k < Pads && r.targets[k] == 1 ==> r.avg[k] == avg[k]
    ensures forall k :: 0 <= k < Pads && r.targets[k] == 0 ==>
              counts[k] <= r.avg[k] <= (if avg[k] < counts[k] then counts[k] else avg[k])
    ensures forall k :: 0 <= k < Pads ==> r.avg[k] == PadStep(avg[k], counts[k]).avg
    ensures r.active == CountOnes(r.targets)
    ensures r.active == 0 <==> forall k :: 0 <= k < Pads ==> r.targets[k] == 0
  {
    var pads := seq(Pads, k requires 0 <= k < Pads => PadStep(avg[k], counts[k]));
    var targets := seq(Pads, k requires 0 <= k < Pads => if pads[k].tripped then 1 else 0);
    PassResult(seq(Pads, k requires 0 <= k < Pads => pads[k].avg), targets, CountOnes(targets))
  }

  /** The pass result's baselines and vector are determined pad by pad: any that
      agree with `PadStep` on every pad are those of `TouchPass`. */
  lemma PassFromPads(avg: seq<byte>, counts: seq<byte>, avg': seq<byte>, targets: seq<byte>)
    requires |avg| == Pads && |counts| == Pads && |avg'| == Pads && |targets| == Pads
    requires forall k :: 0 <= k < Pads ==> targets[k] <= 1
    requires forall k :: 0 <= k < Pads ==> PadStep(avg[k], counts[k]) == PadResult(avg'[k], targets[k] == 1)
    ensures TouchPass(avg, counts).avg == avg'
    ensures TouchPass(avg, counts).targets == targets
  {
    var r := TouchPass(avg, counts);
    forall k | 0 <= k < Pads
      ensures r.avg[k] == avg'[k]
    {
    }
    forall k | 0 <= k < Pads
      ensures r.targets[k] == targets[k]
    {
    }
  }

  /** `touch_input` as the firmware runs it: one pad after another, counting
      tripped pads into `Tactive`. It computes exactly `TouchPass`. */
  method TouchInput(avg: seq<byte>, counts: seq<byte>) returns (avg': seq<byte>, targets: seq<byte>, active: byte)
    requires |avg| == Pads && |counts| == Pads
    ensures PassResult(avg', targets, active) == TouchPass(avg, counts)
  {
    active := 0;
    avg' := avg;
    targets := [0, 0, 0, 0];
    var i := 0;
    while i != Pads
      invariant 0 <= i <= Pads
      invariant |avg'| == Pads && |targets| == Pads
      invariant forall k :: 0 <= k < i ==> PadStep(avg[k], counts[k]) == PadResult(avg'[k], targets[k] == 1)
      invariant forall k :: 0 <= k < Pads ==> targets[k] <= 1
      invariant forall k :: i <= k < Pads ==> avg'[k] == avg[k]
      invariant active as int == CountOnes(targets[..i]) <= i
    {
      var r := PadStep(avg'[i], counts[i]);
      var prefix := targets[..i];
      if r.tripped {
        targets := targets[i := 1];
        active := active + 1;
      } else {
        targets := targets[i := 0];
        avg' := avg'[i := r.avg];
      }
      assert PadStep(avg[i], counts[i]) == PadResult(avg'[i], targets[i] == 1);
      assert targets[..i + 1] == prefix + [targets[i]];
      assert (prefix + [targets[i]])[..i] == prefix;
      i := i + 1;
    }
    assert targets[..Pads] == targets;
    PassFromPads(avg, counts, avg', targets);
  }
}
