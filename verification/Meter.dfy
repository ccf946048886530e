/**
 The output-power meters of spe/serial_handler.py: an exponential average and a peak hold
 with linear decay, both restarted whenever the (operate, transmit) context changes.
 Watts and seconds are real numbers; time never runs backwards.
 */
module Meter {
  import opened Sequences
  import opened Text
  import opened StatusLine

  const ALPHA: real := 0.15
  const HOLD_S: real := 2.5
  const DECAY_W_PER_S: real := 600.0

  datatype Context = Context(op: OpStatus, tx: TxStatus)

  datatype Sample = Sample(key: Context, raw: real, at: real)

  /** `context` is None before the first frame. */
  datatype Meters = Meters(
    context: Option<Context>,
    avg: real,
    peak: real,
    peakAt: real,
    prevTick: real)

  const COLD := Meters(None, 0.0, 0.0, 0.0, 0.0)

  function Max(a: real, b: real): real {
    if a >= b then a else b
  }

  predicate Resets(m: Meters, s: Sample) {
    m.context != Some(s.key)
  }

  predicate Pins(m: Meters, s: Sample) {
    Resets(m, s) || s.raw >= m.peak
  }

  predicate Decays(m: Meters, s: Sample) {
    !Pins(m, s) && s.at - m.peakAt > HOLD_S
  }

  /** Where the decay line from the last frame stands at time `t`. */
  function Line(m: Meters, t: real): real {
    m.peak - DECAY_W_PER_S * (t - m.prevTick)
  }

  function Update(m: Meters, s: Sample): Meters {
    Meters(
      Some(s.key),
      if Resets(m, s) then s.raw else ALPHA * s.raw + (1.0 - ALPHA) * m.avg,
      if Pins(m, s) then s.raw else if Decays(m, s) then Max(s.raw, Line(m, s.at)) else m.peak,
      if Pins(m, s) then s.at else m.peakAt,
      s.at)
  }

  function Run(m: Meters, ss: seq<Sample>): Meters {
    if ss == [] then m else Update(Run(m, ss[..|ss| - 1]), ss[|ss| - 1])
  }

  /** One stretch of frames in a single context, entered from another one (or cold). */
  predicate Stretch(m: Meters, ss: seq<Sample>) {
    && ss != []
    && (forall i :: 0 <= i < |ss| ==> ss[i].key == ss[0].key)
    && (forall i, j :: 0 <= i <= j < |ss| ==> ss[i].at <= ss[j].at)
    && Resets(m, ss[0])
  }

  lemma StretchPrefix(m: Meters, ss: seq<Sample>)
    requires Stretch(m, ss) && |ss| > 1
    ensures Stretch(m, ss[..|ss| - 1])
  {
    var front := ss[..|ss| - 1];
    assert front[0] == ss[0];
  }

  // ------------------------------------------------------------ the peak

  /** The peak lies between the live sample and the highest one of the stretch, and it was
      last pinned by a sample of that height at the time the hold is measured from. */
  lemma {:induction false} PeakEnvelope(m: Meters, ss: seq<Sample>)
    requires Stretch(m, ss)
    ensures var r := Run(m, ss);
            && ss[|ss| - 1].raw <= r.peak
            && (exists i :: 0 <= i < |ss| && r.peak <= ss[i].raw)
            && (exists i :: 0 <= i < |ss| && r.peakAt == ss[i].at && r.peak <= ss[i].raw)
            && r.prevTick == ss[|ss| - 1].at && r.context == Some(ss[0].key)
  {
    var n := |ss| - 1;
    var front, s := ss[..n], ss[n];
    if n == 0 {
      assert ss[0] == s && Run(m, front) == m;
      assert Run(m, ss).peak <= ss[0].raw && Run(m, ss).peakAt == ss[0].at;
    } else {
      StretchPrefix(m, ss);
      PeakEnvelope(m, front);
      var before := Run(m, front);
      var i :| 0 <= i < |front| && before.peakAt == front[i].at && before.peak <= front[i].raw;
      assert ss[i] == front[i] && ss[0] == front[0];
      assert front[n - 1].at <= s.at by {
        assert ss[n - 1] == front[n - 1];
      }
      var k := if Pins(before, s) then n else i;
      assert Run(m, ss).peakAt == ss[k].at && Run(m, ss).peak <= ss[k].raw;
    }
  }

  /** While the hold lasts, the peak is exactly the sample that pinned it. */
  lemma {:induction false} PeakHolds(m: Meters, ss: seq<Sample>)
    requires forall i :: 0 <= i < |ss| ==>
               !Resets(m, ss[i]) && ss[i].raw < m.peak && ss[i].at - m.peakAt <= HOLD_S
    ensures Run(m, ss).peak == m.peak && Run(m, ss).peakAt == m.peakAt
    ensures Run(m, ss).context == m.context
  {
    if ss != [] {
      var front := ss[..|ss| - 1];
      assert forall i :: 0 <= i < |front| ==> front[i] == ss[i];
      PeakHolds(m, front);
    }
  }

  /** Every frame of the run takes the decay branch. */
  predicate AllDecay(m: Meters, ss: seq<Sample>) {
    forall i :: 0 <= i < |ss| ==> Decays(Run(m, ss[..i]), ss[i])
  }

  lemma AllDecayPrefix(m: Meters, ss: seq<Sample>)
    requires ss != [] && AllDecay(m, ss)
    ensures AllDecay(m, ss[..|ss| - 1])
    ensures Decays(Run(m, ss[..|ss| - 1]), ss[|ss| - 1])
  {
    var front := ss[..|ss| - 1];
    forall i | 0 <= i < |front|
      ensures Decays(Run(m, front[..i]), front[i])
    {
      assert front[..i] == ss[..i];
    }
  }

  /** How high a reading of `w` watts at time `t` has decayed by time `now`. */
  function Decayed(w: real, t: real, now: real): real {
    w - DECAY_W_PER_S * (now - t)
  }

  /** `peak` is the greatest of the decay line from where `m` stood and of every sample's own
      decay line, all taken at time `now`: above each of them and equal to one. */
  predicate DecayMax(m: Meters, ss: seq<Sample>, peak: real, now: real) {
    && peak >= Decayed(m.peak, m.prevTick, now)
    && (forall k :: 0 <= k < |ss| ==> peak >= Decayed(ss[k].raw, ss[k].at, now))
    && (peak == Decayed(m.peak, m.prevTick, now) ||
        exists k :: 0 <= k < |ss| && peak == Decayed(ss[k].raw, ss[k].at, now))
  }

  lemma DecayMaxStep(m: Meters, front: seq<Sample>, peak: real, now: real, s: Sample)
    requires DecayMax(m, front, peak, now)
    ensures DecayMax(m, front + [s], Max(s.raw, Decayed(peak, now, s.at)), s.at)
  {
    var ss, r := front + [s], Max(s.raw, Decayed(peak, now, s.at));
    forall k | 0 <= k < |ss|
      ensures r >= Decayed(ss[k].raw, ss[k].at, s.at)
    {
      if k < |front| {
        assert peak >= Decayed(front[k].raw, front[k].at, now);
      }
    }
    if r == s.raw {
      assert r == Decayed(ss[|front|].raw, ss[|front|].at, s.at);
    } else if peak != Decayed(m.peak, m.prevTick, now) {
      var k :| 0 <= k < |front| && peak == Decayed(front[k].raw, front[k].at, now);
      assert r == Decayed(ss[k].raw, ss[k].at, s.at);
    }
  }

  /** After any number of decaying frames the peak is that greatest line. How often the
      amplifier was sampled does not enter. */
  lemma {:induction false} DecayClosedForm(m: Meters, ss: seq<Sample>)
    requires AllDecay(m, ss)
    ensures DecayMax(m, ss, Run(m, ss).peak, Run(m, ss).prevTick)
    ensures ss != [] ==> Run(m, ss).prevTick == ss[|ss| - 1].at
  {
    if ss != [] {
      var n := |ss| - 1;
      AllDecayPrefix(m, ss);
      DecayClosedForm(m, ss[..n]);
      var before := Run(m, ss[..n]);
      DecayMaxStep(m, ss[..n], before.peak, before.prevTick, ss[n]);
      assert ss[..n] + [ss[n]] == ss;
    }
  }

  /** Two ways of sampling the same fall show the same peak at the end when each sample of
      one is also in the other or lies on or below the decay line. */
  lemma SamplingOfFall(m: Meters, ss: seq<Sample>, tt: seq<Sample>, now: real)
    requires AllDecay(m, ss) && AllDecay(m, tt)
    requires Run(m, ss).prevTick == now && Run(m, tt).prevTick == now
    requires forall s :: s in ss ==> s in tt || Decayed(s.raw, s.at, now) <= Decayed(m.peak, m.prevTick, now)
    requires forall t :: t in tt ==> t in ss || Decayed(t.raw, t.at, now) <= Decayed(m.peak, m.prevTick, now)
    ensures Run(m, ss).peak == Run(m, tt).peak
  {
    DecayClosedForm(m, ss);
    DecayClosedForm(m, tt);
    AboveAll(m, ss, tt, Run(m, ss).peak, Run(m, tt).peak, now);
    AboveAll(m, tt, ss, Run(m, tt).peak, Run(m, ss).peak, now);
  }

  lemma AboveAll(m: Meters, ss: seq<Sample>, tt: seq<Sample>, p: real, q: real, now: real)
    requires DecayMax(m, ss, p, now) && DecayMax(m, tt, q, now)
    requires forall s :: s in ss ==> s in tt || Decayed(s.raw, s.at, now) <= Decayed(m.peak, m.prevTick, now)
    ensures p <= q
  {
    if p != Decayed(m.peak, m.prevTick, now) {
      var k :| 0 <= k < |ss| && p == Decayed(ss[k].raw, ss[k].at, now);
      if ss[k] in tt {
        var j :| 0 <= j < |tt| && tt[j] == ss[k];
        assert q >= Decayed(tt[j].raw, tt[j].at, now);
      }
    }
  }

  /** A frame that only rides the decay line. */
  predicate Rides(m: Meters, extra: Sample) {
    Decays(m, extra) && extra.at >= m.prevTick && extra.raw <= Line(m, extra.at)
  }

  /** What an extra frame on or below the decay line can change. The displayed peak after the
      next frame is the same with and without it; the hold is restarted by the next frame in
      one case and not in the other exactly when that frame reaches the decayed peak but not
      the undecayed one. So the fall is independent of the frame rate, the hold is not. */
  lemma ExtraFrame(m: Meters, extra: Sample, s: Sample)
    requires Rides(m, extra) && s.key == extra.key && s.at >= extra.at
    ensures var with, without := Update(Update(m, extra), s), Update(m, s);
            && with.peak == without.peak && with.prevTick == without.prevTick
            && with.context == without.context
            && (with.peakAt != without.peakAt ==> Line(m, extra.at) <= s.raw < m.peak)
            && (Line(m, extra.at) <= s.raw < m.peak ==> with.peakAt > without.peakAt)
  {
  }

  /** Such a frame exists: 1000 W pinned, then 950 W after the hold. With one more 40 W frame
      in between the 950 W are held again, without it they start falling at once. */
  lemma ExtraFrameRestartsHold()
    ensures var c := Context(Oper, TX);
            var m := Update(Update(COLD, Sample(c, 1000.0, 0.0)), Sample(c, 900.0, 2.5));
            var extra, s, later := Sample(c, 40.0, 2.6), Sample(c, 950.0, 2.7), Sample(c, 0.0, 2.8);
            && Rides(m, extra)
            && Update(Update(Update(m, extra), s), later).peak == 950.0
            && Update(Update(m, s), later).peak == 890.0
  {
    var c := Context(Oper, TX);
    var m := Update(Update(COLD, Sample(c, 1000.0, 0.0)), Sample(c, 900.0, 2.5));
    assert m.peak == 1000.0 && m.peakAt == 0.0 && m.prevTick == 2.5;
  }

  // ------------------------------------------------------------ the average

  function Pow(b: real, n: nat): real {
    if n == 0 then 1.0 else b * Pow(b, n - 1)
  }

  /** Weight of sample `k` of a stretch of `n` samples. */
  function Weight(k: nat, n: nat): real
    requires k < n
  {
    if k == 0 then Pow(1.0 - ALPHA, n - 1) else ALPHA * Pow(1.0 - ALPHA, n - 1 - k)
  }

  /** The first `count` weighted samples of a stretch of `n`, added up. */
  function WeightedSum(ss: seq<Sample>, count: nat, n: nat): real
    requires count <= n <= |ss|
  {
    if count == 0 then 0.0 else WeightedSum(ss, count - 1, n) + Weight(count - 1, n) * ss[count - 1].raw
  }

  lemma WeightAges(k: nat, n: nat)
    requires k < n
    ensures Weight(k, n + 1) == (1.0 - ALPHA) * Weight(k, n)
  {
    assert Pow(1.0 - ALPHA, n - k) == (1.0 - ALPHA) * Pow(1.0 - ALPHA, n - k - 1);
    assert Pow(1.0 - ALPHA, n) == (1.0 - ALPHA) * Pow(1.0 - ALPHA, n - 1);
  }

  lemma ScaleSum(a: real, w: real, x: real, total: real)
    ensures a * total + (a * w) * x == a * (total + w * x)
  {
  }

  lemma {:induction false} WeightsAge(ss: seq<Sample>, count: nat, n: nat)
    requires count <= n < |ss| && 0 < n
    ensures WeightedSum(ss, count, n + 1) == (1.0 - ALPHA) * WeightedSum(ss, count, n)
  {
    if count != 0 {
      WeightsAge(ss, count - 1, n);
      WeightAges(count - 1, n);
      ScaleSum(1.0 - ALPHA, Weight(count - 1, n), ss[count - 1].raw, WeightedSum(ss, count - 1, n));
    }
  }

  lemma {:induction false} WeightedSumPrefix(ss: seq<Sample>, count: nat, n: nat)
    requires count <= n < |ss|
    ensures WeightedSum(ss[..n], count, n) == WeightedSum(ss, count, n)
  {
    if count != 0 {
      WeightedSumPrefix(ss, count - 1, n);
    }
  }

  /** The average of a stretch is its closed exponentially weighted sum. */
  lemma {:induction false} AverageClosedForm(m: Meters, ss: seq<Sample>)
    requires Stretch(m, ss)
    ensures Run(m, ss).avg == WeightedSum(ss, |ss|, |ss|)
    ensures Run(m, ss).context == Some(ss[0].key)
  {
    var n := |ss| - 1;
    if n == 0 {
      assert Run(m, ss[..0]) == m;
      assert WeightedSum(ss, 1, 1) == WeightedSum(ss, 0, 1) + Weight(0, 1) * ss[0].raw;
    } else {
      StretchPrefix(m, ss);
      AverageClosedForm(m, ss[..n]);
      WeightedSumPrefix(ss, n, n);
      WeightsAge(ss, n, n);
      assert Weight(n, n + 1) == ALPHA;
    }
  }

  /** The average never leaves the range of the stretch's samples. */
  lemma {:induction false} AverageBounded(m: Meters, ss: seq<Sample>, lo: real, hi: real)
    requires Stretch(m, ss) && forall i :: 0 <= i < |ss| ==> lo <= ss[i].raw <= hi
    ensures lo <= Run(m, ss).avg <= hi
    ensures Run(m, ss).context == Some(ss[0].key)
  {
    var n := |ss| - 1;
    if n == 0 {
      assert Run(m, ss[..0]) == m;
    } else {
      StretchPrefix(m, ss);
      assert forall i :: 0 <= i < n ==> ss[..n][i] == ss[i];
      AverageBounded(m, ss[..n], lo, hi);
    }
  }

  /** Against a constant reading the error shrinks by the factor 0.85 with every frame. */
  lemma {:induction false} AverageSettles(m: Meters, ss: seq<Sample>, level: real)
    requires forall i :: 0 <= i < |ss| ==> !Resets(m, ss[i]) && ss[i].raw == level
    ensures Run(m, ss).avg - level == Pow(0.85, |ss|) * (m.avg - level)
    ensures Run(m, ss).context == m.context
  {
    if ss != [] {
      var front := ss[..|ss| - 1];
      assert forall i :: 0 <= i < |front| ==> front[i] == ss[i];
      AverageSettles(m, front, level);
      var p, e := Pow(1.0 - ALPHA, |front|), m.avg - level;
      assert (1.0 - ALPHA) * (p * e) == ((1.0 - ALPHA) * p) * e;
    }
  }
}
