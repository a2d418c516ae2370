/** The exponentially weighted average detector (_silent_check in torch_npu/asd/asd.py), over reals. */
module SilentCheck {
  import opened Basics

  /** A statistic read back from the device. */
  datatype Sample = Finite(v: real) | NaN | Infinite

  /** The entry of check_stat for one parameter name. */
  datatype Stat = Stat(avg: real, preVal: Sample, step: nat, nonZeroStep: nat)

  const INITIAL := Stat(0.0, Finite(0.0), 0, 0)

  /** upper_thresh1 and upper_thresh2 */
  datatype Thresholds = Thresholds(alpha1: real, alpha2: real)

  function Pow99(n: nat): (p: real)
    ensures 0.0 < p <= 1.0
    ensures n > 0 ==> p <= 0.99
  {
    if n == 0 then 1.0 else 0.99 * Pow99(n - 1)
  }

  /** abs(val - pre_val) > thres, where the previous value need not be finite */
  predicate Jumps(v: real, pre: Sample, thres: real) {
    match pre
    case Finite(p) => Abs(v - p) > thres
    case NaN => false
    case Infinite => true
  }

  /** The threshold for factor alpha: the bias-corrected average times alpha, or the value itself while
      the average is not trusted yet. */
  function Threshold(v: real, avg: real, n: nat, alpha: real): real {
    if n >= 10 && avg != 0.0 then avg * alpha / (1.0 - Pow99(n)) else v
  }

  /** _silent_check: (flagged, new average, new non-zero count) */
  function Check(val: Sample, pre: Sample, avg: real, n: nat, t: Thresholds): (bool, real, nat) {
    match val
    case NaN => (true, avg, n)
    case Infinite => (true, avg, n)
    case Finite(v) =>
      if v == 0.0 then (false, avg, n)
      else
        var thres := Threshold(v, avg, n, t.alpha1);
        if v > thres && Jumps(v, pre, thres) then (true, avg, n)
        else if v <= Threshold(v, avg, n, t.alpha2) then (false, avg * 0.99 + v * 0.01, n + 1)
        else (false, avg, n)
  }

  /** What one drained sample does to its statistics. */
  function Step(s: Stat, val: Sample, t: Thresholds): Stat {
    var r := Check(val, s.preVal, s.avg, s.nonZeroStep, t);
    Stat(r.1, val, s.step + 1, r.2)
  }

  predicate Flags(s: Stat, val: Sample, t: Thresholds) {
    Check(val, s.preVal, s.avg, s.nonZeroStep, t).0
  }

  /** A sample is accepted when it enters the average. */
  predicate Accepts(s: Stat, val: Sample, t: Thresholds) {
    Check(val, s.preVal, s.avg, s.nonZeroStep, t).2 == s.nonZeroStep + 1
  }

  /** Statistics after the first n samples. */
  function After(xs: seq<Sample>, n: nat, t: Thresholds): Stat
    requires n <= |xs|
  {
    if n == 0 then INITIAL else Step(After(xs, n - 1, t), xs[n - 1], t)
  }

  /** The values among the first n samples that entered the average. */
  function Accepted(xs: seq<Sample>, n: nat, t: Thresholds): seq<real>
    requires n <= |xs|
  {
    if n == 0 then []
    else if Accepts(After(xs, n - 1, t), xs[n - 1], t) && xs[n - 1].Finite?
    then Accepted(xs, n - 1, t) + [xs[n - 1].v]
    else Accepted(xs, n - 1, t)
  }

  ghost predicate Within(vs: seq<real>, lo: real, hi: real) {
    forall i :: 0 <= i < |vs| ==> lo <= vs[i] <= hi
  }

  /** The average after n accepted values that all equal b. */
  function Level(b: real, n: nat): real {
    if n == 0 then 0.0 else 0.99 * Level(b, n - 1) + 0.01 * b
  }

  lemma {:induction false} LevelIs(b: real, n: nat)
    ensures Level(b, n) == b * (1.0 - Pow99(n))
  {
    if n > 0 {
      LevelIs(b, n - 1);
      var p := Pow99(n - 1);
      assert b * (1.0 - 0.99 * p) == 0.99 * (b * (1.0 - p)) + 0.01 * b;
    }
  }

  /** A step either accepts a finite value, unflagged, into the average or leaves average and count alone. */
  lemma StepCases(s: Stat, val: Sample, t: Thresholds)
    ensures var s' := Step(s, val, t);
      && s'.step == s.step + 1 && s'.preVal == val
      && (Accepts(s, val, t) ==>
            && val.Finite? && !Flags(s, val, t)
            && s'.nonZeroStep == s.nonZeroStep + 1 && s'.avg == s.avg * 0.99 + val.v * 0.01)
      && (!Accepts(s, val, t) ==> s'.nonZeroStep == s.nonZeroStep && s'.avg == s.avg)
  {
  }

  /** NaN and infinities are always flagged and never enter the average. */
  lemma NonFiniteNeverEnters(s: Stat, val: Sample, t: Thresholds)
    requires !val.Finite?
    ensures Flags(s, val, t) && !Accepts(s, val, t)
    ensures Step(s, val, t) == s.(preVal := val, step := s.step + 1)
  {
  }

  /** Statistics and accepted values move together. */
  ghost predicate Tracks(s: Stat, acc: seq<real>, n: nat, lo: real, hi: real) {
    && s.step == n && s.nonZeroStep == |acc|
    && Level(lo, |acc|) <= s.avg <= Level(hi, |acc|)
  }

  lemma TracksStep(s: Stat, acc: seq<real>, n: nat, lo: real, hi: real, val: Sample, t: Thresholds, s': Stat,
                   acc': seq<real>)
    requires Tracks(s, acc, n, lo, hi) && s' == Step(s, val, t)
    requires acc' == if Accepts(s, val, t) && val.Finite? then acc + [val.v] else acc
    requires Within(acc', lo, hi)
    ensures Tracks(s', acc', n + 1, lo, hi)
  {
    StepCases(s, val, t);
    if Accepts(s, val, t) {
      assert acc'[|acc|] == val.v;
    }
  }

  lemma WithinPrefix(vs: seq<real>, us: seq<real>, lo: real, hi: real)
    requires us <= vs && Within(vs, lo, hi)
    ensures Within(us, lo, hi)
  {
    forall i | 0 <= i < |us| ensures lo <= us[i] <= hi {
      assert us[i] == vs[i];
    }
  }

  lemma {:induction false} AverageTracks(xs: seq<Sample>, n: nat, t: Thresholds, lo: real, hi: real)
    requires n <= |xs| && Within(Accepted(xs, n, t), lo, hi)
    ensures Tracks(After(xs, n, t), Accepted(xs, n, t), n, lo, hi)
  {
    if n > 0 {
      WithinPrefix(Accepted(xs, n, t), Accepted(xs, n - 1, t), lo, hi);
      AverageTracks(xs, n - 1, t, lo, hi);
      TracksStep(After(xs, n - 1, t), Accepted(xs, n - 1, t), n - 1, lo, hi, xs[n - 1], t, After(xs, n, t),
                 Accepted(xs, n, t));
    }
  }

  /** The bias-corrected average. */
  function Corrected(s: Stat): real
    requires s.nonZeroStep > 0
  {
    s.avg / (1.0 - Pow99(s.nonZeroStep))
  }

  lemma TracksCorrected(s: Stat, acc: seq<real>, n: nat, lo: real, hi: real)
    requires Tracks(s, acc, n, lo, hi) && s.nonZeroStep > 0
    ensures lo <= Corrected(s) <= hi
  {
    LevelIs(lo, |acc|);
    LevelIs(hi, |acc|);
    DivideBounds(s.avg, 1.0 - Pow99(s.nonZeroStep), lo, hi);
  }

  /** Bias correction: over any samples the average divided by 1 - 0.99^n lies between the least and the
      greatest of the n accepted values. */
  lemma AverageIsBounded(xs: seq<Sample>, n: nat, t: Thresholds, lo: real, hi: real)
    requires n <= |xs| && Within(Accepted(xs, n, t), lo, hi)
    ensures After(xs, n, t).nonZeroStep == |Accepted(xs, n, t)| && After(xs, n, t).step == n
    ensures Accepted(xs, n, t) != [] ==> lo <= Corrected(After(xs, n, t)) <= hi
  {
    AverageTracks(xs, n, t, lo, hi);
    if Accepted(xs, n, t) != [] {
      TracksCorrected(After(xs, n, t), Accepted(xs, n, t), n, lo, hi);
    }
  }

  lemma DivideBounds(a: real, d: real, lo: real, hi: real)
    requires d > 0.0 && lo * d <= a <= hi * d
    ensures lo <= a / d <= hi
  {
    var q := a / d;
    assert q * d == a;
    assert (q - lo) * d >= 0.0;
    assert (hi - q) * d >= 0.0;
  }

  lemma ScaledAverage(avg: real, d: real, alpha: real)
    requires d > 0.0
    ensures avg * alpha / d == alpha * (avg / d)
  {
    var q := avg / d;
    assert avg == q * d;
    assert avg * alpha == (alpha * q) * d;
  }

  lemma ScaleBounds(alpha: real, lo: real, q: real, hi: real)
    requires alpha >= 0.0 && lo <= q <= hi
    ensures alpha * lo <= alpha * q <= alpha * hi
  {
    assert alpha * (q - lo) >= 0.0 && alpha * (hi - q) >= 0.0;
  }

  /** The average is trusted after ten accepted values, unless it is 0. */
  predicate Trusted(s: Stat) {
    s.nonZeroStep >= 10 && s.avg != 0.0
  }

  /** The value lies more than `bound` away from the one before it; a value after a NaN never does, one
      after an infinity always does. */
  predicate Away(v: real, pre: Sample, bound: real) {
    match pre
    case Finite(p) => v > p + bound || v < p - bound
    case NaN => false
    case Infinite => true
  }

  lemma ThresholdIs(s: Stat, v: real, alpha: real)
    ensures Threshold(v, s.avg, s.nonZeroStep, alpha) == if Trusted(s) then alpha * Corrected(s) else v
  {
    if Trusted(s) {
      ScaledAverage(s.avg, 1.0 - Pow99(s.nonZeroStep), alpha);
    }
  }

  /** Both decisions on a finite value, in terms of the bias-corrected average: it is flagged if the average is
      trusted and the value is above, and jumps by more than, alpha1 times the average; otherwise it is accepted
      unless it is 0 or, with a trusted average, above alpha2 times the average. */
  lemma DecisionIsExact(s: Stat, v: real, t: Thresholds)
    ensures Trusted(s) ==>
      && (Flags(s, Finite(v), t) <==>
            v != 0.0 && v > t.alpha1 * Corrected(s) && Away(v, s.preVal, t.alpha1 * Corrected(s)))
      && (Accepts(s, Finite(v), t) <==> v != 0.0 && !Flags(s, Finite(v), t) && v <= t.alpha2 * Corrected(s))
    ensures !Trusted(s) ==> !Flags(s, Finite(v), t) && (Accepts(s, Finite(v), t) <==> v != 0.0)
  {
    hide Threshold, Corrected, Pow99;
    ThresholdIs(s, v, t.alpha1);
    ThresholdIs(s, v, t.alpha2);
  }

  lemma AwayShrinks(v: real, pre: Sample, a: real, b: real)
    requires a <= b && Away(v, pre, b)
    ensures Away(v, pre, a)
  {
  }

  lemma FlaggingOf(s: Stat, t: Thresholds, v: real, lo: real, hi: real)
    requires Trusted(s) && t.alpha1 >= 0.0 && lo <= Corrected(s) <= hi
    ensures Flags(s, Finite(v), t) ==> v != 0.0 && v > t.alpha1 * lo && Away(v, s.preVal, t.alpha1 * lo)
    ensures v != 0.0 && v > t.alpha1 * hi && Away(v, s.preVal, t.alpha1 * hi) ==> Flags(s, Finite(v), t)
  {
    hide Corrected, Flags, Accepts, Away;
    DecisionIsExact(s, v, t);
    ScaleBounds(t.alpha1, lo, Corrected(s), hi);
    var c := t.alpha1 * Corrected(s);
    if Away(v, s.preVal, t.alpha1 * hi) {
      AwayShrinks(v, s.preVal, c, t.alpha1 * hi);
    }
    if Away(v, s.preVal, c) {
      AwayShrinks(v, s.preVal, t.alpha1 * lo, c);
    }
  }

  lemma LastSample(xs: seq<Sample>, n: nat, t: Thresholds)
    requires n <= |xs|
    ensures After(xs, n, t).preVal == if n == 0 then Finite(0.0) else xs[n - 1]
  {
  }

  /** A finite sample is flagged only after ten accepted values, only if it is above, and has moved from the sample
      before it by more than, alpha1 times a lower bound of them; and certainly if it is above, and has moved
      by more than, alpha1 times an upper bound. */
  lemma FlaggingIsJustified(xs: seq<Sample>, n: nat, t: Thresholds, v: real, lo: real, hi: real)
    requires n <= |xs| && Within(Accepted(xs, n, t), lo, hi) && t.alpha1 >= 0.0
    ensures Flags(After(xs, n, t), Finite(v), t) ==>
      && |Accepted(xs, n, t)| >= 10 && v != 0.0 && v > t.alpha1 * lo
      && Away(v, if n == 0 then Finite(0.0) else xs[n - 1], t.alpha1 * lo)
    ensures
      (&& |Accepted(xs, n, t)| >= 10 && After(xs, n, t).avg != 0.0
       && v != 0.0 && v > t.alpha1 * hi
       && Away(v, if n == 0 then Finite(0.0) else xs[n - 1], t.alpha1 * hi)) ==>
      Flags(After(xs, n, t), Finite(v), t)
  {
    hide Corrected, Flags, Accepts, After, Accepted, Away;
    var s := After(xs, n, t);
    AverageIsBounded(xs, n, t, lo, hi);
    LastSample(xs, n, t);
    DecisionIsExact(s, v, t);
    if Trusted(s) {
      FlaggingOf(s, t, v, lo, hi);
    }
  }

  /** Until ten values have been accepted, and as long as the average is 0, every finite value other than 0
      is accepted; no value is flagged. */
  lemma LearnsUntilTrusted(xs: seq<Sample>, n: nat, t: Thresholds, v: real)
    requires n < |xs| && xs[n] == Finite(v)
    requires |Accepted(xs, n, t)| < 10 || After(xs, n, t).avg == 0.0
    ensures !Flags(After(xs, n, t), xs[n], t)
    ensures Accepted(xs, n + 1, t) == Accepted(xs, n, t) + if v != 0.0 then [v] else []
  {
    hide Corrected, Flags, Accepts, After;
    var hi := AtMost(Accepted(xs, n, t));
    var lo := AtLeast(Accepted(xs, n, t));
    AverageIsBounded(xs, n, t, lo, hi);
    DecisionIsExact(After(xs, n, t), v, t);
  }

  /** Once the average is trusted, only values up to alpha2 times an upper bound of the accepted ones are accepted;
      and every value other than 0 up to alpha2 times a lower bound is, unless it is flagged. */
  lemma AcceptanceIsBounded(xs: seq<Sample>, n: nat, t: Thresholds, v: real, lo: real, hi: real)
    requires n < |xs| && xs[n] == Finite(v) && Within(Accepted(xs, n, t), lo, hi) && t.alpha2 >= 0.0
    requires |Accepted(xs, n, t)| >= 10 && After(xs, n, t).avg != 0.0
    ensures Accepted(xs, n + 1, t) in {Accepted(xs, n, t), Accepted(xs, n, t) + [v]}
    ensures Accepted(xs, n + 1, t) != Accepted(xs, n, t) ==> v != 0.0 && v <= t.alpha2 * hi
    ensures v != 0.0 && v <= t.alpha2 * lo && !Flags(After(xs, n, t), xs[n], t) ==>
      Accepted(xs, n + 1, t) == Accepted(xs, n, t) + [v]
  {
    hide Corrected, Flags, Accepts, After;
    AverageIsBounded(xs, n, t, lo, hi);
    DecisionIsExact(After(xs, n, t), v, t);
    ScaleBounds(t.alpha2, lo, Corrected(After(xs, n, t)), hi);
  }

  lemma {:induction false} AtMost(vs: seq<real>) returns (hi: real)
    ensures forall i :: 0 <= i < |vs| ==> vs[i] <= hi
  {
    hi := 0.0;
    for i := 0 to |vs|
      invariant forall j :: 0 <= j < i ==> vs[j] <= hi
    {
      hi := if vs[i] <= hi then hi else vs[i];
    }
  }

  lemma {:induction false} AtLeast(vs: seq<real>) returns (lo: real)
    ensures forall i :: 0 <= i < |vs| ==> lo <= vs[i]
  {
    lo := 0.0;
    for i := 0 to |vs|
      invariant forall j :: 0 <= j < i ==> lo <= vs[j]
    {
      lo := if lo <= vs[i] then lo else vs[i];
    }
  }
}
