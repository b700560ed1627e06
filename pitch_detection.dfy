/**
 * The McLeod-style pitch estimator of hooks/usePitchDetection.ts
 * (findFundamentalFrequency) and the clarity gate of processAudio.
 *
 * Samples and the normalised square difference function (NSDF) are exact
 * reals. The specification functions below (Silent, Nsdf, Peaks, GlobalMax,
 * FirstQualifying, RefinedLag, Estimate) say what each step computes; the
 * methods run the source's loops and are proved to compute exactly that.
 */
module PitchDetection {
  import opened Wrappers
  import opened Constants

  /** A detected pitch (types.ts, Pitch). */
  datatype Pitch = Pitch(frequency: real, clarity: real)

  /** A local maximum of the NSDF: its lag and its height. */
  datatype Peak = Peak(pos: nat, val: real)

  /** RMS below 0.01 means silence; compared here as a mean square below 0.01^2. */
  const SilenceMeanSquare: real := 0.0001

  /** The shortest lag searched is sampleRate / 4200 (above C8). */
  const HighestSearchedFrequency: real := 4200.0

  /** The longest lag searched is sampleRate / 27 (below A0). */
  const LowestSearchedFrequency: real := 27.0

  /** K_THRESHOLD: a peak qualifies at 0.93 of the global maximum. */
  const PeakThreshold: real := 0.93

  // ---------------------------------------------------------------------
  // Step 1: the silence gate
  // ---------------------------------------------------------------------

  /** The sum of the squared samples, accumulated in buffer order. */
  function SumOfSquares(x: seq<real>): (r: real)
    ensures r >= 0.0
  {
    if x == [] then 0.0 else SumOfSquares(x[..|x| - 1]) + x[|x| - 1] * x[|x| - 1]
  }

  /**
   * The buffer is too quiet: its RMS is below 0.01. An empty buffer is not
   * silent (its RMS is NaN in the source and every comparison with NaN fails).
   */
  function Silent(x: seq<real>): (silent: bool)
    ensures silent <==> |x| > 0 && SumOfSquares(x) / |x| as real < SilenceMeanSquare
  {
    SumOfSquares(x) < SilenceMeanSquare * |x| as real
  }

  /** An all-zero buffer has no energy. */
  lemma {:induction false} ZeroSumOfSquares(x: seq<real>)
    requires forall i :: 0 <= i < |x| ==> x[i] == 0.0
    ensures SumOfSquares(x) == 0.0
  {
    if x != [] {
      ZeroSumOfSquares(x[..|x| - 1]);
    }
  }

  /** A non-empty all-zero buffer is silent. */
  lemma ZeroBufferIsSilent(x: seq<real>)
    requires |x| > 0 && forall i :: 0 <= i < |x| ==> x[i] == 0.0
    ensures Silent(x)
  {
    ZeroSumOfSquares(x);
  }

  // ---------------------------------------------------------------------
  // Step 2: the search range and the NSDF
  // ---------------------------------------------------------------------

  /** Math.floor(sampleRate / 4200). */
  function MinPeriod(sampleRate: real): (lo: nat)
    requires sampleRate > 0.0
    ensures lo as real <= sampleRate / HighestSearchedFrequency < lo as real + 1.0
  {
    (sampleRate / HighestSearchedFrequency).Floor
  }

  /** Math.ceil(sampleRate / 27). */
  function MaxPeriod(sampleRate: real): (hi: nat)
    requires sampleRate > 0.0
    ensures hi as real - 1.0 < sampleRate / LowestSearchedFrequency <= hi as real
    ensures hi >= 1
  {
    -((-(sampleRate / LowestSearchedFrequency)).Floor)
  }

  /** The search range is never empty: it holds at least the lags up to sampleRate / 27. */
  lemma SearchRangeNonEmpty(sampleRate: real)
    requires sampleRate > 0.0
    ensures MinPeriod(sampleRate) < MaxPeriod(sampleRate)
  {
    assert sampleRate / HighestSearchedFrequency < sampleRate / LowestSearchedFrequency;
  }

  /** The number of sample pairs (x[i], x[i + tau]) for lag tau. */
  function Overlap(x: seq<real>, tau: nat): (n: nat)
    ensures tau + n <= |x| || n == 0
  {
    if tau < |x| then |x| - tau else 0
  }

  /** Autocorrelation at lag tau over the first n pairs. */
  function Acf(x: seq<real>, tau: nat, n: nat): real
    requires n == 0 || tau + n <= |x|
  {
    if n == 0 then 0.0 else Acf(x, tau, n - 1) + x[n - 1] * x[n - 1 + tau]
  }

  /** Energy of the same n pairs: the sum of both squares. */
  function Energy(x: seq<real>, tau: nat, n: nat): real
    requires n == 0 || tau + n <= |x|
  {
    if n == 0 then 0.0 else Energy(x, tau, n - 1) + (x[n - 1] * x[n - 1] + x[n - 1 + tau] * x[n - 1 + tau])
  }

  /** At lag 0 the autocorrelation is the energy of the first n samples, and m is twice it. */
  lemma {:induction false} LagZeroSums(x: seq<real>, n: nat)
    requires n <= |x|
    ensures Acf(x, 0, n) == SumOfSquares(x[..n])
    ensures Energy(x, 0, n) == 2.0 * SumOfSquares(x[..n])
  {
    if n > 0 {
      LagZeroSums(x, n - 1);
      assert x[..n][..n - 1] == x[..n - 1];
    }
  }

  /** Twice the autocorrelation never exceeds the energy in size (2ab <= a^2 + b^2). */
  lemma {:induction false} AcfWithinEnergy(x: seq<real>, tau: nat, n: nat)
    requires n == 0 || tau + n <= |x|
    ensures -Energy(x, tau, n) <= 2.0 * Acf(x, tau, n) <= Energy(x, tau, n)
  {
    if n > 0 {
      AcfWithinEnergy(x, tau, n - 1);
      var a, b := x[n - 1], x[n - 1 + tau];
      TwiceProductBound(a, b);
      assert Acf(x, tau, n) == Acf(x, tau, n - 1) + a * b;
      assert Energy(x, tau, n) == Energy(x, tau, n - 1) + (a * a + b * b);
    }
  }

  /** 2ab lies between -(a^2 + b^2) and a^2 + b^2. */
  lemma TwiceProductBound(a: real, b: real)
    ensures -(a * a + b * b) <= 2.0 * (a * b) <= a * a + b * b
  {
    Square(a - b);
    Square(a + b);
    assert (a - b) * (a - b) == a * a - 2.0 * (a * b) + b * b;
    assert (a + b) * (a + b) == a * a + 2.0 * (a * b) + b * b;
  }

  /** A square is never negative. */
  lemma Square(y: real)
    ensures y * y >= 0.0
  {
  }

  /** A ratio whose numerator is no larger than its positive denominator lies in [-1, 1]. */
  lemma RatioWithinOne(num: real, den: real)
    requires den > 0.0 && -den <= num <= den
    ensures -1.0 <= num / den <= 1.0
  {
  }

  /**
   * The NSDF value the inner loop produces for lag tau: 2*ac/m when m > 0,
   * else 0. It lies in [-1, 1], and a lag with no overlapping pairs
   * (tau >= bufferSize) keeps the zero fill.
   */
  function NsdfAt(x: seq<real>, tau: nat): (r: real)
    ensures -1.0 <= r <= 1.0
    ensures tau >= |x| ==> r == 0.0
  {
    var n := Overlap(x, tau);
    var m := Energy(x, tau, n);
    if m > 0.0 then
      AcfWithinEnergy(x, tau, n);
      RatioWithinOne(2.0 * Acf(x, tau, n), m);
      2.0 * Acf(x, tau, n) / m
    else 0.0
  }

  /** The whole nsdf array: zero-filled, written at the lags of [lo, hi). */
  function Nsdf(x: seq<real>, lo: nat, hi: int): (s: seq<real>)
    ensures |s| == |x|
    ensures forall k :: 0 <= k < |x| ==> -1.0 <= s[k] <= 1.0
  {
    seq(|x|, k requires 0 <= k < |x| => if lo <= k < hi then NsdfAt(x, k) else 0.0)
  }

  /** The nsdf entries are 0 outside the search range and the lag's value inside it (Nsdf bounds them). */
  lemma NsdfShape(x: seq<real>, lo: nat, hi: int)
    ensures forall k :: 0 <= k < |x| && !(lo <= k < hi) ==> Nsdf(x, lo, hi)[k] == 0.0
    ensures forall k :: 0 <= k < |x| && lo <= k < hi ==> Nsdf(x, lo, hi)[k] == NsdfAt(x, k)
  {
  }

  /** The nested NSDF loops over the search range, on a fresh zero-filled array. */
  method ComputeNsdf(buffer: seq<real>, minPeriod: nat, maxPeriod: int) returns (nsdf: array<real>)
    ensures fresh(nsdf)
    ensures nsdf[..] == Nsdf(buffer, minPeriod, maxPeriod)
  {
    var bufferSize := |buffer|;
    nsdf := new real[bufferSize](_ => 0.0);
    var tau := minPeriod;
    while tau < maxPeriod
      invariant minPeriod <= tau && (tau == minPeriod || tau <= maxPeriod)
      invariant nsdf.Length == bufferSize
      invariant forall k :: 0 <= k < bufferSize ==>
                  nsdf[k] == if minPeriod <= k < tau then NsdfAt(buffer, k) else 0.0
    {
      var ac, m := 0.0, 0.0;
      var i := 0;
      while i < bufferSize - tau
        invariant 0 <= i <= Overlap(buffer, tau)
        invariant ac == Acf(buffer, tau, i) && m == Energy(buffer, tau, i)
      {
        ac := ac + buffer[i] * buffer[i + tau];
        m := m + (buffer[i] * buffer[i] + buffer[i + tau] * buffer[i + tau]);
        i := i + 1;
      }
      if m > 0.0 {
        nsdf[tau] := (2.0 * ac) / m;
      }
      tau := tau + 1;
    }
    assert nsdf[..] == Nsdf(buffer, minPeriod, maxPeriod);
  }

  // ---------------------------------------------------------------------
  // Step 3: peak picking
  // ---------------------------------------------------------------------

  /**
   * Lag t is a strict local maximum of s. Both neighbours must exist: the
   * source reads undefined outside the array, and comparisons with undefined
   * are false.
   */
  function IsPeak(s: seq<real>, t: nat): (peak: bool)
    ensures t == 0 || t >= |s| - 1 ==> !peak
    ensures 0 < t < |s| - 1 && (s[t] == s[t - 1] || s[t] == s[t + 1]) ==> !peak
    ensures peak ==> s[t] > s[t - 1] && s[t] > s[t + 1]
  {
    0 < t < |s| - 1 && s[t] > s[t - 1] && s[t] > s[t + 1]
  }

  /** The peaks at the lags of [lo, hi), in the order the loop pushes them. */
  function Peaks(s: seq<real>, lo: nat, hi: int): (ps: seq<Peak>)
    decreases hi - lo
    ensures |ps| <= if hi > lo then hi - lo else 0
  {
    if hi <= lo then []
    else
      var earlier := Peaks(s, lo, hi - 1);
      if IsPeak(s, hi - 1) then earlier + [Peak(hi - 1, s[hi - 1])] else earlier
  }

  /** The recorded peaks are exactly the strict local maxima in [lo, hi), each with its nsdf value. */
  lemma {:induction false} PeaksExactly(s: seq<real>, lo: nat, hi: int)
    decreases hi - lo
    ensures forall p :: p in Peaks(s, lo, hi) <==> lo <= p.pos < hi && IsPeak(s, p.pos) && p.val == s[p.pos]
  {
    if hi > lo {
      PeaksExactly(s, lo, hi - 1);
    }
  }

  /** The peaks are recorded in strictly ascending lag order. */
  lemma {:induction false} PeaksAscending(s: seq<real>, lo: nat, hi: int)
    decreases hi - lo
    ensures forall i, j :: 0 <= i < j < |Peaks(s, lo, hi)| ==> Peaks(s, lo, hi)[i].pos < Peaks(s, lo, hi)[j].pos
  {
    if hi > lo {
      PeaksAscending(s, lo, hi - 1);
      PeaksExactly(s, lo, hi - 1);
      var earlier := Peaks(s, lo, hi - 1);
      forall i | 0 <= i < |earlier|
        ensures earlier[i].pos < hi - 1
      {
        assert earlier[i] in earlier;
      }
    }
  }

  /** globalMax after the first n peaks: starts at 0 and rises to each larger value. */
  function GlobalMaxOf(ps: seq<Peak>, n: nat): (g: real)
    requires n <= |ps|
    ensures g >= 0.0
  {
    if n == 0 then 0.0
    else
      var g := GlobalMaxOf(ps, n - 1);
      if ps[n - 1].val > g then ps[n - 1].val else g
  }

  /** globalMax after all the peaks. */
  function GlobalMax(ps: seq<Peak>): (g: real)
    ensures g >= 0.0
    ensures forall i :: 0 <= i < |ps| ==> ps[i].val <= g
  {
    GlobalMaxOfBounds(ps, |ps|);
    GlobalMaxOf(ps, |ps|)
  }

  /** globalMax over a prefix does not depend on what follows it. */
  lemma {:induction false} GlobalMaxOfPrefix(ps: seq<Peak>, qs: seq<Peak>, n: nat)
    requires n <= |ps| && ps <= qs
    ensures GlobalMaxOf(qs, n) == GlobalMaxOf(ps, n)
  {
    if n > 0 {
      GlobalMaxOfPrefix(ps, qs, n - 1);
      assert qs[n - 1] == ps[n - 1];
    }
  }

  /** Appending a peak raises globalMax to its value if that is larger. */
  lemma GlobalMaxAppend(ps: seq<Peak>, p: Peak)
    ensures GlobalMax(ps + [p]) == if p.val > GlobalMax(ps) then p.val else GlobalMax(ps)
  {
    GlobalMaxOfPrefix(ps, ps + [p], |ps|);
  }

  /** globalMax over n peaks bounds them and is 0 or one of their values. */
  lemma {:induction false} GlobalMaxOfBounds(ps: seq<Peak>, n: nat)
    requires n <= |ps|
    ensures forall i :: 0 <= i < n ==> ps[i].val <= GlobalMaxOf(ps, n)
    ensures GlobalMaxOf(ps, n) == 0.0 || exists i :: 0 <= i < n && ps[i].val == GlobalMaxOf(ps, n)
  {
    if n > 0 {
      GlobalMaxOfBounds(ps, n - 1);
    }
  }

  /**
   * globalMax, which bounds every peak value (GlobalMax), is either 0 or the
   * value of some peak: the largest peak value when some peak is positive, 0
   * otherwise.
   */
  lemma GlobalMaxIsMaximum(ps: seq<Peak>)
    ensures GlobalMax(ps) == 0.0 || exists i :: 0 <= i < |ps| && ps[i].val == GlobalMax(ps)
    ensures (forall i :: 0 <= i < |ps| ==> ps[i].val <= 0.0) ==> GlobalMax(ps) == 0.0
  {
    GlobalMaxOfBounds(ps, |ps|);
  }

  /** The peak loop over the search range: the peaks and globalMax. */
  method FindPeaks(nsdf: array<real>, minPeriod: nat, maxPeriod: int)
    returns (peaks: seq<Peak>, globalMax: real)
    ensures peaks == Peaks(nsdf[..], minPeriod, maxPeriod)
    ensures globalMax == GlobalMax(peaks)
  {
    ghost var s := nsdf[..];
    peaks := [];
    globalMax := 0.0;
    var tau := minPeriod;
    while tau < maxPeriod
      invariant minPeriod <= tau && (tau == minPeriod || tau <= maxPeriod)
      invariant peaks == Peaks(s, minPeriod, tau)
      invariant globalMax == GlobalMax(peaks)
    {
      if 0 < tau < nsdf.Length - 1 && nsdf[tau] > nsdf[tau - 1] && nsdf[tau] > nsdf[tau + 1] {
        assert IsPeak(s, tau);
        var peak := Peak(tau, nsdf[tau]);
        GlobalMaxAppend(peaks, peak);
        peaks := peaks + [peak];
        if peak.val > globalMax {
          globalMax := peak.val;
        }
      } else {
        assert !IsPeak(s, tau);
      }
      tau := tau + 1;
    }
  }

  /** The index of the first peak whose value reaches the bound. */
  function FirstQualifying(ps: seq<Peak>, bound: real): (r: Option<nat>)
    ensures r.None? <==> forall j :: 0 <= j < |ps| ==> ps[j].val < bound
    ensures r.Some? ==> r.value < |ps| && ps[r.value].val >= bound
    ensures r.Some? ==> forall j :: 0 <= j < r.value ==> ps[j].val < bound
  {
    if ps == [] then None
    else if ps[0].val >= bound then Some(0)
    else match FirstQualifying(ps[1..], bound)
      case None => None
      case Some(i) => Some(i + 1)
  }

  /** When some peak is non-negative, the peak at globalMax qualifies, so one is selected. */
  lemma SomePeakQualifies(ps: seq<Peak>)
    requires exists i :: 0 <= i < |ps| && ps[i].val >= 0.0
    ensures FirstQualifying(ps, PeakThreshold * GlobalMax(ps)).Some?
  {
    var g := GlobalMax(ps);
    GlobalMaxIsMaximum(ps);
    if g == 0.0 {
      var i :| 0 <= i < |ps| && ps[i].val >= 0.0;
      assert ps[i].val >= PeakThreshold * g;
    } else {
      var i :| 0 <= i < |ps| && ps[i].val == g;
      assert ps[i].val >= PeakThreshold * g;
    }
  }

  /** When every peak is negative, globalMax is 0 and no peak qualifies. */
  lemma NegativePeaksNeverQualify(ps: seq<Peak>)
    requires forall i :: 0 <= i < |ps| ==> ps[i].val < 0.0
    ensures FirstQualifying(ps, PeakThreshold * GlobalMax(ps)).None?
  {
    if ps != [] {
      assert GlobalMax(ps) == 0.0 by {
        GlobalMaxIsMaximum(ps);
      }
    }
  }

  /**
   * The selection loop: the first peak at or above 0.93 * globalMax, left by
   * break; -1 for both position and value when none qualifies.
   */
  method SelectPeak(peaks: seq<Peak>, globalMax: real) returns (bestPos: int, bestVal: real)
    ensures match FirstQualifying(peaks, PeakThreshold * globalMax)
              case None => bestPos == -1 && bestVal == -1.0
              case Some(i) => bestPos == peaks[i].pos && bestVal == peaks[i].val
  {
    bestPos, bestVal := -1, -1.0;
    var threshold := PeakThreshold * globalMax;
    for i := 0 to |peaks|
      invariant bestPos == -1 && bestVal == -1.0
      invariant forall j :: 0 <= j < i ==> peaks[j].val < threshold
    {
      if peaks[i].val >= threshold {
        bestPos, bestVal := peaks[i].pos, peaks[i].val;
        assert FirstQualifying(peaks, threshold) == Some(i);
        return;
      }
    }
  }

  // ---------------------------------------------------------------------
  // Step 4: parabolic refinement and the result
  // ---------------------------------------------------------------------

  /** A quotient n / (2 d) with |n| < d lies strictly within one half. */
  lemma HalfRatioBound(num: real, den: real)
    requires den > 0.0 && -den < num < den
    ensures -0.5 < num / (2.0 * den) < 0.5
  {
  }

  /**
   * The shift the interpolation step adds to the lag: (s0 - s2) / (2 d) with
   * d = 2 s1 - s2 - s0. With its arguments swapped it is the offset of the
   * vertex of the parabola through the three samples (see VertexLag).
   */
  function Adjustment(s0: real, s2: real, denominator: real): (shift: real)
    requires denominator != 0.0
    ensures s0 == s2 ==> shift == 0.0
    ensures denominator > 0.0 ==> (shift > 0.0 <==> s0 > s2) && (shift < 0.0 <==> s0 < s2)
  {
    (s0 - s2) / (2.0 * denominator)
  }

  /**
   * better_tau: the lag of a peak shifted by the Adjustment of its two
   * neighbours, when both exist and the denominator is not 0. The shift has
   * the sign opposite to the parabola's vertex (RefinedLagMirrorsVertex).
   */
  function RefinedLag(s: seq<real>, pos: nat): (lag: real)
    ensures IsPeak(s, pos) ==> pos as real - 0.5 < lag < pos as real + 0.5
  {
    if 0 < pos < |s| - 1 then
      var denominator := 2.0 * s[pos] - s[pos + 1] - s[pos - 1];
      if denominator != 0.0 then pos as real + Adjustment(s[pos - 1], s[pos + 1], denominator)
      else pos as real
    else pos as real
  }

  /**
   * At a strict local maximum the parabola opens downward, so the refinement
   * applies and moves the lag by strictly less than half a sample.
   */
  lemma RefinedLagNearPeak(s: seq<real>, pos: nat)
    requires IsPeak(s, pos)
    ensures 2.0 * s[pos] - s[pos + 1] - s[pos - 1] > 0.0
    ensures RefinedLag(s, pos) > 0.0
  {
    var denominator := 2.0 * s[pos] - s[pos + 1] - s[pos - 1];
    HalfRatioBound(s[pos - 1] - s[pos + 1], denominator);
  }

  /** Step 4 of findFundamentalFrequency: the interpolation step applied to the chosen lag. */
  method RefinePeak(nsdf: array<real>, bestPos: nat) returns (betterTau: real)
    ensures betterTau == RefinedLag(nsdf[..], bestPos)
  {
    betterTau := bestPos as real;
    if bestPos > 0 && bestPos < nsdf.Length - 1 {
      var s0 := nsdf[bestPos - 1];
      var s1 := nsdf[bestPos];
      var s2 := nsdf[bestPos + 1];
      var denominator := 2.0 * s1 - s2 - s0;
      if denominator != 0.0 {
        var adjustment := Adjustment(s0, s2, denominator);
        betterTau := betterTau + adjustment;
      }
    }
  }

  // ---------------------------------------------------------------------
  // The parabola's vertex and the sign of the interpolation step
  // ---------------------------------------------------------------------

  /** Division undoes multiplication by a non-zero divisor. */
  lemma QuotientOf(n: real, d: real, q: real)
    requires d != 0.0 && q * d == n
    ensures n / d == q
  {
  }

  /**
   * The abscissa of the vertex of the parabola through (pos - 1, s[pos - 1]),
   * (pos, s[pos]) and (pos + 1, s[pos + 1]), with the same fall-backs as the
   * interpolation step: the lag the step evidently intends.
   */
  function VertexLag(s: seq<real>, pos: nat): (lag: real)
    ensures IsPeak(s, pos) ==> pos as real - 0.5 < lag < pos as real + 0.5
  {
    if 0 < pos < |s| - 1 then
      var denominator := 2.0 * s[pos] - s[pos + 1] - s[pos - 1];
      if denominator != 0.0 then pos as real + Adjustment(s[pos + 1], s[pos - 1], denominator)
      else pos as real
    else pos as real
  }

  /** Three samples of a downward parabola c - a (t - v)^2 have their vertex found exactly at v. */
  lemma VertexOfParabola(s: seq<real>, pos: nat, a: real, c: real, v: real)
    requires 0 < pos < |s| - 1 && a > 0.0
    requires s[pos - 1] == c - a * ((pos - 1) as real - v) * ((pos - 1) as real - v)
    requires s[pos] == c - a * (pos as real - v) * (pos as real - v)
    requires s[pos + 1] == c - a * ((pos + 1) as real - v) * ((pos + 1) as real - v)
    ensures VertexLag(s, pos) == v
  {
    var u := pos as real - v;
    assert (pos - 1) as real - v == u - 1.0 && (pos + 1) as real - v == u + 1.0;
    assert a * (u - 1.0) * (u - 1.0) == a * (u * u) - 2.0 * (a * u) + a;
    assert a * (u + 1.0) * (u + 1.0) == a * (u * u) + 2.0 * (a * u) + a;
    assert a * u * u == a * (u * u);
    var denominator := 2.0 * s[pos] - s[pos + 1] - s[pos - 1];
    assert denominator == 2.0 * a;
    assert s[pos + 1] - s[pos - 1] == -4.0 * (a * u);
    assert -u * (2.0 * denominator) == -4.0 * (a * u);
    QuotientOf(s[pos + 1] - s[pos - 1], 2.0 * denominator, -u);
  }

  /** At a strict local maximum the vertex lies on the side of the larger neighbour. */
  lemma VertexTowardLargerNeighbour(s: seq<real>, pos: nat)
    requires IsPeak(s, pos)
    ensures s[pos + 1] > s[pos - 1] ==> VertexLag(s, pos) > pos as real
    ensures s[pos - 1] > s[pos + 1] ==> VertexLag(s, pos) < pos as real
    ensures s[pos - 1] == s[pos + 1] ==> VertexLag(s, pos) == pos as real
  {
    var denominator := 2.0 * s[pos] - s[pos + 1] - s[pos - 1];
    assert denominator > 0.0;
    var q := Adjustment(s[pos + 1], s[pos - 1], denominator);
    assert q * (2.0 * denominator) == s[pos + 1] - s[pos - 1];
  }

  /** The interpolation step shifts the lag by the vertex offset with its sign flipped. */
  lemma RefinedLagMirrorsVertex(s: seq<real>, pos: nat)
    ensures RefinedLag(s, pos) - pos as real == -(VertexLag(s, pos) - pos as real)
  {
    if 0 < pos < |s| - 1 {
      var denominator := 2.0 * s[pos] - s[pos + 1] - s[pos - 1];
      if denominator != 0.0 {
        var q := Adjustment(s[pos + 1], s[pos - 1], denominator);
        assert q * (2.0 * denominator) == s[pos + 1] - s[pos - 1];
        QuotientOf(s[pos - 1] - s[pos + 1], 2.0 * denominator, -q);
      }
    }
  }

  /**
   * So at a strict local maximum the interpolation step moves the lag toward
   * the smaller neighbour, away from the vertex.
   */
  lemma RefinedLagTowardSmallerNeighbour(s: seq<real>, pos: nat)
    requires IsPeak(s, pos)
    ensures s[pos - 1] > s[pos + 1] ==> RefinedLag(s, pos) > pos as real
    ensures s[pos + 1] > s[pos - 1] ==> RefinedLag(s, pos) < pos as real
  {
    RefinedLagMirrorsVertex(s, pos);
    VertexTowardLargerNeighbour(s, pos);
  }

  /** The samples of 1 - (t - 2.3)^2 at t = 1, 2, 3 peak at 2.3, but the step refines lag 2 to 1.7. */
  lemma MirroredVertexExample()
    ensures var s := [0.0, -0.69, 0.91, 0.51, 0.0];
            IsPeak(s, 2) && VertexLag(s, 2) == 2.3 && RefinedLag(s, 2) == 1.7
  {
    var s := [0.0, -0.69, 0.91, 0.51, 0.0];
    VertexOfParabola(s, 2, 1.0, 1.0, 2.3);
    RefinedLagMirrorsVertex(s, 2);
  }

  /** The nsdf of the buffer over the search range of the sample rate. */
  function NsdfOf(x: seq<real>, sampleRate: real): (s: seq<real>)
    requires sampleRate > 0.0
    ensures |s| == |x|
  {
    Nsdf(x, MinPeriod(sampleRate), MaxPeriod(sampleRate))
  }

  /** The peaks of that nsdf over the same search range. */
  function PeaksOf(x: seq<real>, sampleRate: real): seq<Peak>
    requires sampleRate > 0.0
  {
    Peaks(NsdfOf(x, sampleRate), MinPeriod(sampleRate), MaxPeriod(sampleRate))
  }

  /** The first peak of the search range that reaches 0.93 of globalMax, if any. */
  function SelectedPeak(x: seq<real>, sampleRate: real): (p: Option<Peak>)
    requires sampleRate > 0.0
    ensures p.Some? ==> p.value in PeaksOf(x, sampleRate)
    ensures p.Some? ==> p.value.val >= PeakThreshold * GlobalMax(PeaksOf(x, sampleRate))
  {
    var peaks := PeaksOf(x, sampleRate);
    match FirstQualifying(peaks, PeakThreshold * GlobalMax(peaks))
    case None => None
    case Some(i) => Some(peaks[i])
  }

  /** What findFundamentalFrequency returns for a buffer and a sample rate. */
  function Estimate(x: seq<real>, sampleRate: real): (r: Option<Pitch>)
    requires sampleRate > 0.0
    ensures Silent(x) ==> r == None
    ensures |PeaksOf(x, sampleRate)| == 0 ==> r == None
  {
    if Silent(x) || |PeaksOf(x, sampleRate)| == 0 then None
    else
      match SelectedPeak(x, sampleRate)
      case None => None
      case Some(peak) =>
        var lag := RefinedLag(NsdfOf(x, sampleRate), peak.pos);
        if lag <= 0.0 then None
        else Some(Pitch(sampleRate / lag, peak.val))
  }

  /** findFundamentalFrequency, step by step as the source runs it. */
  method FindFundamentalFrequency(buffer: seq<real>, sampleRate: real) returns (pitch: Option<Pitch>)
    requires sampleRate > 0.0
    ensures pitch == Estimate(buffer, sampleRate)
  {
    var bufferSize := |buffer|;
    if SumOfSquares(buffer) < SilenceMeanSquare * bufferSize as real {
      assert Silent(buffer);
      return None;
    }
    assert !Silent(buffer);
    var minPeriod := MinPeriod(sampleRate);
    var maxPeriod := MaxPeriod(sampleRate);
    var nsdf := ComputeNsdf(buffer, minPeriod, maxPeriod);
    ghost var s := nsdf[..];
    assert s == NsdfOf(buffer, sampleRate);
    var peaks, globalMax := FindPeaks(nsdf, minPeriod, maxPeriod);
    assert peaks == PeaksOf(buffer, sampleRate);
    if |peaks| == 0 {
      return None;
    }
    var bestPos, bestVal := SelectPeak(peaks, globalMax);
    if bestPos == -1 {
      assert SelectedPeak(buffer, sampleRate) == None;
      return None;
    }
    ghost var i := FirstQualifying(peaks, PeakThreshold * globalMax).value;
    assert bestPos == peaks[i].pos && bestVal == peaks[i].val;
    assert SelectedPeak(buffer, sampleRate) == Some(peaks[i]);
    var betterTau := RefinePeak(nsdf, bestPos);
    assert betterTau == RefinedLag(NsdfOf(buffer, sampleRate), peaks[i].pos);
    if betterTau <= 0.0 {
      return None;
    }
    var frequency := sampleRate / betterTau;
    var clarity := bestVal;
    pitch := Some(Pitch(frequency, clarity));
  }

  // ---------------------------------------------------------------------
  // What findFundamentalFrequency promises
  // ---------------------------------------------------------------------

  /** Dividing by a larger positive number gives a smaller quotient. */
  lemma DivideByLarger(n: real, a: real, b: real)
    requires n > 0.0 && 0.0 < a < b
    ensures n / b < n / a
  {
    var qa, qb := n / a, n / b;
    assert qa * a == n;
    assert qb * b == n;
    assert qb * a < qb * b;
  }

  /** Every peak of the search range is a strict local maximum of the nsdf, inside the range. */
  lemma PeakOfRange(x: seq<real>, sampleRate: real, i: nat)
    requires sampleRate > 0.0 && i < |PeaksOf(x, sampleRate)|
    ensures var pk := PeaksOf(x, sampleRate)[i];
            && IsPeak(NsdfOf(x, sampleRate), pk.pos)
            && MinPeriod(sampleRate) <= pk.pos < MaxPeriod(sampleRate)
            && pk.val == NsdfOf(x, sampleRate)[pk.pos]
  {
    var ps := PeaksOf(x, sampleRate);
    PeaksExactly(NsdfOf(x, sampleRate), MinPeriod(sampleRate), MaxPeriod(sampleRate));
    assert ps[i] in ps;
  }

  /**
   * The lags just outside the search range are never written, so the first
   * and the last lag of the range are compared against a zero-filled entry:
   * each is a peak exactly when its nsdf value is positive and above its one
   * neighbour inside the buffer.
   */
  lemma SearchRangeEdges(x: seq<real>, sampleRate: real)
    requires sampleRate > 0.0
    ensures var s := NsdfOf(x, sampleRate);
            var lo := MinPeriod(sampleRate);
            lo >= 1 && lo + 1 < |x| && lo + 1 < MaxPeriod(sampleRate) ==>
              s[lo - 1] == 0.0 && (IsPeak(s, lo) <==> s[lo] > 0.0 && s[lo] > s[lo + 1])
    ensures var s := NsdfOf(x, sampleRate);
            var hi := MaxPeriod(sampleRate);
            hi >= 2 && hi < |x| && MinPeriod(sampleRate) < hi - 1 ==>
              s[hi] == 0.0 && (IsPeak(s, hi - 1) <==> s[hi - 1] > 0.0 && s[hi - 1] > s[hi - 2])
  {
    NsdfShape(x, MinPeriod(sampleRate), MaxPeriod(sampleRate));
  }

  /**
   * No pitch exactly when the buffer is silent or every peak in the search
   * range is negative (this covers having no peaks at all). In particular the
   * `better_tau <= 0` return never fires.
   */
  lemma EstimateNoneIff(x: seq<real>, sampleRate: real)
    requires sampleRate > 0.0
    ensures Estimate(x, sampleRate).None? <==>
              Silent(x) || forall i :: 0 <= i < |PeaksOf(x, sampleRate)| ==> PeaksOf(x, sampleRate)[i].val < 0.0
  {
    var ps := PeaksOf(x, sampleRate);
    if !Silent(x) {
      if forall i :: 0 <= i < |ps| ==> ps[i].val < 0.0 {
        NegativePeaksNeverQualify(ps);
      } else {
        SomePeakQualifies(ps);
        var i := FirstQualifying(ps, PeakThreshold * GlobalMax(ps)).value;
        PeakOfRange(x, sampleRate, i);
        RefinedLagNearPeak(NsdfOf(x, sampleRate), ps[i].pos);
      }
    }
  }

  /** No peak is selected exactly when every peak is below 0.93 of globalMax. */
  lemma SelectedPeakNoneIff(x: seq<real>, sampleRate: real)
    requires sampleRate > 0.0
    ensures var ps := PeaksOf(x, sampleRate);
            SelectedPeak(x, sampleRate).None? <==>
              forall q :: q in ps ==> q.val < PeakThreshold * GlobalMax(ps)
  {
    var ps := PeaksOf(x, sampleRate);
    var bound := PeakThreshold * GlobalMax(ps);
    if FirstQualifying(ps, bound).None? {
      forall q | q in ps
        ensures q.val < bound
      {
        var j :| 0 <= j < |ps| && ps[j] == q;
      }
    } else {
      assert ps[FirstQualifying(ps, bound).value] in ps;
    }
  }

  /**
   * The selected peak is a strict local maximum of the nsdf inside the search
   * range, with its nsdf value, which reaches 0.93 of globalMax and lies in [0, 1].
   */
  lemma SelectedPeakIsPeak(x: seq<real>, sampleRate: real)
    requires sampleRate > 0.0 && SelectedPeak(x, sampleRate).Some?
    ensures var s := NsdfOf(x, sampleRate);
            var ps := PeaksOf(x, sampleRate);
            var pk := SelectedPeak(x, sampleRate).value;
            && pk in ps
            && IsPeak(s, pk.pos)
            && MinPeriod(sampleRate) <= pk.pos < MaxPeriod(sampleRate)
            && pk.val == s[pk.pos]
            && PeakThreshold * GlobalMax(ps) <= pk.val
            && 0.0 <= pk.val <= 1.0
  {
    var ps := PeaksOf(x, sampleRate);
    var i := FirstQualifying(ps, PeakThreshold * GlobalMax(ps)).value;
    PeakOfRange(x, sampleRate, i);
  }

  /** No peak at a shorter lag than the selected one reaches 0.93 of globalMax. */
  lemma SelectedPeakIsFirst(x: seq<real>, sampleRate: real)
    requires sampleRate > 0.0 && SelectedPeak(x, sampleRate).Some?
    ensures var ps := PeaksOf(x, sampleRate);
            var pk := SelectedPeak(x, sampleRate).value;
            forall q :: q in ps && q.pos < pk.pos ==> q.val < PeakThreshold * GlobalMax(ps)
  {
    var ps := PeaksOf(x, sampleRate);
    var bound := PeakThreshold * GlobalMax(ps);
    var i := FirstQualifying(ps, bound).value;
    PeaksAscending(NsdfOf(x, sampleRate), MinPeriod(sampleRate), MaxPeriod(sampleRate));
    forall q | q in ps && q.pos < ps[i].pos
      ensures q.val < bound
    {
      var j :| 0 <= j < |ps| && ps[j] == q;
      assert j < i;
    }
  }

  /**
   * A detected pitch has the selected peak's nsdf value as its clarity and
   * sampleRate over the refined lag as its frequency; the refined lag lies
   * within half a sample of the peak, so the frequency lies strictly between
   * sampleRate / (pos + 1/2) and sampleRate / (pos - 1/2).
   */
  lemma EstimateFromSelectedPeak(x: seq<real>, sampleRate: real)
    requires sampleRate > 0.0 && Estimate(x, sampleRate).Some?
    ensures !Silent(x) && SelectedPeak(x, sampleRate).Some?
    ensures var pk := SelectedPeak(x, sampleRate).value;
            var pitch := Estimate(x, sampleRate).value;
            var lag := RefinedLag(NsdfOf(x, sampleRate), pk.pos);
            && pitch.clarity == pk.val
            && pitch.frequency == sampleRate / lag
            && pk.pos as real - 0.5 < lag < pk.pos as real + 0.5
            && sampleRate / (pk.pos as real + 0.5) < pitch.frequency < sampleRate / (pk.pos as real - 0.5)
  {
    var s := NsdfOf(x, sampleRate);
    var pk := SelectedPeak(x, sampleRate).value;
    SelectedPeakIsPeak(x, sampleRate);
    RefinedLagNearPeak(s, pk.pos);
    var lag := RefinedLag(s, pk.pos);
    DivideByLarger(sampleRate, lag, pk.pos as real + 0.5);
    DivideByLarger(sampleRate, pk.pos as real - 0.5, lag);
  }

  /** A buffer of zeros (including the empty buffer) yields no pitch. */
  lemma ZeroBufferNoPitch(x: seq<real>, sampleRate: real)
    requires sampleRate > 0.0
    requires forall i :: 0 <= i < |x| ==> x[i] == 0.0
    ensures Estimate(x, sampleRate) == None
  {
    if |x| > 0 {
      ZeroBufferIsSilent(x);
    } else {
      var ps := PeaksOf(x, sampleRate);
      if |ps| > 0 {
        PeakOfRange(x, sampleRate, 0);
      }
    }
  }

  /** processAudio forwards a pitch only when there is one and its clarity exceeds 0.9. */
  function Forwarded(pitch: Option<Pitch>): (r: Option<Pitch>)
    ensures r.Some? <==> pitch.Some? && pitch.value.clarity > ClarityThreshold
    ensures r.Some? ==> r == pitch
  {
    if pitch.Some? && pitch.value.clarity > ClarityThreshold then pitch else None
  }

  /**
   * One animation frame of processAudio: estimate the pitch of the captured
   * buffer and return the pitch handed to the callback, if any.
   */
  method ProcessAudio(buffer: seq<real>, sampleRate: real) returns (forwarded: Option<Pitch>)
    requires sampleRate > 0.0
    ensures forwarded == Forwarded(Estimate(buffer, sampleRate))
  {
    var pitch := FindFundamentalFrequency(buffer, sampleRate);
    if pitch.Some? && pitch.value.clarity > ClarityThreshold {
      forwarded := pitch;
    } else {
      forwarded := None;
    }
  }

  /** A forwarded pitch has a positive frequency and a clarity in (0.9, 1]. */
  lemma ForwardedPitchIsClear(x: seq<real>, sampleRate: real)
    requires sampleRate > 0.0 && Forwarded(Estimate(x, sampleRate)).Some?
    ensures var p := Forwarded(Estimate(x, sampleRate)).value;
            p.frequency > 0.0 && ClarityThreshold < p.clarity <= 1.0
  {
    EstimateFromSelectedPeak(x, sampleRate);
    SelectedPeakIsPeak(x, sampleRate);
    var pk := SelectedPeak(x, sampleRate).value;
    RefinedLagNearPeak(NsdfOf(x, sampleRate), pk.pos);
  }

  // ---------------------------------------------------------------------
  // The first lag of the search range
  // ---------------------------------------------------------------------

  /** Lags at or past the last index of the nsdf add no peaks. */
  lemma {:induction false} PeaksPastEnd(s: seq<real>, lo: nat, hi: int)
    requires lo <= |s| - 1 <= hi
    decreases hi
    ensures Peaks(s, lo, hi) == Peaks(s, lo, |s| - 1)
  {
    if hi > |s| - 1 {
      PeaksPastEnd(s, lo, hi - 1);
    }
  }

  /** A step down to silence: six samples of 1 and a 0. Its NSDF falls from lag 0 on. */
  const StepBuffer: seq<real> := [1.0, 1.0, 1.0, 1.0, 1.0, 1.0, 0.0]

  /**
   * The sums over the first n pairs at lag tau of StepBuffer: a pair counts in
   * the autocorrelation when both samples fall among the six ones.
   */
  lemma {:induction false} StepSums(tau: nat, n: nat)
    requires tau + n <= 7
    ensures Acf(StepBuffer, tau, n) == (if tau >= 6 then 0 else if n < 6 - tau then n else 6 - tau) as real
    ensures Energy(StepBuffer, tau, n)
         == (if n < 6 then n else 6) as real + (if tau >= 6 then 0 else if n < 6 - tau then n else 6 - tau) as real
  {
    if n > 0 {
      StepSums(tau, n - 1);
      var x := StepBuffer;
      assert x[n - 1] == if n - 1 < 6 then 1.0 else 0.0;
      assert x[n - 1 + tau] == if n - 1 + tau < 6 then 1.0 else 0.0;
    }
  }

  /** The NSDF of StepBuffer at lags 0 to 6: 1, 10/11, 8/9, 6/7, 4/5, 2/3, 0. */
  lemma StepNsdf()
    ensures NsdfAt(StepBuffer, 0) == 1.0
    ensures NsdfAt(StepBuffer, 1) == 10.0 / 11.0
    ensures NsdfAt(StepBuffer, 2) == 8.0 / 9.0
    ensures NsdfAt(StepBuffer, 3) == 6.0 / 7.0
    ensures NsdfAt(StepBuffer, 4) == 4.0 / 5.0
    ensures NsdfAt(StepBuffer, 5) == 2.0 / 3.0
    ensures NsdfAt(StepBuffer, 6) == 0.0
  {
    StepSums(0, 7);
    StepSums(1, 6);
    StepSums(2, 5);
    StepSums(3, 4);
    StepSums(4, 3);
    StepSums(5, 2);
    StepSums(6, 1);
  }

  /**
   * As written, the first lag of the range is compared with the zero fill
   * below it. At 4200 Hz the range starts at lag 1, so StepBuffer, whose NSDF
   * has no local maximum at all, gets a peak at lag 1 and a pitch of
   * 8050 Hz with clarity 10/11, which the clarity gate forwards.
   */
  lemma EdgeLagExample()
    ensures MinPeriod(4200.0) == 1
    ensures NsdfAt(StepBuffer, 0) > NsdfAt(StepBuffer, 1)
    ensures IsPeak(NsdfOf(StepBuffer, 4200.0), 1)
    ensures Estimate(StepBuffer, 4200.0) == Some(Pitch(8050.0, 10.0 / 11.0))
    ensures Forwarded(Estimate(StepBuffer, 4200.0)).Some?
  {
    StepNsdf();
    StepPeaks();
    StepSelected();
    StepNotSilent();
    StepRefinedLag();
    QuotientOf(4200.0, 12.0 / 23.0, 8050.0);
  }

  /** StepBuffer passes the silence gate. */
  lemma StepNotSilent()
    ensures !Silent(StepBuffer)
  {
    var x := StepBuffer;
    assert x[..6][..5] == x[..5];
    assert SumOfSquares(x) == SumOfSquares(x[..6]) == SumOfSquares(x[..5]) + 1.0;
  }

  /** Its one peak is the one selected. */
  lemma StepSelected()
    ensures SelectedPeak(StepBuffer, 4200.0) == Some(Peak(1, 10.0 / 11.0))
  {
    StepPeaks();
    var ps := PeaksOf(StepBuffer, 4200.0);
    assert GlobalMax(ps) == 10.0 / 11.0;
    assert FirstQualifying(ps, PeakThreshold * GlobalMax(ps)) == Some(0);
  }

  /** As written, StepBuffer at 4200 Hz has exactly one peak: the first lag of the range. */
  lemma StepPeaks()
    ensures MinPeriod(4200.0) == 1 && MaxPeriod(4200.0) > 7
    ensures NsdfOf(StepBuffer, 4200.0) == [0.0, 10.0 / 11.0, 8.0 / 9.0, 6.0 / 7.0, 4.0 / 5.0, 2.0 / 3.0, 0.0]
    ensures PeaksOf(StepBuffer, 4200.0) == [Peak(1, 10.0 / 11.0)]
  {
    StepNsdf();
    var s := NsdfOf(StepBuffer, 4200.0);
    assert MinPeriod(4200.0) == 1;
    assert MaxPeriod(4200.0) > 7;
    assert s == [0.0, 10.0 / 11.0, 8.0 / 9.0, 6.0 / 7.0, 4.0 / 5.0, 2.0 / 3.0, 0.0];
    PeaksPastEnd(s, 1, MaxPeriod(4200.0));
  }

  /** The interpolation step moves that peak from lag 1 to 12/23. */
  lemma StepRefinedLag()
    ensures RefinedLag([0.0, 10.0 / 11.0, 8.0 / 9.0, 6.0 / 7.0, 4.0 / 5.0, 2.0 / 3.0, 0.0], 1) == 12.0 / 23.0
  {
    QuotientOf(0.0 - 8.0 / 9.0, 2.0 * (92.0 / 99.0), -11.0 / 23.0);
  }

  /**
   * The nsdf the peak test evidently intends to read: the search range and
   * one more lag on each side, so that both neighbours of every lag of the
   * range hold their own NSDF values.
   */
  function IntendedNsdf(x: seq<real>, sampleRate: real): (s: seq<real>)
    requires sampleRate > 0.0
    ensures |s| == |x|
  {
    var lo := MinPeriod(sampleRate);
    Nsdf(x, if lo > 0 then lo - 1 else 0, MaxPeriod(sampleRate) + 1)
  }

  /** The peaks of the search range tested against that nsdf. */
  function IntendedPeaksOf(x: seq<real>, sampleRate: real): seq<Peak>
    requires sampleRate > 0.0
  {
    Peaks(IntendedNsdf(x, sampleRate), MinPeriod(sampleRate), MaxPeriod(sampleRate))
  }

  /** The intended peaks are exactly the strict local maxima of the NSDF itself inside the search range. */
  lemma IntendedPeaksAreLocalMaxima(x: seq<real>, sampleRate: real)
    requires sampleRate > 0.0
    ensures forall p :: p in IntendedPeaksOf(x, sampleRate) <==>
              && MinPeriod(sampleRate) <= p.pos < MaxPeriod(sampleRate)
              && 0 < p.pos < |x| - 1
              && NsdfAt(x, p.pos - 1) < NsdfAt(x, p.pos)
              && NsdfAt(x, p.pos) > NsdfAt(x, p.pos + 1)
              && p.val == NsdfAt(x, p.pos)
  {
    var lo := MinPeriod(sampleRate);
    var hi := MaxPeriod(sampleRate);
    PeaksExactly(IntendedNsdf(x, sampleRate), lo, hi);
    NsdfShape(x, if lo > 0 then lo - 1 else 0, hi + 1);
  }

  /** With the intended test StepBuffer has no peak, so no pitch would be reported. */
  lemma IntendedStepHasNoPeak()
    ensures IntendedPeaksOf(StepBuffer, 4200.0) == []
  {
    StepNsdf();
    var s := IntendedNsdf(StepBuffer, 4200.0);
    assert MinPeriod(4200.0) == 1;
    assert MaxPeriod(4200.0) > 7;
    assert s == [1.0, 10.0 / 11.0, 8.0 / 9.0, 6.0 / 7.0, 4.0 / 5.0, 2.0 / 3.0, 0.0];
    PeaksPastEnd(s, 1, MaxPeriod(4200.0));
  }
}
