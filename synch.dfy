/** The receiver side of the QPSK carrier-synchronisation chain of
    synch_fonctions.py: the triangular pulse, the noiseless channel output
    sampled by `RX`, the maximum-likelihood hard decision and the
    decision-directed phase-locked loop `PhaseEstimation`.

    The carrier rotation exp(j*theta) is the parameter `expj`, about which
    nothing is assumed unless a lemma says so; sqrt(Es)/sqrt(2) is the
    parameter `amp`, tied to the symbol energy by `IsScale`. */
module Synch {
  import opened ComplexNumbers

  function Abs(x: real): (r: real)
    ensures r >= 0.0 && (r == x || r == -x)
  {
    if x < 0.0 then -x else x
  }

  // ---------------------------------------------------------------------
  // triangle(t, T): one sample of the triangular pulse of base 2T
  // ---------------------------------------------------------------------

  function Triangle(t: real, T: real): (g: real)
    ensures 0.0 <= g <= 1.0
  {
    if Abs(t) < T then 1.0 - Abs(t) / T else 0.0
  }

  /** The pulse is zero outside the open interval (-T, T). */
  lemma TriangleSupport(t: real, T: real)
    ensures Triangle(t, T) > 0.0 <==> Abs(t) < T
  {
  }

  lemma TriangleSymmetric(t: real, T: real)
    ensures Triangle(-t, T) == Triangle(t, T)
  {
  }

  lemma TrianglePeak(T: real)
    requires T > 0.0
    ensures Triangle(0.0, T) == 1.0
  {
  }

  /** A nonzero multiple of T has magnitude at least T. */
  lemma MultipleAtLeastBase(n: int, T: real)
    requires T > 0.0 && n != 0
    ensures Abs(n as real * T) >= T
  {
    if n > 0 {
      assert (n - 1) as real * T >= 0.0;
      assert n as real * T == (n - 1) as real * T + T;
    } else {
      assert (-n - 1) as real * T >= 0.0;
      assert n as real * T == -((-n - 1) as real * T + T);
    }
  }

  /** Sampled at the multiples of T the pulse is the unit impulse: it is
      Nyquist, so neighbouring symbols do not interfere. */
  lemma TriangleAtMultiple(n: int, T: real)
    requires T > 0.0
    ensures Triangle(n as real * T, T) == if n == 0 then 1.0 else 0.0
  {
    if n != 0 {
      MultipleAtLeastBase(n, T);
    }
  }

  /** Two neighbouring pulses add up to one between their peaks, so the
      noiseless channel output interpolates linearly between symbols. */
  lemma TrianglePartitionOfUnity(t: real, T: real)
    requires T > 0.0 && 0.0 <= t <= T
    ensures Triangle(t, T) + Triangle(t - T, T) == 1.0
  {
  }

  // ---------------------------------------------------------------------
  // RX(t, T, data, N0, phi, fD, epsilon): channel output at instant t
  // ---------------------------------------------------------------------

  /** np.pi as printed (16 significant digits). */
  const Pi: real := 3.141592653589793

  /** Contribution data[k]*triangle(t - k*T - epsilon*T, T) of symbol k. */
  function Pulse(t: real, T: real, data: seq<Complex>, epsilon: real, k: nat): (p: Complex)
    requires k < |data|
  {
    Scale(Triangle(t - k as real * T - epsilon * T, T), data[k])
  }

  /** Sum of the contributions of the first n symbols, in loop order. */
  function PulseSum(t: real, T: real, data: seq<Complex>, epsilon: real, n: nat): (s: Complex)
    requires n <= |data|
  {
    if n == 0 then Zero
    else Add(PulseSum(t, T, data, epsilon, n - 1), Pulse(t, T, data, epsilon, n - 1))
  }

  /** Noiseless channel output at instant t: the pulse sum of all symbols,
      rotated by the carrier phase phi + 2*pi*fD*t. */
  method RX(t: real, T: real, data: seq<Complex>, phi: real, fD: real, epsilon: real,
            expj: real -> Complex)
    returns (yt: Complex)
    ensures yt == Mul(PulseSum(t, T, data, epsilon, |data|), expj(phi + 2.0 * Pi * fD * t))
  {
    yt := Zero;
    for k := 0 to |data|
      invariant yt == PulseSum(t, T, data, epsilon, k)
    {
      yt := Add(yt, Scale(Triangle(t - k as real * T - epsilon * T, T), data[k]));
    }
    yt := Mul(yt, expj(phi + 2.0 * Pi * fD * t));
  }

  /** Sampled at the optimal instant t = m*T + epsilon*T, the pulse sum of
      the first n symbols is symbol m itself, or zero when m is not among them. */
  lemma {:induction false} SampledPulseSum(m: int, T: real, data: seq<Complex>, epsilon: real, n: nat)
    requires T > 0.0 && n <= |data|
    ensures PulseSum(m as real * T + epsilon * T, T, data, epsilon, n)
            == if 0 <= m < n then data[m] else Zero
  {
    if n > 0 {
      SampledPulseSum(m, T, data, epsilon, n - 1);
      SampledPulse(m, T, data, epsilon, n - 1);
    }
  }

  /** At t = m*T + epsilon*T, symbol k contributes itself when k = m and nothing otherwise. */
  lemma SampledPulse(m: int, T: real, data: seq<Complex>, epsilon: real, k: nat)
    requires T > 0.0 && k < |data|
    ensures Pulse(m as real * T + epsilon * T, T, data, epsilon, k)
            == if m == k then data[k] else Scale(0.0, data[k])
  {
    var t := m as real * T + epsilon * T;
    assert t - k as real * T - epsilon * T == m as real * T - k as real * T;
    assert m as real * T - k as real * T == (m - k) as real * T;
    TriangleAtMultiple(m - k, T);
  }

  /** What `RX` returns at the optimal sampling instants: the symbol itself,
      rotated by the carrier. */
  lemma SampledChannelOutput(m: int, T: real, data: seq<Complex>, phi: real, fD: real,
                             epsilon: real, expj: real -> Complex)
    requires T > 0.0 && 0 <= m < |data|
    ensures var t := m as real * T + epsilon * T;
            Mul(PulseSum(t, T, data, epsilon, |data|), expj(phi + 2.0 * Pi * fD * t))
            == Mul(data[m], expj(phi + 2.0 * Pi * fD * t))
  {
    SampledPulseSum(m, T, data, epsilon, |data|);
  }

  // ---------------------------------------------------------------------
  // decision(r, Es): maximum-likelihood QPSK hard decision
  // ---------------------------------------------------------------------

  /** `amp` is sqrt(Es)/sqrt(2), the non-negative root of 2*amp^2 = Es. */
  predicate IsScale(Es: real, amp: real)
  {
    amp >= 0.0 && 2.0 * amp * amp == Es
  }

  /** The four QPSK points sqrt(Es)*exp(j*(pi/4 + k*pi/2)), i.e. (+-amp, +-amp). */
  predicate IsSymbol(a: Complex, amp: real)
  {
    (a.re == amp || a.re == -amp) && (a.im == amp || a.im == -amp)
  }

  /** np.sign on a float. */
  function Sign(x: real): (s: real)
  {
    if x > 0.0 then 1.0 else if x < 0.0 then -1.0 else 0.0
  }

  /** d is one of -amp, 0, +amp and has the sign of x. */
  predicate SignedLevel(d: real, x: real, amp: real)
  {
    (d == -amp || d == 0.0 || d == amp) &&
    (d > 0.0 <==> x > 0.0) && (d < 0.0 <==> x < 0.0)
  }

  /** decision(r, Es): np.sign of each component, scaled by sqrt(Es)/sqrt(2) = amp. */
  function Decision(r: Complex, amp: real): (d: Complex)
  {
    Complex(amp * Sign(r.re), amp * Sign(r.im))
  }

  /** For amp > 0 each component of the decision is -amp, 0 or +amp with the
      sign of the sample's component; with Es = 0 the decision is 0. */
  lemma DecisionLevels(r: Complex, amp: real)
    ensures amp > 0.0 ==> SignedLevel(Decision(r, amp).re, r.re, amp) && SignedLevel(Decision(r, amp).im, r.im, amp)
    ensures amp == 0.0 ==> Decision(r, amp) == Zero
  {
  }

  /** Every constellation point has energy Es. */
  lemma SymbolEnergy(a: Complex, Es: real, amp: real)
    requires IsScale(Es, amp) && IsSymbol(a, amp)
    ensures DistSq(a, Zero) == Es
  {
  }

  /** The decision lands on the constellation exactly when neither component
      of the sample is zero; np.sign(0) = 0 puts it on an axis otherwise. */
  lemma DecisionOnConstellationIff(r: Complex, amp: real)
    requires amp > 0.0
    ensures IsSymbol(Decision(r, amp), amp) <==> r.re != 0.0 && r.im != 0.0
  {
  }

  /** A constellation point is decided as itself. */
  lemma DecisionFixesSymbols(a: Complex, amp: real)
    requires amp > 0.0 && IsSymbol(a, amp)
    ensures Decision(a, amp) == a
  {
  }

  lemma DecisionIdempotent(r: Complex, amp: real)
    requires amp >= 0.0
    ensures Decision(Decision(r, amp), amp) == Decision(r, amp)
  {
  }

  /** One component of the nearest-point argument: x*s <= |x|*amp when |s| = amp. */
  lemma NearerLevel(x: real, d: real, s: real, amp: real)
    requires amp >= 0.0 && d == amp * Sign(x) && (s == amp || s == -amp)
    ensures (x - d) * (x - d) <= (x - s) * (x - s)
  {
  }

  /** Maximum likelihood under Gaussian noise: no constellation point is
      closer to the sample than its decision. */
  lemma DecisionIsNearest(r: Complex, s: Complex, amp: real)
    requires amp >= 0.0 && IsSymbol(s, amp)
    ensures DistSq(r, Decision(r, amp)) <= DistSq(r, s)
  {
    var d := Decision(r, amp);
    NearerLevel(r.re, d.re, s.re, amp);
    NearerLevel(r.im, d.im, s.im, amp);
    NearerByComponents(r, d, s);
  }

  /** A point nearer to r in each coordinate is nearer to r in the plane. */
  lemma NearerByComponents(r: Complex, d: Complex, s: Complex)
    requires (r.re - d.re) * (r.re - d.re) <= (r.re - s.re) * (r.re - s.re)
    requires (r.im - d.im) * (r.im - d.im) <= (r.im - s.im) * (r.im - s.im)
    ensures DistSq(r, d) <= DistSq(r, s)
  {
  }

  // ---------------------------------------------------------------------
  // PhaseEstimation(y, gamma, phi_chap_0, Es): decision-directed PLL
  // ---------------------------------------------------------------------

  /** The loop's parameters: gain, initial estimate, symbol energy, the
      scale sqrt(Es)/sqrt(2) of the decisions, and theta -> exp(j*theta). */
  datatype LoopConfig = LoopConfig(gamma: real, phi0: real, Es: real, amp: real,
                                   expj: real -> Complex)
  {
    predicate Valid()
    {
      Es > 0.0 && amp > 0.0
    }
  }

  /** zz = y*exp(-j*phi): the sample de-rotated by a phase estimate. */
  function Derotate(y: Complex, phi: real, expj: real -> Complex): (zz: Complex)
  {
    Mul(y, expj(-phi))
  }

  /** Output uk = Im(conj(a)*zz)/Es of the phase-error detector. */
  function PhaseError(a: Complex, zz: Complex, Es: real): (uk: real)
    requires Es != 0.0
  {
    Mul(Conj(a), zz).im / Es
  }

  /** One transition of the loop (k >= 1): de-rotate y[k] by the previous
      estimate, decide, and correct the estimate by gamma times the
      detector output. */
  function Step(prev: real, yk: Complex, c: LoopConfig): (phi: real)
    requires c.Valid()
  {
    var zz := Derotate(yk, prev, c.expj);
    prev + c.gamma * PhaseError(Decision(zz, c.amp), zz, c.Es)
  }

  /** Phase estimate phi_chap[k]: the seed at k = 0, then one transition per sample. */
  function Estimate(y: seq<Complex>, k: nat, c: LoopConfig): (phi: real)
    requires k < |y| && c.Valid()
  {
    if k == 0 then c.phi0 else Step(Estimate(y, k - 1, c), y[k], c)
  }

  /** Phase by which sample k is de-rotated before it is decided. */
  function ReferencePhase(y: seq<Complex>, k: nat, c: LoopConfig): (ref: real)
    requires k < |y| && c.Valid()
  {
    if k == 0 then c.phi0 else Estimate(y, k - 1, c)
  }

  /** Symbol estimate a_chap[k]. */
  function SymbolEstimate(y: seq<Complex>, k: nat, c: LoopConfig): (a: Complex)
    requires k < |y| && c.Valid()
  {
    Decision(Derotate(y[k], ReferencePhase(y, k, c), c.expj), c.amp)
  }

  /** The source's loop read as a relation between the samples and the
      first n entries of the two outputs: at k = 0 the seed and one decision,
      with no error update; at k >= 1 a decision on y[k] de-rotated by the
      previous estimate, and a proportional correction of that estimate. */
  ghost predicate IsTracePrefix(y: seq<Complex>, phiHat: seq<real>, aHat: seq<Complex>, n: nat, c: LoopConfig)
    requires c.Valid()
  {
    n <= |y| && |phiHat| == |y| && |aHat| == |y| &&
    (n > 0 ==> phiHat[0] == c.phi0 && aHat[0] == Decision(Derotate(y[0], c.phi0, c.expj), c.amp)) &&
    forall k :: 1 <= k < n ==> StepsTo(y[k], phiHat[k - 1], phiHat[k], aHat[k], c)
  }

  /** One iteration at k >= 1: from the previous estimate prev, sample yk
      is de-rotated and decided as a, and the estimate becomes phi. */
  predicate StepsTo(yk: Complex, prev: real, phi: real, a: Complex, c: LoopConfig)
    requires c.Valid()
  {
    a == Decision(Derotate(yk, prev, c.expj), c.amp) && phi == Step(prev, yk, c)
  }

  /** The whole of both outputs follows the loop's recurrence. */
  ghost predicate IsLoopTrace(y: seq<Complex>, phiHat: seq<real>, aHat: seq<Complex>, c: LoopConfig)
    requires c.Valid()
  {
    IsTracePrefix(y, phiHat, aHat, |y|, c)
  }

  /** The outputs agree with the specification functions at every index. */
  ghost predicate MatchesEstimates(y: seq<Complex>, phiHat: seq<real>, aHat: seq<Complex>, c: LoopConfig)
    requires c.Valid()
  {
    |phiHat| == |y| && |aHat| == |y| &&
    forall k {:trigger phiHat[k]} {:trigger aHat[k]} :: 0 <= k < |y| ==>
      phiHat[k] == Estimate(y, k, c) && aHat[k] == SymbolEstimate(y, k, c)
  }

  method PhaseEstimation(y: seq<Complex>, gamma: real, phi0: real, Es: real, amp: real,
                         expj: real -> Complex)
    returns (phiHat: seq<real>, aHat: seq<Complex>)
    requires Es > 0.0 && amp > 0.0 && IsScale(Es, amp)
    ensures IsLoopTrace(y, phiHat, aHat, LoopConfig(gamma, phi0, Es, amp, expj))
    ensures MatchesEstimates(y, phiHat, aHat, LoopConfig(gamma, phi0, Es, amp, expj))
  {
    ghost var c := LoopConfig(gamma, phi0, Es, amp, expj);
    var phiChap := new real[|y|];
    var aChap := new Complex[|y|];
    for k := 0 to |y|
      invariant IsTracePrefix(y, phiChap[..], aChap[..], k, c)
    {
      ghost var phis, syms := phiChap[..], aChap[..];
      if k == 0 {
        phiChap[k] := phi0;
        var zz := Derotate(y[k], phi0, expj);
        aChap[k] := Decision(zz, amp);
      } else {
        var zz := Derotate(y[k], phiChap[k - 1], expj);
        aChap[k] := Decision(zz, amp);
        var uk := Mul(Conj(aChap[k]), zz).im / Es;
        phiChap[k] := phiChap[k - 1] + gamma * uk;
      }
      assert phiChap[..] == phis[k := phiChap[k]] && aChap[..] == syms[k := aChap[k]];
      ExtendTrace(y, phis, syms, k, c, phiChap[k], aChap[k]);
    }
    phiHat, aHat := phiChap[..], aChap[..];
    TraceIsUnique(y, phiHat, aHat, c);
  }

  /** Writing the loop's values at index k extends the recurrence by one index. */
  lemma ExtendTrace(y: seq<Complex>, phis: seq<real>, syms: seq<Complex>, k: nat, c: LoopConfig,
                    next: real, a: Complex)
    requires c.Valid() && IsTracePrefix(y, phis, syms, k, c) && k < |y|
    requires k == 0 ==> next == c.phi0 && a == Decision(Derotate(y[0], c.phi0, c.expj), c.amp)
    requires k > 0 ==> StepsTo(y[k], phis[k - 1], next, a, c)
    ensures IsTracePrefix(y, phis[k := next], syms[k := a], k + 1, c)
  {
  }

  /** Outputs that agree with `Estimate` and `SymbolEstimate` obey the
      loop's recurrence. */
  lemma EstimatesAreTrace(y: seq<Complex>, phiHat: seq<real>, aHat: seq<Complex>, c: LoopConfig)
    requires c.Valid() && MatchesEstimates(y, phiHat, aHat, c)
    ensures IsLoopTrace(y, phiHat, aHat, c)
  {
  }

  /** The recurrence determines the outputs: every trace of the loop agrees
      with `Estimate` and `SymbolEstimate`. */
  lemma TraceIsUnique(y: seq<Complex>, phiHat: seq<real>, aHat: seq<Complex>, c: LoopConfig)
    requires c.Valid() && IsLoopTrace(y, phiHat, aHat, c)
    ensures MatchesEstimates(y, phiHat, aHat, c)
  {
    forall k | 0 <= k < |y|
      ensures phiHat[k] == Estimate(y, k, c) && aHat[k] == SymbolEstimate(y, k, c)
    {
      TraceMatchesAt(y, phiHat, aHat, c, k);
    }
  }

  lemma {:induction false} TraceMatchesAt(y: seq<Complex>, phiHat: seq<real>, aHat: seq<Complex>,
                                          c: LoopConfig, k: nat)
    requires c.Valid() && IsLoopTrace(y, phiHat, aHat, c) && k < |y|
    ensures phiHat[k] == Estimate(y, k, c) && aHat[k] == SymbolEstimate(y, k, c)
  {
    if k > 0 {
      TraceMatchesAt(y, phiHat, aHat, c, k - 1);
      assert phiHat[k - 1] == ReferencePhase(y, k, c);
      assert StepsTo(y[k], phiHat[k - 1], phiHat[k], aHat[k], c);
    }
  }

  /** On a constellation point the detector is silent: the decision is the
      sample itself, uk = 0 and the estimate does not move. */
  lemma NoCorrectionOnSymbol(zz: Complex, prev: real, c: LoopConfig)
    requires c.Valid() && IsSymbol(zz, c.amp)
    ensures Decision(zz, c.amp) == zz
    ensures PhaseError(Decision(zz, c.amp), zz, c.Es) == 0.0
    ensures prev + c.gamma * PhaseError(Decision(zz, c.amp), zz, c.Es) == prev
  {
  }

  /** Off the axes, the detector output is zero exactly when the de-rotated
      sample lies on a diagonal of the constellation. */
  lemma PhaseErrorZeroIffDiagonal(zz: Complex, c: LoopConfig)
    requires c.Valid() && zz.re != 0.0 && zz.im != 0.0
    ensures PhaseError(Decision(zz, c.amp), zz, c.Es) == 0.0 <==> Abs(zz.re) == Abs(zz.im)
  {
    var a := Decision(zz, c.amp);
    var x := Sign(zz.re) * zz.im - Sign(zz.im) * zz.re;
    assert Mul(Conj(a), zz).im == c.amp * x;
    ProductZero(c.amp, x);
    QuotientZero(c.amp * x, c.Es);
    if zz.re > 0.0 && zz.im > 0.0 {
      assert x == zz.im - zz.re;
    } else if zz.re > 0.0 {
      assert x == zz.im + zz.re;
    } else if zz.im > 0.0 {
      assert x == -zz.im - zz.re;
    } else {
      assert x == -zz.im + zz.re;
    }
  }

  lemma ProductZero(p: real, x: real)
    requires p > 0.0
    ensures p * x == 0.0 <==> x == 0.0
  {
    if x > 0.0 {
      assert p * x > 0.0;
    } else if x < 0.0 {
      assert p * (-x) > 0.0;
    }
  }

  lemma QuotientZero(a: real, b: real)
    requires b > 0.0
    ensures a / b == 0.0 <==> a == 0.0
  {
    assert a / b * b == a;
  }

  /** With gamma = 0 the loop never leaves its seed. */
  lemma {:induction false} ZeroGainHoldsPhase(y: seq<Complex>, k: nat, c: LoopConfig)
    requires c.Valid() && k < |y| && c.gamma == 0.0
    ensures Estimate(y, k, c) == c.phi0
  {
    if k > 0 {
      ZeroGainHoldsPhase(y, k - 1, c);
    }
  }

  /** Causality: the estimate at k depends only on the samples 0..k. */
  lemma {:induction false} EstimateIsCausal(y: seq<Complex>, y': seq<Complex>, k: nat, c: LoopConfig)
    requires c.Valid() && k < |y| && k < |y'| && y[..k + 1] == y'[..k + 1]
    ensures Estimate(y, k, c) == Estimate(y', k, c)
  {
    if k > 0 {
      assert y[..k] == y[..k + 1][..k] && y'[..k] == y'[..k + 1][..k];
      EstimateIsCausal(y, y', k - 1, c);
      assert y[k] == y[..k + 1][k] == y'[..k + 1][k] == y'[k];
      assert Estimate(y, k, c) == Step(Estimate(y, k - 1, c), y[k], c);
      assert Estimate(y', k, c) == Step(Estimate(y', k - 1, c), y[k], c);
    }
  }

  /** A locked loop stays locked: if every noiseless sample is a constellation
      point rotated by phi, the seed is phi and exp(j*phi)*exp(-j*phi) = 1,
      every estimate is phi and every symbol is decided correctly. */
  lemma {:induction false} LockedLoopStaysLocked(y: seq<Complex>, data: seq<Complex>, phi: real,
                                                 k: nat, c: LoopConfig)
    requires c.Valid() && |y| == |data| && k < |y| && c.phi0 == phi
    requires Mul(c.expj(phi), c.expj(-phi)) == One
    requires forall i :: 0 <= i < |data| ==> IsSymbol(data[i], c.amp)
    requires forall i :: 0 <= i < |y| ==> y[i] == Mul(data[i], c.expj(phi))
    ensures Estimate(y, k, c) == phi
    ensures SymbolEstimate(y, k, c) == data[k]
  {
    if k > 0 {
      LockedLoopStaysLocked(y, data, phi, k - 1, c);
    }
    assert ReferencePhase(y, k, c) == phi;
    var zz := Derotate(y[k], phi, c.expj);
    MulAssoc(data[k], c.expj(phi), c.expj(-phi));
    MulOne(data[k]);
    assert zz == data[k];
    NoCorrectionOnSymbol(zz, phi, c);
  }
}
