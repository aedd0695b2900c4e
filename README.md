# QPSK receiver carrier synchronisation in Dafny

This project models the receiver side of the QPSK carrier-phase synchronisation
lab (`synch_fonctions.py`). It covers four pieces:

- `triangle`: the triangular pulse of base 2T.
- `RX`: the noiseless part of the channel output. It is the sum of the symbols
  shaped by the pulse, rotated by the carrier phase `phi + 2*pi*fD*t`.
- `decision`: the maximum-likelihood QPSK hard decision.
- `PhaseEstimation`: the first-order decision-directed phase-locked loop.

Complex samples are pairs of reals (module `ComplexNumbers`). The carrier
rotation `theta -> exp(j*theta)` is a function parameter `expj` with no
assumptions attached. A lemma that needs `exp(j*phi)*exp(-j*phi) = 1` states
that as a precondition. The decision scale `sqrt(Es)/sqrt(2)` is a parameter
`amp`. `IsScale(Es, amp)` ties it to the symbol energy as the non-negative
root of `2*amp^2 = Es`. `np.pi` is taken as printed, 3.141592653589793
(16 significant digits).

`RX` and `PhaseEstimation` are loops in the source, so they are methods here.
`RX` accumulates the pulse sum and is proved equal to `PulseSum`.
`PhaseEstimation` allocates the two output arrays and fills them in place, one
index per iteration. It returns their contents and is proved against the
specification functions `Estimate` and `SymbolEstimate`, and against the
recurrence `IsLoopTrace`. `triangle` and `decision` are single expressions, so
they are functions.

The header of `decision` (synch_fonctions.py:81-82) calls it the
maximum-likelihood decision for the QPSK constellation, which would always be
one of the four points. In the code, `np.sign(0) = 0`, so a sample with a zero
component is decided onto an axis, off the constellation. `Decision` keeps the
code's behaviour, and `DecisionOnConstellationIff` states exactly when it
happens. `DecisionIsNearest` shows the decision is still a nearest point.

## Model

| member | source | states |
|---|---|---|
| `Synch.Triangle` | SIC4103-CompressionCodageModulationSystemesCommunication/TP2-SynchronisationDesRecepteursNumeriques/synch_fonctions.py:38-44 | every sample of the pulse lies in [0, 1], for any t and T |
| `Synch.TriangleSupport` | SIC4103-CompressionCodageModulationSystemesCommunication/TP2-SynchronisationDesRecepteursNumeriques/synch_fonctions.py:39-42 | the pulse is positive exactly on the open interval \|t\| < T and zero everywhere else |
| `Synch.TriangleSymmetric` | SIC4103-CompressionCodageModulationSystemesCommunication/TP2-SynchronisationDesRecepteursNumeriques/synch_fonctions.py:39-40 | triangle(-t, T) = triangle(t, T) |
| `Synch.TrianglePeak` | SIC4103-CompressionCodageModulationSystemesCommunication/TP2-SynchronisationDesRecepteursNumeriques/synch_fonctions.py:39-40 | for T > 0 the pulse peaks at triangle(0, T) = 1 |
| `Synch.TriangleAtMultiple` | SIC4103-CompressionCodageModulationSystemesCommunication/TP2-SynchronisationDesRecepteursNumeriques/synch_fonctions.py:38-44 | sampled at n*T (T > 0) the pulse is 1 for n = 0 and 0 for every other integer n, so the pulse causes no intersymbol interference |
| `Synch.TrianglePartitionOfUnity` | SIC4103-CompressionCodageModulationSystemesCommunication/TP2-SynchronisationDesRecepteursNumeriques/synch_fonctions.py:38-44 | between two peaks (0 <= t <= T) two neighbouring pulses add up to 1, so the channel output interpolates linearly between symbols |
| `Synch.RX` | SIC4103-CompressionCodageModulationSystemesCommunication/TP2-SynchronisationDesRecepteursNumeriques/synch_fonctions.py:63-70 | the accumulating loop returns the sum of data[k]*triangle(t-kT-epsilon*T, T) over all symbols, taken in loop order and rotated by exp(j(phi+2*pi*fD*t)) |
| `Synch.SampledPulseSum` | SIC4103-CompressionCodageModulationSystemesCommunication/TP2-SynchronisationDesRecepteursNumeriques/synch_fonctions.py:67-69 | at the optimal instant t = mT + epsilon*T (T > 0, m any integer), the sum over the first n symbols is data[m] when 0 <= m < n and 0 otherwise |
| `Synch.SampledChannelOutput` | SIC4103-CompressionCodageModulationSystemesCommunication/TP2-SynchronisationDesRecepteursNumeriques/synch_fonctions.py:67-70 | at the optimal instant of symbol m, the noiseless output of RX is data[m] rotated by the carrier phase |
| `Synch.DecisionLevels` | SIC4103-CompressionCodageModulationSystemesCommunication/TP2-SynchronisationDesRecepteursNumeriques/synch_fonctions.py:92-95 | for amp > 0, each component of the decision is -amp, 0 or +amp and has the same sign as the matching component of r; for Es = 0 (amp = 0) the decision is 0 |
| `Synch.DecisionOnConstellationIff` | SIC4103-CompressionCodageModulationSystemesCommunication/TP2-SynchronisationDesRecepteursNumeriques/synch_fonctions.py:93 | the decision is a QPSK point exactly when neither component of r is zero; because np.sign(0) = 0, a sample on an axis is decided off the constellation |
| `Synch.DecisionFixesSymbols` | SIC4103-CompressionCodageModulationSystemesCommunication/TP2-SynchronisationDesRecepteursNumeriques/synch_fonctions.py:92-95 | every constellation point (+-amp, +-amp) is decided as itself |
| `Synch.DecisionIdempotent` | SIC4103-CompressionCodageModulationSystemesCommunication/TP2-SynchronisationDesRecepteursNumeriques/synch_fonctions.py:92-95 | decision(decision(r)) = decision(r) for every r and every Es >= 0 |
| `Synch.DecisionIsNearest` | SIC4103-CompressionCodageModulationSystemesCommunication/TP2-SynchronisationDesRecepteursNumeriques/synch_fonctions.py:81-95 | maximum likelihood: no constellation point is closer to r than decision(r) |
| `Synch.SymbolEnergy` | SIC4103-CompressionCodageModulationSystemesCommunication/TP2-SynchronisationDesRecepteursNumeriques/synch_fonctions.py:92-95 | when amp = sqrt(Es)/sqrt(2), every constellation point the decision can return has energy Es |
| `Synch.PhaseEstimation` | SIC4103-CompressionCodageModulationSystemesCommunication/TP2-SynchronisationDesRecepteursNumeriques/synch_fonctions.py:113-138 | both outputs have the length of y. phi_chap[0] = phi_chap_0, and a_chap[0] is the decision on y[0] de-rotated by the seed, with no update at k = 0. For k >= 1, a_chap[k] is the decision on y[k] de-rotated by phi_chap[k-1], and phi_chap[k] = phi_chap[k-1] + gamma*Im(conj(a_chap[k])*zz)/Es. Every entry equals Estimate / SymbolEstimate |
| `Synch.EstimatesAreTrace` | SIC4103-CompressionCodageModulationSystemesCommunication/TP2-SynchronisationDesRecepteursNumeriques/synch_fonctions.py:118-137 | outputs that agree with the recursive specification Estimate / SymbolEstimate satisfy the loop's recurrence |
| `Synch.TraceIsUnique` | SIC4103-CompressionCodageModulationSystemesCommunication/TP2-SynchronisationDesRecepteursNumeriques/synch_fonctions.py:118-137 | conversely, any pair of sequences satisfying the recurrence is the specification's, so the recurrence determines the outputs |
| `Synch.EstimateIsCausal` | SIC4103-CompressionCodageModulationSystemesCommunication/TP2-SynchronisationDesRecepteursNumeriques/synch_fonctions.py:128-137 | the estimate at k depends only on samples 0..k, through the previous estimate |
| `Synch.NoCorrectionOnSymbol` | SIC4103-CompressionCodageModulationSystemesCommunication/TP2-SynchronisationDesRecepteursNumeriques/synch_fonctions.py:130-137 | if the de-rotated sample zz is a constellation point, it is decided as itself, uk = 0 and the estimate does not move |
| `Synch.PhaseErrorZeroIffDiagonal` | SIC4103-CompressionCodageModulationSystemesCommunication/TP2-SynchronisationDesRecepteursNumeriques/synch_fonctions.py:135 | off the axes, the detector output uk is zero exactly when the de-rotated sample lies on a diagonal, \|Re zz\| = \|Im zz\| |
| `Synch.ZeroGainHoldsPhase` | SIC4103-CompressionCodageModulationSystemesCommunication/TP2-SynchronisationDesRecepteursNumeriques/synch_fonctions.py:137 | with gamma = 0 every phase estimate equals phi_chap_0 |
| `Synch.LockedLoopStaysLocked` | SIC4103-CompressionCodageModulationSystemesCommunication/TP2-SynchronisationDesRecepteursNumeriques/synch_fonctions.py:113-138 | if every noiseless sample is a constellation point rotated by phi, the seed is phi, and exp(j*phi)*exp(-j*phi) = 1, then every estimate is phi and every symbol is decided correctly |

## Left out

- `gendata` (synch_fonctions.py:17-24) draws from `np.random`, so it is not modelled. `IsSymbol` describes the points it produces.
- Synch.RX: the additive noise term (synch_fonctions.py:74-75) draws from `np.random`. The method returns the noiseless output, and the `N0` parameter is dropped.
- The values of `np.exp` and `np.sqrt` are not modelled. The rotation is the parameter `expj`, and `sqrt(Es)/sqrt(2)` is the parameter `amp`.
- Synch.PhaseEstimation: requires Es > 0. With Es = 0 and len(y) >= 2 the source divides 0 by 0 and numpy yields NaN, and NaN is not modelled. For len(y) <= 1 the source returns ([phi_chap_0], [0]) or two empty arrays without dividing, and the precondition excludes that case too.
- Floating-point rounding is not modelled. All arithmetic is exact over the reals, and NaN and infinities are absent.
- The experiment scripts (`Question*.py`) are not part of this model. They set parameters, plot, and print symbol-error counts.
- The OFDM chain, the cyclic-prefix timing and frequency synchroniser, and the Kalman channel estimator are not part of this model.
- Statistical behaviour is not modelled: convergence of the loop under noise, bias, symbol-error rate, and tracking loss under a frequency offset. These depend on noise and trigonometry, not on the code's structure.
