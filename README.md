# ClassicSVfit integrand — a Dafny model

ClassicSVfit reconstructs the mass of a pair of tau leptons from their visible decay
products and the missing transverse momentum. The Markov-chain integrator samples a
point `q` of the unit hypercube and calls `ClassicSVfitIntegrand::Eval(q)`, which:

- returns 0 at once when the measurement could not be set up;
- rescales `q` onto the integration ranges;
- solves both tau legs for the sampled energy fractions, azimuths and neutrino masses;
- multiplies three terms: the tau-decay phase-space density, the flight-length
  likelihood and the missing-momentum transfer function.

The phase-space and flight-length probabilities are cached, and are reused across the
systematic shifts of the missing momentum.

This project models that integrand and the helpers it relies on, and proves its gates,
flags, index maps, interpolations, caching rules and vector identities. The modules are:

| file | module | models |
|---|---|---|
| `numerics.dfy` | `Numerics` | the mathematical library (`sqrt`, `exp`, `pow`, `cos`, `sin`, `cosh`, `sinh`, pi) as a record of functions with the laws the proofs use; `Num`, a double that may be NaN or infinite; square and order lemmas |
| `kinematics.dfy` | `Kinematics` | 3-vectors and Lorentz vectors, momentum and (signed) mass |
| `matrices.dfy` | `Matrices` | square matrices as sequences of rows, matrix-vector products, quadratic forms |
| `measured.dfy` | `Measured` | measured tau leptons, missing momentum, the measured event, and the fitted tau lepton with its solver |
| `svfit_aux_functions.dfy` | `AuxFunctions` | `src/svFitAuxFunctions.cc`: `normalize`, the scalar and cross products, `compCosThetaNuNu`, both phase-space factors, `integrationParameters`, `fixMass`/`fixTauMass`/`fixNuMass` and the matrix `roundToNdigits` |
| `had_tau_decay_product.dfy` | `HadTauDecayProduct` | `src/MeasuredHadTauDecayProduct.cc`: the three constructors, `initialize` and the sort comparator |
| `helicity_frame.dfy` | `HelicityFrame` | `src/BoostToHelicityFrame.cc`: `get_k`, `get_h`, `get_r`, `get_n`, `getP4_hf`, the beam vector, `setFittedTauLeptons` and `operator()` |
| `integrand.dfy` | `Integrand` | `src/ClassicSVfitIntegrand.cc`: the class `ClassicSVfitIntegrand` with its configuration setters, `setMeasurement`, `Eval`, `rescaleX`, `EvalPS`, `EvalFlightLength` and `EvalMEtTF` |

Code outside the four source files is passed in as parameters:

- `MathLib` holds the mathematical functions.
- `Constants` holds the physical constants of the library header: the tau mass, epsilon,
  c·tau, the constant factor and the matrix-element normalisation.
- `Collaborators` holds the covariance inversion, the determinant, `comp_PCA` and
  `comp_dmin_and_dmax`.
- `FittedLegSolver` holds the visible and tau momenta a `FittedTauLepton` computes.
- `BoostFn` is the Lorentz boost to a rest frame.

Each has only the laws a proof needs, for example `sqrt(y) >= 0`,
`sqrt(y) * sqrt(y) == y` for `y >= 0`, and `exp(x) > 0`.

`ClassicSVfitIntegrand` is a Dafny class whose fields are the source's members.

- `Eval`, `EvalPS` and `setMeasurement` compute on a value of the object's state
  (`IntegrandState`), using module-level methods with loops. They then store the fields
  the source writes.
- Each such method is proved equal to a specification function: `EvalSpec`,
  `EvalPSSpec` or `SetMeasurementSpec`. The lemmas about these functions state what the
  source promises.
- The error code is a set of flags. `Encode` maps it onto the source's bit mask, and
  lemmas prove that the mask operations the source uses agree with set operations.

## Model

| member | source | states |
|---|---|---|
| AuxFunctions.ScalarProductSymmetric | src/svFitAuxFunctions.cc:166-170 | the scalar product does not depend on the order of its arguments |
| AuxFunctions.Mag2IsScalarProduct | src/svFitAuxFunctions.cc:160 | the squared magnitude `normalize` computes is the scalar product of the vector with itself |
| AuxFunctions.Mag2NonNegative | src/svFitAuxFunctions.cc:160-161 | the squared magnitude is never negative, and is zero exactly for the zero vector, so `normalize` returns its input unchanged only for the zero vector |
| AuxFunctions.NormalizeIsUnit | src/svFitAuxFunctions.cc:154-164 | `normalize` returns its input when the squared magnitude is at most 0; otherwise it scales the vector by 1/magnitude (a positive magnitude) and the result has unit length |
| AuxFunctions.CrossProductOrthogonal | src/svFitAuxFunctions.cc:172-179 | the cross product is orthogonal to both factors and changes sign when they are swapped |
| AuxFunctions.CrossProductMagnitude | src/svFitAuxFunctions.cc:172-179 | the squared length of a×b is \|a\|²\|b\|² − (a·b)² (Lagrange's identity) |
| AuxFunctions.CosFiniteMomenta | src/svFitAuxFunctions.cc:181-186 | the cosine of the neutrino angle is a finite number only when both momenta are non-zero; otherwise the division by visP·nunuP is not finite |
| AuxFunctions.LepDecayVanishesOutside | src/svFitAuxFunctions.cc:188-214 | the leptonic phase-space factor is 0 unless x lies in the physical window, the cosine is within [−1+ε, 1], and (for a massive neutrino pair) the rest-frame energies are at least their masses |
| AuxFunctions.LepKinematicsAllowedIff | src/svFitAuxFunctions.cc:193 | the window test is exactly visMass² ≤ x·mτ², x ≤ 1 and nunuMass² < (1−x)·mτ² |
| AuxFunctions.LepDecayMassiveVanishesOutside | src/svFitAuxFunctions.cc:194-202 | for a massive neutrino pair the factor is 0 unless the rest-frame energies are above their masses and the cosine is in range |
| AuxFunctions.LepDecayNonFiniteIff | src/svFitAuxFunctions.cc:188-214 | for x > 0 the leptonic factor is not finite exactly when the neutrino-pair mass is 0 (division by 2·nunuMass), x is in the window with x < 1, and the cosine is in range |
| AuxFunctions.LepDecayNonNegative | src/svFitAuxFunctions.cc:188-214 | for non-negative energies, momentum and mass, the leptonic factor is not finite or is ≥ 0 |
| AuxFunctions.LepDecayMassiveNonNegative | src/svFitAuxFunctions.cc:194-210 | the same for the massive branch |
| AuxFunctions.LepIntegralNonNegative | src/svFitAuxFunctions.cc:194-197 | the integral `I` is ≥ 0 inside the rest-frame window |
| AuxFunctions.LepIntegrandNonNegative | src/svFitAuxFunctions.cc:197 | 2·E_τ·E_vis − (2/3)·sqrt((E_τ²−mτ²)(E_vis²−m_vis²)) is ≥ 0 when both energies are at least their masses |
| AuxFunctions.MomentaProductBounds | src/svFitAuxFunctions.cc:197 | the product under the square root lies between 0 and (E_τ·E_vis)² |
| AuxFunctions.LepQuotientNonNegative | src/svFitAuxFunctions.cc:202-203 | the final quotient is not finite or is ≥ 0 |
| AuxFunctions.PSDenominatorSign | src/svFitAuxFunctions.cc:203 | the denominator 8·visP·x²·sqrt(…) is 0 exactly when x = 0, and positive for visP > 0 and x ≠ 0 |
| AuxFunctions.CosineLawNonNegative | src/svFitAuxFunctions.cc:203 | visP² + nuP² + 2·visP·nuP·cos is ≥ 0 for cos in [−1, 1], so the square root's argument is non-negative |
| AuxFunctions.HadDecayPhysicalRegion | src/svFitAuxFunctions.cc:216-240 | the hadronic factor is 0 unless visMass²/mτ² ≤ x ≤ 1 and the cosine (with invisible mass 0) is within [−1+ε, 1]; it is finite for x > 0 and visMass² < mτ² |
| AuxFunctions.HadDecayNonNegative | src/svFitAuxFunctions.cc:216-240 | for non-negative energies and momentum and visMass² < mτ², the hadronic factor is not finite or is ≥ 0 |
| AuxFunctions.IntegrationParameters.constructor | src/svFitAuxFunctions.cc:242-245 | a new parameter set has all five indices at −1 |
| AuxFunctions.IntegrationParameters.Reset | src/svFitAuxFunctions.cc:250-258 | `reset` sets all five indices to −1 |
| AuxFunctions.FixMassOnShell | src/svFitAuxFunctions.cc:264-273 | `fixMass` keeps the momentum, gives a non-negative energy, and the result's invariant mass is \|mass\| |
| AuxFunctions.FixTauAndNuMass | src/svFitAuxFunctions.cc:279-289 | `fixTauMass` puts the vector on the tau mass shell; `fixNuMass` makes it massless with energy \|p\|; both keep the momentum |
| AuxFunctions.RoundMatrixToNdigits | src/svFitAuxFunctions.cc:22-36 | the result is a new matrix of the same shape whose (i, j) entry is the scalar rounding of entry (i, j) |
| HadTauDecayProduct.InitializeKinematics | src/MeasuredHadTauDecayProduct.cc:105-115 | after `initialize`, px² + py² = pt², p² = px² + py² + pz², the energy is ≥ 0 with energy² = p² + mass², the 3- and 4-vectors share (px, py, pz), the 4-vector carries the energy, and its invariant mass is \|mass\| |
| HadTauDecayProduct.DefaultIsAtRest | src/MeasuredHadTauDecayProduct.cc:7-15 | the default product has charge 0, zero pt, eta, phi and mass, and zero momentum |
| HadTauDecayProduct.ConstructIsInitialized | src/MeasuredHadTauDecayProduct.cc:7-35 | all three constructors leave a record whose cached quantities are those `initialize` derives from its stored members |
| HadTauDecayProduct.CopyIsIdentity | src/MeasuredHadTauDecayProduct.cc:27-35 | the intended copy constructor reproduces its source exactly, including the reported mass and the energy |
| HadTauDecayProduct.CopyAsWrittenChangesEnergy | src/MeasuredHadTauDecayProduct.cc:27-35 | the copy constructor as written takes `mass_` from `mass()`, so a hadron at rest with mass 1 is copied with mass 0 and energy 0 |
| HadTauDecayProduct.SortIsStrictOrder | src/MeasuredHadTauDecayProduct.cc:119-122 | the comparator holds exactly when pt₁ > pt₂, and is irreflexive, asymmetric and transitive |
| HelicityFrame.Clamp | src/BoostToHelicityFrame.cc:43-44 | the clamped cosine lies in [−1, 1] and equals the input inside that interval |
| HelicityFrame.GetRTolerance | src/BoostToHelicityFrame.cc:33-48 | `get_r` aborts exactly when k·h is outside [−1.01, 1.01]; it is degenerate (sinθ = 0, a non-finite r) exactly when \|k·h\| lies between 1 and 1.01 |
| HelicityFrame.GetROrthonormal | src/BoostToHelicityFrame.cc:33-48 | for unit k and h, `get_r` never aborts, and when it yields an axis r, r is a unit vector orthogonal to k |
| HelicityFrame.GetN | src/BoostToHelicityFrame.cc:50-61 | n = r × k is orthogonal to both r and k |
| HelicityFrame.GetNRightHanded | src/BoostToHelicityFrame.cc:50-61 | for orthonormal r and k, n is a unit vector and {n, r, k} is right-handed: n × r = k and k × n = r |
| HelicityFrame.ProjectionsSquared | src/BoostToHelicityFrame.cc:74-84 | the squares of the projections onto an orthonormal basis r, r×k, k add up to \|p\|² |
| HelicityFrame.GetP4HfIsRotation | src/BoostToHelicityFrame.cc:74-84 | `getP4_hf` keeps the energy, the momentum magnitude and the invariant mass |
| HelicityFrame.GetP4HfAlongK | src/BoostToHelicityFrame.cc:74-84 | a momentum along k is mapped onto the third axis |
| HelicityFrame.FrameForOrthonormal | src/BoostToHelicityFrame.cc:63-72 | when the boosted tau⁻ and beam momenta are non-zero, the frame is never aborted, and a frame that is set has an orthonormal right-handed basis with k along the tau⁻ direction in the pair rest frame |
| HelicityFrame.ApplyFrameTauAtRest | src/BoostToHelicityFrame.cc:138-152 | applying the frame to the selected tau lepton itself gives it zero momentum |
| HelicityFrame.BeamP4OnShell | src/BoostToHelicityFrame.cc:87-97 | the beam vector has zero px and py, energy 7000, positive pz and mass 0.938272 |
| HelicityFrame.LastWithSignSpec | src/BoostToHelicityFrame.cc:110-120 | the loop's pick for a charge sign exists exactly when some leg has that sign, and is the last such leg |
| HelicityFrame.SelectOppositeCharges | src/BoostToHelicityFrame.cc:105-121 | both taus are found exactly when the two legs have opposite charges; the positive one becomes tau⁺ and the negative one tau⁻ |
| HelicityFrame.BoostToHelicityFrame.constructor | src/BoostToHelicityFrame.cc:87-97 | the object holds the beam vector and an identity frame |
| HelicityFrame.BoostToHelicityFrame.SetFittedTauLeptons | src/BoostToHelicityFrame.cc:102-136 | aborts, leaving the object unchanged, when a charge sign is missing or `get_r` aborts; otherwise stores the frame built from the selected taus, recording whether its axes are finite |
| HelicityFrame.BoostToHelicityFrame.Apply | src/BoostToHelicityFrame.cc:138-152 | `operator()` boosts to the pair rest frame, rotates into the helicity frame and boosts to the selected tau's rest frame; it has a value exactly when the axes are finite |
| Measured.SetMeasuredTauLepton | src/ClassicSVfitIntegrand.cc:198 | binding a measured lepton clears the fitted leg's error and keeps its momenta |
| Measured.UpdateVisMomentum | src/ClassicSVfitIntegrand.cc:387-388 | the visible momentum is the solver's, scaled by the shift; the rest of the leg is kept |
| Measured.UpdateTauMomentum | src/ClassicSVfitIntegrand.cc:409-415 | the leg records x and the neutrino mass; it reports an error exactly when the solver finds no physical solution, and then keeps its momenta |
| Matrices.MatAdd | src/ClassicSVfitIntegrand.cc:282-287 | the sum of two 3×3 covariances is taken entry by entry |
| Matrices.QuadraticForm2 | src/ClassicSVfitIntegrand.cc:677-678 | the 2-D pull written out by hand is the quadratic form rᵀ·C·r |
| Matrices.QuadraticFormAtZero | src/ClassicSVfitIntegrand.cc:741 | a zero residual has zero pull |
| Integrand.EncodeFlagsBits | src/ClassicSVfitIntegrand.cc:374 | each flag owns one bit, and `e & (e ^ 0x100)` clears exactly the TauDecayParameters bit |
| Integrand.EncodeTest | src/ClassicSVfitIntegrand.cc:317-320 | the test `errorCode_ & flag` is non-zero exactly when the flag is set |
| Integrand.EncodeRaise | src/ClassicSVfitIntegrand.cc:194 | `errorCode_ \|= flag` adds the flag to the set |
| Integrand.EncodeClear | src/ClassicSVfitIntegrand.cc:188 | clearing TauDecayParameters removes only that flag, and `None` encodes as 0 |
| Integrand.RescaleBounds | src/ClassicSVfitIntegrand.cc:348-356 | for q in [0, 1] and lo ≤ hi, (1−q)·lo + q·hi lies in [lo, hi]; q = 0 gives lo and q = 1 gives hi |
| Integrand.RescaleRoundTrip | src/ClassicSVfitIntegrand.cc:354 | for lo ≠ hi the rescaling has an inverse on both sides |
| Integrand.RescaledX | src/ClassicSVfitIntegrand.cc:348-356 | `rescaleX` yields exactly `numDimensions_` entries, each the rescaling of q_i onto [xMin_i, xMax_i] |
| Integrand.RescaledXInRanges | src/ClassicSVfitIntegrand.cc:348-356 | every rescaled coordinate lies in its integration range |
| Integrand.RescalePoint | src/ClassicSVfitIntegrand.cc:348-356 | the loop of `rescaleX` computes `RescaledX` |
| Integrand.MassConstraintFixesX2 | src/ClassicSVfitIntegrand.cc:419-429 | with no x index for leg 2, x₂′ is finite exactly when the squared mass constraint is non-zero, and then x₁′·x₂′·M² = m_vis² |
| Integrand.EvalPSSpec | src/ClassicSVfitIntegrand.cc:358-556 | `EvalPS` keeps both fitted legs bound to their measured leptons |
| Integrand.PSFirstLeg | src/ClassicSVfitIntegrand.cc:391-416 | the first-leg stage keeps both legs' measured leptons |
| Integrand.PSSecondLeg | src/ClassicSVfitIntegrand.cc:418-555 | the second-leg stage keeps the solved first leg and the second leg's measured lepton |
| Integrand.PSSecondLegRejected | src/ClassicSVfitIntegrand.cc:449-450 | x₂ outside [1e-5, 1] (or not finite) returns 0 with the error code and the legs unchanged |
| Integrand.EvalPSFirstLegRejected | src/ClassicSVfitIntegrand.cc:391-399 | `EvalPS` returns 0 when x₁ lies outside [1e-5, 1], which only a non-prompt leg 1 can do, with TauDecayParameters cleared and only the visible momenta set |
| Integrand.EvalPSSecondLegRejected | src/ClassicSVfitIntegrand.cc:391-450 | with leg 1 accepted and solved, `EvalPS` returns 0 when x₂′ is not finite or lies outside [1e-5, 1], which only a non-prompt leg 2 can do, with leg 1 solved and leg 2 holding only its visible momentum |
| Integrand.PSSecondLegUnsolved | src/ClassicSVfitIntegrand.cc:460-466 | a second leg with no physical solution returns 0 and raises TauDecayParameters |
| Integrand.PSSecondLegNonFinite | src/ClassicSVfitIntegrand.cc:550-553 | a non-finite product is returned as 0 (the source does so only for NaN, see "## Left out") |
| Integrand.PSSecondLegProduct | src/ClassicSVfitIntegrand.cc:489-555 | otherwise the result is the density product times the log(M) factor and the Jacobian |
| Integrand.PSSecondLegGates | src/ClassicSVfitIntegrand.cc:418-467 | the second-leg stage raises at most TauDecayParameters, only when leg 2 is not prompt and has no solution, and then returns 0 |
| Integrand.PSFirstLegGates | src/ClassicSVfitIntegrand.cc:391-467 | the same for both legs together |
| Integrand.EvalPSErrorAndGates | src/ClassicSVfitIntegrand.cc:373-466 | `EvalPS` leaves every setup flag as it was; TauDecayParameters is set afterwards only if a non-prompt leg has no solution, and is clear when both legs are solvable |
| Integrand.PhaseSpaceProbability | src/ClassicSVfitIntegrand.cc:358-556 | the body of `EvalPS` computes `EvalPSSpec`: the probability, the error code and both fitted legs |
| Integrand.TauDecayDensities | src/ClassicSVfitIntegrand.cc:492-521 | the loop over the legs multiplies the leptonic, hadronic or (for a prompt leg) unit factors, a NaN making the product NaN |
| Integrand.MulNum | src/ClassicSVfitIntegrand.cc:505 | a product is finite exactly when both factors are |
| Integrand.MulNumNonNegative | src/ClassicSVfitIntegrand.cc:505 | the product of two non-negative (or non-finite) factors is non-negative or non-finite |
| Integrand.DecayDensityNonNegative | src/ClassicSVfitIntegrand.cc:503-504 | a physical leg's decay factor is ≥ 0 or non-finite |
| Integrand.LegDensityNonNegative | src/ClassicSVfitIntegrand.cc:502-505 | the same for any leg, prompt legs contributing 1 |
| Integrand.DensityProductNonNegative | src/ClassicSVfitIntegrand.cc:492-521 | the product over both legs is ≥ 0 or non-finite |
| Integrand.LogMFactorBounds | src/ClassicSVfitIntegrand.cc:524-529 | the log(M) factor 1/max(1, m)^p is positive, at most 1 for p ≥ 0, and 1 when the term is disabled |
| Integrand.MassConstraintJacobianNonNegative | src/ClassicSVfitIntegrand.cc:531-535 | the Jacobian is ≥ 0 for x₂ ≥ 0 |
| Integrand.PSWeightNonNegative | src/ClassicSVfitIntegrand.cc:521-542 | the weighted product of non-negative factors is ≥ 0 |
| Integrand.PSProbabilityNonNegative | src/ClassicSVfitIntegrand.cc:489-555 | the phase-space probability of two physical legs is ≥ 0 |
| Integrand.EvalPSNonNegative | src/ClassicSVfitIntegrand.cc:358-556 | `EvalPS` never returns a negative probability for physical legs |
| Integrand.Gamma | src/ClassicSVfitIntegrand.cc:598-603 | the Lorentz factor is at least 1, and equals E/mτ when that is at least 1 |
| Integrand.ExpDecayDensityPositive | src/ClassicSVfitIntegrand.cc:604-605 | the exponential decay density is positive |
| Integrand.FlightLengthProductStep | src/ClassicSVfitIntegrand.cc:564-628 | one loop step multiplies in the leg's factor, and a prompt leg's factor is 1 |
| Integrand.FlightLengthFactorNonNegative | src/ClassicSVfitIntegrand.cc:566-618 | a leg's flight-length factor is ≥ 0 |
| Integrand.FlightLengthProductNonNegative | src/ClassicSVfitIntegrand.cc:563-628 | the running product of the loop is ≥ 0 |
| Integrand.EvalFlightLengthBounds | src/ClassicSVfitIntegrand.cc:558-634 | `EvalFlightLength` is ≥ 0, is 1 when the flight length is disabled, and is 1 when both legs are prompt |
| Integrand.FlightLengthProbability | src/ClassicSVfitIntegrand.cc:558-634 | the loop of `EvalFlightLength` computes `EvalFlightLengthSpec` |
| Integrand.LegFlightLengthProbability | src/ClassicSVfitIntegrand.cc:566-618 | the loop body for one non-prompt leg computes that leg's factor: decay density × Gaussian vertex term × (dmax − dmin) |
| Integrand.ConstFlightLengthNormalises | src/ClassicSVfitIntegrand.cc:297-298 | for a regular covariance the normalisation is positive and is the reciprocal of (2π)^1.5·sqrt(\|det\|) |
| Integrand.MEtResidual | src/ClassicSVfitIntegrand.cc:636-754 | the residual has 2 components for proton-proton collisions and 4 for electron-positron collisions |
| Integrand.MEtPullIsQuadraticForm | src/ClassicSVfitIntegrand.cc:676-741 | both pulls are the quadratic form of the inverse covariance on the residual |
| Integrand.MEtTFBounds | src/ClassicSVfitIntegrand.cc:676-742 | the transfer function is ≥ 0, at most `const_MET` for a non-negative pull, and equal to it for a zero residual |
| Integrand.MEtTransferFunction | src/ClassicSVfitIntegrand.cc:636-755 | the loops of `EvalMEtTF` compute `EvalMEtTFSpec` |
| Integrand.LegDecayVertexCov | src/ClassicSVfitIntegrand.cc:281-287 | each leg's vertex covariance is a 3×3 matrix |
| Integrand.SetupErrorCodeBits | src/ClassicSVfitIntegrand.cc:182-311 | each setup flag is raised exactly when its check fails (lepton count ≠ 2; an invalid MEt, vertex or leg covariance; a missing vertex; a missing leading hadron, the last three only with the flight length), and TauDecayParameters never is |
| Integrand.SetupChecks | src/ClassicSVfitIntegrand.cc:186-307 | the checks of `setMeasurement` compute `SetupErrorCode` |
| Integrand.FlightLengthChecks | src/ClassicSVfitIntegrand.cc:240-307 | the flight-length checks compute their part of the error code |
| Integrand.AllMEtCovInvValidLoop | src/ClassicSVfitIntegrand.cc:230-238 | the loop finds every MEt covariance inverse valid exactly when all are |
| Integrand.DecayVerticesPresentLoop | src/ClassicSVfitIntegrand.cc:256-261 | the loop finds all decay vertices present exactly when every non-prompt lepton has one |
| Integrand.AllDecayVertexCovInvValidLoop | src/ClassicSVfitIntegrand.cc:269-273 | the loop finds every decay-vertex covariance inverse valid exactly when all are |
| Integrand.SetMeasurementBindsLegs | src/ClassicSVfitIntegrand.cc:182-311 | `setMeasurement` binds the legs to the first two leptons with consistent flags and no error, stores m_vis with its square, resets both cached probabilities to 0, and keeps the configuration |
| Integrand.SetMeasurementFlightLength | src/ClassicSVfitIntegrand.cc:281-306 | with the flight length, a non-prompt leg that passed the checks has its leading hadron stored, and a regular covariance gets a positive normalisation |
| Integrand.MeasuredState | src/ClassicSVfitIntegrand.cc:182-311 | the body of `setMeasurement` computes `SetMeasurementSpec` |
| Integrand.EvalAfterSetupError | src/ClassicSVfitIntegrand.cc:317-323 | with any setup flag set, `Eval` returns 0 and changes nothing, for every q |
| Integrand.EvalRecomputeBranch | src/ClassicSVfitIntegrand.cc:325-346 | for the central value or shift 0, `Eval` recomputes both caches on the rescaled point, returns 0 if a leg is unsolvable, and combines otherwise |
| Integrand.EvalReuseBranch | src/ClassicSVfitIntegrand.cc:325-346 | for other shifts `Eval` reuses the cached probabilities |
| Integrand.EvalRecomputes | src/ClassicSVfitIntegrand.cc:325-332 | for the central value or shift 0, the state after `Eval` is the recomputed one, up to the notification list |
| Integrand.EvalReuses | src/ClassicSVfitIntegrand.cc:325-345 | for other shifts, `Eval` changes only `x_` and the notification list |
| Integrand.RecomputeCaches | src/ClassicSVfitIntegrand.cc:327-332 | recomputing stores `EvalPS`'s probability and keeps the point, the indices, the event, the shift selection and the setup flags |
| Integrand.RecomputeRejects | src/ClassicSVfitIntegrand.cc:329-330 | an unsolvable leg stops the recomputation after `EvalPS` |
| Integrand.RecomputeAccepts | src/ClassicSVfitIntegrand.cc:329-331 | otherwise the flight-length probability is recomputed on the new legs |
| Integrand.PSKeepsFlightLengthReady | src/ClassicSVfitIntegrand.cc:329-331 | what `EvalFlightLength` and the MEt selection read stays available after `EvalPS` |
| Integrand.RescaleKeepsReady | src/ClassicSVfitIntegrand.cc:325 | rescaling keeps what `EvalPS`, `EvalFlightLength` and the MEt selection need |
| Integrand.RecomputeKeepsSelectable | src/ClassicSVfitIntegrand.cc:327-338 | recomputing keeps the selected MEt entry available |
| Integrand.CombineKeeps | src/ClassicSVfitIntegrand.cc:333-345 | the combining step changes nothing but the notification list |
| Integrand.CombinedProductIgnoresNotified | src/ClassicSVfitIntegrand.cc:333-345 | the combined product does not read the notification list |
| Integrand.CombineResult | src/ClassicSVfitIntegrand.cc:333-345 | the result is 0 or probPS·probFlightLength·probMEtTF for the selected MEt entry (0 for central, else shift+1); the sink is notified with both fitted legs exactly when attached and the result exceeds 1e-300 |
| Integrand.EvalRecomputedResult | src/ClassicSVfitIntegrand.cc:327-345 | the same for `Eval` with recomputation |
| Integrand.EvalRejectedResult | src/ClassicSVfitIntegrand.cc:330 | an unsolvable leg makes `Eval` return 0 without notifying the sink |
| Integrand.EvalReusedResult | src/ClassicSVfitIntegrand.cc:333-345 | the same for `Eval` with reused caches |
| Integrand.EvalResultAndNotification | src/ClassicSVfitIntegrand.cc:313-346 | for every q, `Eval` returns 0 or the product of the three terms, and notifies the sink exactly when it is attached and the result exceeds 1e-300 |
| Integrand.RecomputeNonNegative | src/ClassicSVfitIntegrand.cc:327-332 | recomputing keeps both caches ≥ 0 |
| Integrand.CombineNonNegative | src/ClassicSVfitIntegrand.cc:333-345 | combining non-negative terms gives a result ≥ 0 |
| Integrand.RescaleKeepsSetting | src/ClassicSVfitIntegrand.cc:325 | rescaling keeps the non-negativity setting |
| Integrand.EvalRecomputedNonNegative | src/ClassicSVfitIntegrand.cc:327-345 | with recomputation, the result and both caches are ≥ 0 |
| Integrand.EvalReusedNonNegative | src/ClassicSVfitIntegrand.cc:333-345 | with reused caches, the result and both caches are ≥ 0 |
| Integrand.EvalNonNegative | src/ClassicSVfitIntegrand.cc:313-346 | `Eval` never returns a negative probability and never stores a negative cache |
| Integrand.Recomputed | src/ClassicSVfitIntegrand.cc:327-332 | the recomputation step computes `RecomputeSpec` |
| Integrand.Combined | src/ClassicSVfitIntegrand.cc:333-345 | the combining step computes `CombineSpec` |
| Integrand.Evaluate | src/ClassicSVfitIntegrand.cc:313-346 | `Eval`'s body on a state value computes `EvalSpec` |
| Integrand.Resized | src/ClassicSVfitIntegrand.cc:137-143 | resizing `x_` to n keeps its first entries and pads with 0 |
| Integrand.ClassicSVfitIntegrand.constructor | src/ClassicSVfitIntegrand.cc:17-58 | central value, shift 0, no flight length, mass constraint −1, log(M) on with power 6, no dimensions, no error, zero caches and normalisations, no leading hadrons, no sink, both legs' indices at −1 |
| Integrand.ClassicSVfitIntegrand.SetCentral | src/ClassicSVfitIntegrand.cc:70-75 | selects the central value: isCentral and index 0 |
| Integrand.ClassicSVfitIntegrand.SetMEtSystematic | src/ClassicSVfitIntegrand.cc:77-82 | selects shift i: not central, index i |
| Integrand.ClassicSVfitIntegrand.EnableTauFlightLength | src/ClassicSVfitIntegrand.cc:84-88 | turns the flight length on |
| Integrand.ClassicSVfitIntegrand.DisableTauFlightLength | src/ClassicSVfitIntegrand.cc:90-94 | turns the flight length off |
| Integrand.ClassicSVfitIntegrand.EnableDiTauMassConstraint | src/ClassicSVfitIntegrand.cc:96-101 | stores the constraint M and M² |
| Integrand.ClassicSVfitIntegrand.DisableDiTauMassConstraint | src/ClassicSVfitIntegrand.cc:103-108 | stores −1 for both |
| Integrand.ClassicSVfitIntegrand.EnableLogM | src/ClassicSVfitIntegrand.cc:110-115 | turns the log(M) term on with the given power |
| Integrand.ClassicSVfitIntegrand.DisableLogM | src/ClassicSVfitIntegrand.cc:117-122 | turns it off with power 0 |
| Integrand.ClassicSVfitIntegrand.SetHistogramAdapter | src/ClassicSVfitIntegrand.cc:124-128 | attaches or detaches the sink |
| Integrand.ClassicSVfitIntegrand.InitializeLegIntegrationParams | src/ClassicSVfitIntegrand.cc:130-135 | replaces one leg's index set and keeps the other |
| Integrand.ClassicSVfitIntegrand.SetNumDimensions | src/ClassicSVfitIntegrand.cc:137-143 | stores n and resizes `x_` to n |
| Integrand.ClassicSVfitIntegrand.SetIntegrationRanges | src/ClassicSVfitIntegrand.cc:151-156 | stores both range vectors |
| Integrand.ClassicSVfitIntegrand.RescaleX | src/ClassicSVfitIntegrand.cc:348-356 | `x_` becomes the rescaled point |
| Integrand.ClassicSVfitIntegrand.EvalPS | src/ClassicSVfitIntegrand.cc:358-556 | returns `EvalPSSpec`'s probability and stores its error code and fitted legs |
| Integrand.ClassicSVfitIntegrand.StorePS | src/ClassicSVfitIntegrand.cc:373-466 | stores the error code and both fitted legs `EvalPS` computed |
| Integrand.ClassicSVfitIntegrand.EvalFlightLength | src/ClassicSVfitIntegrand.cc:558-634 | returns `EvalFlightLengthSpec` of the current state and changes nothing |
| Integrand.ClassicSVfitIntegrand.EvalMEtTF | src/ClassicSVfitIntegrand.cc:636-755 | returns `EvalMEtTFSpec` for the current fitted legs and changes nothing |
| Integrand.ClassicSVfitIntegrand.SetMeasurement | src/ClassicSVfitIntegrand.cc:182-311 | stores `SetMeasurementSpec`'s measurement, error code, caches and fitted legs |
| Integrand.ClassicSVfitIntegrand.Eval | src/ClassicSVfitIntegrand.cc:313-346 | returns `EvalSpec`'s probability and stores the fields it changes |

## Left out

- `Eval`, `EvalPS` and `setMeasurement` are computed on a value of the object's state and the changed fields are stored at the end, rather than updated field by field. The fields only `setMeasurement` writes are grouped in one record field, `measurement`.
- The `USE_SVFITTF` build (`enableHadTauTF`, `disableHadTauTF`, the hadronic transfer function and the visible-pt shifts) is not modelled. Without it both shifts are 1, so the `visPtShift < 0.01` guard of `EvalPS` can never fire and is left out. The Jacobian's `1/(shift1·shift2)` factor is 1.
- The `XSECTION_NORMALIZATION` build is not modelled.
- Verbosity and all printing are left out, including `setVerbosity` and the verbose dump at the start of `EvalPS`.
- The global `gSVfitIntegrand` pointer and the destructors are left out.
- `extractResult` and `makeGraph` are left out: they fit and allocate ROOT graphs.
- The scalar `roundToNdigits` is a parameter of `AuxFunctions.RoundMatrixToNdigits`.
- Numerical values of `sqrt`, `exp`, `pow`, the trigonometric and hyperbolic functions, and the Lorentz boosts are parameters, with only the laws stated in `Numerics` and `HelicityFrame.BoostLaw`.
- The headers are not part of this model: `svFitAuxFunctions.h`, `ClassicSVfitIntegrand.h`, `FittedTauLepton`, `MeasuredTauLepton`, `MeasuredEvent` and `MeasuredMEt`. Their members are record fields and solver parameters.
- The physical constants and the error-code bit values come from the header. The constants are parameters. The bits are taken to be 0x1, 0x10, 0x100, 0x1000 and 0x10000, and the proofs use only that they are distinct single bits.
- The accessors of `MeasuredHadTauDecayProduct` are the fields of the record.
- Floating point: IEEE rounding is not modelled. NaN and infinity are `Num.NonFinite` where the source produces them: the cosine's division by visP·nunuP, the leptonic factor's division by 2·nunuMass, x₂′ for a zero squared mass constraint, the hadronic factor's division by its denominator and by mτ² − visMass², and the NaN coercion in `EvalPS`. NaN and ±inf are one value in the model.
- Integrand.PSSecondLegNonFinite (with `Integrand.PSProbability`, `Integrand.EvalPSSpec` and `Integrand.PhaseSpaceProbability`): the model returns 0 for every non-finite density product, but the source replaces only NaN by 0 (lines 550-553 of `src/ClassicSVfitIntegrand.cc`). A hadronic leg whose visMass² equals mτ² is accepted only at x = 1. If its cosine is in range, the division by mτ² − visMass² (line 224 of `src/svFitAuxFunctions.cc`) gives +inf. The source then returns +inf, or NaN when the other leg's factor is 0, and the model returns 0 in both cases.
- Integrand.ClassicSVfitIntegrand.SetMeasurement (with `Integrand.SetMeasurementSpec`, `Integrand.MeasuredState` and `Integrand.SetupErrorCodeBits`): the model requires at least two leptons. With 0 or 1 lepton the source raises LeptonNumber (lines 191-195) and then reads `tauLeptons[0]` and `tauLeptons[1]` past the end of the vector (lines 197 and 202), which is undefined behaviour. "LeptonNumber is raised exactly when the count is not 2" is therefore proved only for counts of two or more.
- `Integrand.ConstFlightLength` stores 0 where a zero determinant gives +inf in the source. `ConstFlightLengthNormalises` covers only regular covariances.
- C++ `assert` aborts become preconditions: the x and phi indices, the MEt index, and the leg index in `EvalFlightLength`. In `get_r` and `setFittedTauLeptons` the abort is an outcome instead (`Aborted`, `aborted`).
- `Integrand.FlightLengthFactorNonNegative` and the lemmas built on it assume `dmin < dmax` of the collaborator (`DecayLengthRangeLaw`), which the source asserts at line 617; the loop itself does not depend on it.
- `HelicityFrame.BoostToHelicityFrame.Apply` returns no value when `get_r` was degenerate (sinθ = 0): the source divides by zero and its axes are not finite.
- Three places in `src/BoostToHelicityFrame.cc` do not compile as written, and the model follows their evident intent:
  - line 95 uses `beamEnergy` where `beamE` is declared;
  - line 118 stores the address of the loop variable, where tau⁻ is meant to be the negative-charge leg;
  - lines 147-148 test an undeclared `tau`, which becomes the `TauTarget` parameter of `Apply`.
- The histogram adapter is modelled as a list of the fitted-lepton pairs it was notified with.
- `diTauMassConstraint2_` is not initialised by the constructor in the source. The model gives it −1, the value `disableDiTauMassConstraint` stores.
- `fittedTauLeptons_`, the array of pointers to the two fitted legs, is modelled as the sequence `[fittedTauLepton1, fittedTauLepton2]`.

## Findings

| source | as written | input that shows it | evidently intended | confidence | as-written member | corrected member |
|---|---|---|---|---|---|---|
| src/MeasuredHadTauDecayProduct.cc:27-35 | the copy constructor sets `mass_` from `mass()`, which returns `preciseVisMass_` (line 62), so the copy's energy is rebuilt from a different mass | a product at rest with `mass_` = 1 and `preciseVisMass_` = 0: the original has energy 1, the copy has mass 0 and energy 0 | the copy has the source's `mass_` and the same energy | not executed | HadTauDecayProduct.CopyAsWrittenChangesEnergy | HadTauDecayProduct.CopyIsIdentity |
