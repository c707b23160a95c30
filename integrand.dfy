/** src/ClassicSVfitIntegrand.cc: the integrand the Markov-chain integration of ClassicSVfit
    evaluates.  It is the product of the tau-decay phase-space density, the tau
    flight-length likelihood and the missing-momentum transfer function, evaluated at a
    point of the unit hypercube that is first mapped onto the integration ranges.

    The integrand object keeps state between calls: setMeasurement fills it from one event,
    Eval updates the fitted legs, the error code and two cached probabilities.  The model
    is a class with one field per member; `State()` snapshots the fields into an
    `IntegrandState` value, and every method is proved against a function on such values
    (RescaledX, EvalPSSpec, EvalFlightLengthSpec, EvalMEtTFSpec, SetMeasurementSpec,
    EvalSpec), about which the lemmas below state what the integrand promises. */
module Integrand {
  import opened Numerics
  import opened Kinematics
  import opened Matrices
  import opened AuxFunctions
  import opened HadTauDecayProduct
  import opened Measured

  // ---------------------------------------------------------------------------------
  // Error codes and sizes

  /** ErrorCodes.  errorCode_ is a bit field with one bit per kind of failure; the model
      keeps the set of raised flags, and `Encode` gives the bit field. */
  datatype ErrorFlag = MatrixInversion | LeptonNumber | TauDecayParameters | MissingVertex | MissingLeadChargedHadron

  type ErrorCode = set<ErrorFlag>

  const NoError: ErrorCode := {}

  /** The errors setMeasurement can raise; any of them makes Eval return 0 at once. */
  const SetupErrors: ErrorCode := {MatrixInversion, LeptonNumber, MissingVertex, MissingLeadChargedHadron}

  predicate HasSetupError(e: ErrorCode) {
    MatrixInversion in e || LeptonNumber in e || MissingVertex in e || MissingLeadChargedHadron in e
  }

  /** The value of each flag in the enumeration ErrorCodes. */
  function Bit(f: ErrorFlag): bv32 {
    match f
    case MatrixInversion => 0x1
    case LeptonNumber => 0x10
    case TauDecayParameters => 0x100
    case MissingVertex => 0x1000
    case MissingLeadChargedHadron => 0x10000
  }

  /** The bit field with the given flags raised. */
  function EncodeFlags(mi: bool, ln: bool, tdp: bool, mv: bool, mlch: bool): bv32 {
    (if mi then 0x1 else 0) | (if ln then 0x10 else 0) | (if tdp then 0x100 else 0) |
    (if mv then 0x1000 else 0) | (if mlch then 0x10000 else 0)
  }

  /** The bit field of a set of flags. */
  function Encode(e: ErrorCode): bv32 {
    EncodeFlags(MatrixInversion in e, LeptonNumber in e, TauDecayParameters in e,
                MissingVertex in e, MissingLeadChargedHadron in e)
  }

  /** Each flag owns its bit; clearing the TauDecayParameters bit with the source's
      `e & (e ^ 0x100)` leaves the other flags. */
  lemma EncodeFlagsBits(mi: bool, ln: bool, tdp: bool, mv: bool, mlch: bool)
    ensures var e := EncodeFlags(mi, ln, tdp, mv, mlch);
      (e & 0x1 != 0 <==> mi) && (e & 0x10 != 0 <==> ln) && (e & 0x100 != 0 <==> tdp) &&
      (e & 0x1000 != 0 <==> mv) && (e & 0x10000 != 0 <==> mlch)
    ensures var e := EncodeFlags(mi, ln, tdp, mv, mlch);
      EncodeFlags(mi, ln, false, mv, mlch) == e & (e ^ 0x100)
  {
  }

  /** The test `errorCode_ & flag` is membership. */
  lemma EncodeTest(e: ErrorCode, f: ErrorFlag)
    ensures Encode(e) & Bit(f) != 0 <==> f in e
  {
    EncodeFlagsBits(MatrixInversion in e, LeptonNumber in e, TauDecayParameters in e,
                    MissingVertex in e, MissingLeadChargedHadron in e);
  }

  /** `errorCode_ |= flag` adds the flag. */
  lemma EncodeRaise(e: ErrorCode, f: ErrorFlag)
    ensures Encode(e + {f}) == Encode(e) | Bit(f)
  {
  }

  /** EvalPS's `errorCode_ &= (errorCode_ ^ TauDecayParameters)` removes exactly the
      TauDecayParameters flag, and None is the empty set. */
  lemma EncodeClear(e: ErrorCode)
    ensures Encode(e - {TauDecayParameters}) == Encode(e) & (Encode(e) ^ Bit(TauDecayParameters))
    ensures Encode(NoError) == 0
  {
    EncodeFlagsBits(MatrixInversion in e, LeptonNumber in e, TauDecayParameters in e,
                    MissingVertex in e, MissingLeadChargedHadron in e);
  }

  const NumTaus: nat := 2
  const MaxNumberOfDimensions: nat := 4 * NumTaus

  /** EvalPS's reset of the TauDecayParameters flag. */
  function ClearTauDecayParameters(e: ErrorCode): ErrorCode {
    e - {TauDecayParameters}
  }

  // ---------------------------------------------------------------------------------
  // What the integrand calls but this model does not define

  /** invertMatrix (the inverse and its error flag), TMatrixD::Determinant, comp_PCA and
      comp_dmin_and_dmax live in other source files; they are parameters. */
  datatype Collaborators = Collaborators(
    invertMatrix: Matrix -> (Matrix, bool),
    determinant: Matrix -> real,
    compPCA: (LorentzVector, MeasuredTauLepton, MeasuredHadTauDecayProduct, Vector3, Vector3, Matrix) -> Vector3,
    compDminDmax: (LorentzVector, Vector3, Matrix) -> (real, real))

  /** EvalFlightLength asserts that the range comp_dmin_and_dmax returns is not empty. */
  ghost predicate DecayLengthRangeLaw(col: Collaborators) {
    forall t: LorentzVector, f: Vector3, cov: Matrix {:trigger col.compDminDmax(t, f, cov)} ::
      col.compDminDmax(t, f, cov).0 < col.compDminDmax(t, f, cov).1
  }

  /** Everything a call needs from outside: mathematical functions, physical constants,
      the kinematics of the fitted legs and the collaborators above. */
  datatype Env = Env(m: MathLib, c: Constants, solver: FittedLegSolver, col: Collaborators)

  ghost predicate EnvLaws(env: Env) {
    MathLaws(env.m) && ConstantsLaws(env.c)
  }

  /** The fitted legs' kinematics give non-negative energies. */
  ghost predicate SolverLaws(solver: FittedLegSolver) {
    (forall l: MeasuredTauLepton, scale: real {:trigger solver.visMomentum(l, scale)} ::
      0.0 <= solver.visMomentum(l, scale).e) &&
    (forall f: FittedTauLepton, x: real, phi: real, nuMass: real {:trigger solver.tauMomentum(f, x, phi, nuMass)} ::
      solver.tauMomentum(f, x, phi, nuMass).Solved? ==> 0.0 <= solver.tauMomentum(f, x, phi, nuMass).nuP4.e)
  }

  // ---------------------------------------------------------------------------------
  // The integrand's state

  datatype IntegrandState = IntegrandState(
    fittedTauLepton1: FittedTauLepton,
    fittedTauLepton2: FittedTauLepton,
    leg1leadChargedHadron: Option<MeasuredHadTauDecayProduct>,
    leg2leadChargedHadron: Option<MeasuredHadTauDecayProduct>,
    isCentral: bool,
    idxMEtSystematic: nat,
    useTauFlightLength: bool,
    constFlightLength1: real,
    constFlightLength2: real,
    diTauMassConstraint: real,
    diTauMassConstraint2: real,
    addLogM: bool,
    addLogMPower: real,
    numDimensions: nat,
    errorCode: ErrorCode,
    probPS: real,
    probFlightLength: real,
    histogramAdapterAttached: bool,
    legIntegrationParams: seq<LegIndices>,
    measuredEvent: MeasuredEvent,
    measuredTauLepton1: MeasuredTauLepton,
    measuredTauLepton2: MeasuredTauLepton,
    leg1isLeptonicTauDecay: bool,
    leg1isHadronicTauDecay: bool,
    leg1isPrompt: bool,
    leg2isLeptonicTauDecay: bool,
    leg2isHadronicTauDecay: bool,
    leg2isPrompt: bool,
    mVisMeasured: real,
    mVis2Measured: real,
    primaryVertex: Vector3,
    leg1decayVertexCov: Matrix,
    leg1decayVertexCovInv: Matrix,
    leg2decayVertexCov: Matrix,
    leg2decayVertexCovInv: Matrix,
    x: seq<real>,
    xMin: seq<real>,
    xMax: seq<real>,
    // the pairs of fitted legs handed to the histogram adapter, oldest first
    notified: seq<(FittedTauLepton, FittedTauLepton)>)

  /** The members setMeasurement derives from the event and nothing else writes: the event,
      the two measured leptons and their decay flags, the visible mass, and with the flight
      length the vertices, their covariances, the flight-length constants and the lead
      charged hadrons. The class keeps them as one record. */
  datatype Measurement = Measurement(
    measuredEvent: MeasuredEvent,
    measuredTauLepton1: MeasuredTauLepton,
    measuredTauLepton2: MeasuredTauLepton,
    leg1isLeptonicTauDecay: bool,
    leg1isHadronicTauDecay: bool,
    leg1isPrompt: bool,
    leg2isLeptonicTauDecay: bool,
    leg2isHadronicTauDecay: bool,
    leg2isPrompt: bool,
    mVisMeasured: real,
    mVis2Measured: real,
    primaryVertex: Vector3,
    leg1decayVertexCov: Matrix,
    leg1decayVertexCovInv: Matrix,
    leg2decayVertexCov: Matrix,
    leg2decayVertexCovInv: Matrix,
    constFlightLength1: real,
    constFlightLength2: real,
    leg1leadChargedHadron: Option<MeasuredHadTauDecayProduct>,
    leg2leadChargedHadron: Option<MeasuredHadTauDecayProduct>)

  /** The measurement members of a state. */
  function MeasurementOf(s: IntegrandState): Measurement {
    Measurement(
      s.measuredEvent,
      s.measuredTauLepton1,
      s.measuredTauLepton2,
      s.leg1isLeptonicTauDecay,
      s.leg1isHadronicTauDecay,
      s.leg1isPrompt,
      s.leg2isLeptonicTauDecay,
      s.leg2isHadronicTauDecay,
      s.leg2isPrompt,
      s.mVisMeasured,
      s.mVis2Measured,
      s.primaryVertex,
      s.leg1decayVertexCov,
      s.leg1decayVertexCovInv,
      s.leg2decayVertexCov,
      s.leg2decayVertexCovInv,
      s.constFlightLength1,
      s.constFlightLength2,
      s.leg1leadChargedHadron,
      s.leg2leadChargedHadron)
  }

  /** Two legs, at most 4 dimensions per leg, and x_ sized to the number of dimensions. */
  predicate StateValid(s: IntegrandState) {
    |s.legIntegrationParams| == NumTaus &&
    s.numDimensions <= MaxNumberOfDimensions &&
    |s.x| == s.numDimensions
  }

  /** The leg flags are those of the measured leptons, and the fitted legs are bound to
      them: what setMeasurement establishes. */
  predicate LegsConsistent(s: IntegrandState) {
    s.fittedTauLepton1.measured == s.measuredTauLepton1 &&
    s.fittedTauLepton2.measured == s.measuredTauLepton2 &&
    s.leg1isLeptonicTauDecay == IsLeptonicTauDecay(s.measuredTauLepton1) &&
    s.leg1isHadronicTauDecay == IsHadronicTauDecay(s.measuredTauLepton1) &&
    s.leg1isPrompt == IsPrompt(s.measuredTauLepton1) &&
    s.leg2isLeptonicTauDecay == IsLeptonicTauDecay(s.measuredTauLepton2) &&
    s.leg2isHadronicTauDecay == IsHadronicTauDecay(s.measuredTauLepton2) &&
    s.leg2isPrompt == IsPrompt(s.measuredTauLepton2)
  }

  /** A measured lepton whose mass the decay densities accept: non-negative, and below the
      tau mass for a hadronic decay. */
  predicate LegPhysical(c: Constants, l: MeasuredTauLepton) {
    0.0 <= l.mass && (IsHadronicTauDecay(l) ==> Sq(l.mass) < TauLeptonMass2(c))
  }

  predicate IndexIn(i: int, n: nat) {
    0 <= i < n
  }

  predicate OptionalIndexIn(i: int, n: nat) {
    i == AbsentIndex || IndexIn(i, n)
  }

  // ---------------------------------------------------------------------------------
  // rescaleX

  /** One coordinate of the unit hypercube mapped onto [lo, hi], (1 - q) lo + q hi; the
      flight length of a leg is interpolated between dmin and dmax the same way. */
  function Rescale(q: real, lo: real, hi: real): real {
    (1.0 - q) * lo + q * hi
  }

  /** The inverse map, from [lo, hi] back to the unit interval. */
  function Unscale(x: real, lo: real, hi: real): real
    requires lo != hi
  {
    (x - lo) / (hi - lo)
  }

  lemma RescaleBounds(q: real, lo: real, hi: real)
    requires 0.0 <= q <= 1.0 && lo <= hi
    ensures lo <= Rescale(q, lo, hi) <= hi
    ensures q == 0.0 ==> Rescale(q, lo, hi) == lo
    ensures q == 1.0 ==> Rescale(q, lo, hi) == hi
  {
    assert Rescale(q, lo, hi) == lo + q * (hi - lo);
    ProductBounds(q, hi - lo, 1.0, hi - lo);
  }

  lemma RescaleRoundTrip(q: real, lo: real, hi: real)
    requires lo != hi
    ensures Unscale(Rescale(q, lo, hi), lo, hi) == q
    ensures Rescale(Unscale(q, lo, hi), lo, hi) == q
  {
    assert Rescale(q, lo, hi) - lo == q * (hi - lo);
    var u := Unscale(q, lo, hi);
    assert u * (hi - lo) == q - lo;
    assert Rescale(u, lo, hi) == lo + u * (hi - lo);
  }

  /** rescaleX(q): the first numDimensions coordinates of q, each mapped onto its range. */
  function RescaledX(s: IntegrandState, q: seq<real>): (x: seq<real>)
    requires |q| >= s.numDimensions && |s.xMin| >= s.numDimensions && |s.xMax| >= s.numDimensions
    ensures |x| == s.numDimensions
    ensures forall i :: 0 <= i < |x| ==> x[i] == Rescale(q[i], s.xMin[i], s.xMax[i])
  {
    seq(s.numDimensions, i requires 0 <= i < s.numDimensions => Rescale(q[i], s.xMin[i], s.xMax[i]))
  }

  /** Every coordinate of a point of the unit hypercube lands inside its integration range. */
  lemma RescaledXInRanges(s: IntegrandState, q: seq<real>)
    requires |q| >= s.numDimensions && |s.xMin| >= s.numDimensions && |s.xMax| >= s.numDimensions
    requires forall i :: 0 <= i < s.numDimensions ==> 0.0 <= q[i] <= 1.0 && s.xMin[i] <= s.xMax[i]
    ensures forall i :: 0 <= i < s.numDimensions ==> s.xMin[i] <= RescaledX(s, q)[i] <= s.xMax[i]
  {
    forall i | 0 <= i < s.numDimensions
      ensures s.xMin[i] <= RescaledX(s, q)[i] <= s.xMax[i]
    {
      RescaleBounds(q[i], s.xMin[i], s.xMax[i]);
    }
  }

  // ---------------------------------------------------------------------------------
  // EvalPS

  /** What EvalPS returns and the part of the state it changes. */
  datatype PSOutcome = PSOutcome(prob: real, errorCode: ErrorCode, fitted1: FittedTauLepton, fitted2: FittedTauLepton)

  /** The indices EvalPS reads exist: x, phi and (optionally) the invisible mass of a
      non-prompt first leg, phi and optionally x and the invisible mass of a non-prompt
      second leg. */
  predicate PSReady(s: IntegrandState) {
    StateValid(s) &&
    (!s.leg1isPrompt ==>
      IndexIn(s.legIntegrationParams[0].idxX, |s.x|) &&
      IndexIn(s.legIntegrationParams[0].idxPhi, |s.x|) &&
      OptionalIndexIn(s.legIntegrationParams[0].idxMNuNu, |s.x|)) &&
    (!s.leg2isPrompt ==>
      OptionalIndexIn(s.legIntegrationParams[1].idxX, |s.x|) &&
      IndexIn(s.legIntegrationParams[1].idxPhi, |s.x|) &&
      OptionalIndexIn(s.legIntegrationParams[1].idxMNuNu, |s.x|))
  }

  /** The invisible mass: the square root of its squared-mass coordinate, 0 when the leg
      has none. */
  function NuMass(m: MathLib, x: seq<real>, idx: int): real
    requires OptionalIndexIn(idx, |x|)
  {
    if idx == AbsentIndex then 0.0 else m.sqrt(x[idx])
  }

  /** The visible energy fraction of the second leg: 1 for a prompt leg, its coordinate
      when it has one, otherwise fixed by the di-tau mass constraint.  Division by a zero
      squared constraint gives +-inf or NaN in the source, both rejected by the range test
      that follows. */
  function X2Dash(s: IntegrandState, x1dash: real): Num
    requires PSReady(s) && x1dash != 0.0
  {
    if s.leg2isPrompt then Finite(1.0)
    else if s.legIntegrationParams[1].idxX != AbsentIndex then Finite(s.x[s.legIntegrationParams[1].idxX])
    else if s.diTauMassConstraint2 == 0.0 then NonFinite
    else Finite((s.mVis2Measured / s.diTauMassConstraint2) / x1dash)
  }

  /** Without its own coordinate, the second leg's fraction is the one for which
      x1 x2 M^2 equals the measured visible mass squared. */
  lemma MassConstraintFixesX2(s: IntegrandState, x1dash: real)
    requires PSReady(s) && x1dash != 0.0
    requires !s.leg2isPrompt && s.legIntegrationParams[1].idxX == AbsentIndex
    ensures X2Dash(s, x1dash).Finite? <==> s.diTauMassConstraint2 != 0.0
    ensures X2Dash(s, x1dash).Finite? ==>
      x1dash * X2Dash(s, x1dash).v * s.diTauMassConstraint2 == s.mVis2Measured
  {
    if s.diTauMassConstraint2 != 0.0 {
      var r := s.mVis2Measured / s.diTauMassConstraint2;
      assert r * s.diTauMassConstraint2 == s.mVis2Measured;
      assert x1dash * (r / x1dash) == r;
    }
  }

  /** The decay matrix element of one leg: the leptonic or the hadronic phase-space
      factor, 1 for a prompt leg. */
  function DecayDensity(env: Env, f: FittedTauLepton): Num
    requires ConstantsLaws(env.c)
  {
    var l := f.measured;
    if IsLeptonicTauDecay(l) then
      PSFactorTauToLepDecay(env.m, env.c, f.x, f.visP4.e, P(env.m, f.visP4), l.mass, f.nuP4.e, P(env.m, f.nuP4), f.nuMass)
    else if IsHadronicTauDecay(l) then
      PSFactorTauToHadDecay(env.m, env.c, f.x, f.visP4.e, P(env.m, f.visP4), l.mass, f.nuP4.e, P(env.m, f.nuP4))
    else Finite(1.0)
  }

  function MulNum(a: Num, b: Num): (r: Num)
    ensures r.Finite? <==> a.Finite? && b.Finite?
  {
    if a.NonFinite? || b.NonFinite? then NonFinite else Finite(a.v * b.v)
  }

  /** The product of the decay densities of the legs, in order. */
  function DensityProduct(env: Env, legs: seq<FittedTauLepton>): Num
    requires ConstantsLaws(env.c)
  {
    if |legs| == 0 then Finite(1.0)
    else MulNum(DensityProduct(env, legs[..|legs| - 1]), DecayDensity(env, legs[|legs| - 1]))
  }

  /** The log(M) weight 1 / max(1, m_tautau)^power, or 1 when it is switched off. */
  function LogMFactor(m: MathLib, addLogM: bool, power: real, mTauTau: real): real {
    var p := m.pow(Max(1.0, mTauTau), power);
    // a power of a base of at least 1 is positive (PowLaw), so the guard never fires
    if addLogM && p != 0.0 then 1.0 / p else 1.0
  }

  lemma LogMFactorBounds(m: MathLib, addLogM: bool, power: real, mTauTau: real)
    requires PowLaw(m)
    ensures 0.0 < LogMFactor(m, addLogM, power, mTauTau)
    ensures 0.0 <= power ==> LogMFactor(m, addLogM, power, mTauTau) <= 1.0
    ensures !addLogM ==> LogMFactor(m, addLogM, power, mTauTau) == 1.0
  {
    if addLogM {
      var p := m.pow(Max(1.0, mTauTau), power);
      assert 0.0 < p;
      if 0.0 <= power {
        assert 1.0 <= p;
        DivLeIff(1.0, p, 1.0);
      }
    }
  }

  /** The Jacobian of the parametrisation of x2 by the di-tau mass: 2 x2 / M when the
      constraint is active, 1 otherwise. */
  function MassConstraintJacobian(diTauMassConstraint: real, x2: real): real {
    if diTauMassConstraint > 0.0 then 2.0 * x2 / diTauMassConstraint else 1.0
  }

  /** The product of the constant factor, the decay densities, the matrix-element norm,
      the log(M) weight and the Jacobian, in the source's order. */
  function PSWeight(c: Constants, density: real, logM: real, jacobian: real): real {
    c.constFactor * density * c.matrixElementNorm * logM * jacobian
  }

  /** The phase-space probability of two legs whose momenta are set.  A non-finite
      density gives 0: the source replaces NaN by 0, but returns +inf as it is, and the
      model does not tell the two apart. */
  function PSProbability(env: Env, addLogM: bool, power: real, diTauMassConstraint: real,
                         f1: FittedTauLepton, f2: FittedTauLepton, x2: real): real
    requires ConstantsLaws(env.c)
  {
    var d := DensityProduct(env, [f1, f2]);
    if d.NonFinite? then 0.0
    else
      var mTauTau := Mass(env.m, Add(f1.tauP4, f2.tauP4));
      PSWeight(env.c, d.v, LogMFactor(env.m, addLogM, power, mTauTau), MassConstraintJacobian(diTauMassConstraint, x2))
  }

  /** EvalPS: clear the TauDecayParameters bit, set the visible momenta, then solve the
      first leg and the second leg in turn (PSFirstLeg, PSSecondLeg) and combine the
      densities. */
  function EvalPSSpec(env: Env, s: IntegrandState): (out: PSOutcome)
    requires ConstantsLaws(env.c) && PSReady(s)
    ensures out.fitted1.measured == s.fittedTauLepton1.measured
    ensures out.fitted2.measured == s.fittedTauLepton2.measured
  {
    var f1 := UpdateVisMomentum(env.solver, s.fittedTauLepton1, 1.0);
    var f2 := UpdateVisMomentum(env.solver, s.fittedTauLepton2, 1.0);
    PSFirstLeg(env, s, ClearTauDecayParameters(s.errorCode), f1, f2)
  }

  /** The first leg: read its visible energy fraction (1 when prompt), reject it outside
      [1e-5, 1], solve its kinematics and flag TauDecayParameters when that fails. */
  function PSFirstLeg(env: Env, s: IntegrandState, code: ErrorCode, f1: FittedTauLepton, f2: FittedTauLepton)
    : (out: PSOutcome)
    requires ConstantsLaws(env.c) && PSReady(s)
    ensures out.fitted1.measured == f1.measured && out.fitted2.measured == f2.measured
  {
    var x1 := X1Dash(s);
    if !(x1 >= 1.0e-5 && x1 <= 1.0) then PSOutcome(0.0, code, f1, f2)
    else
      var g1 := FirstLegSolution(env, s, f1);
      if !s.leg1isPrompt && g1.hasError then PSOutcome(0.0, code + {TauDecayParameters}, g1, f2)
      else PSSecondLeg(env, s, code, x1, g1, f2)
  }

  /** The visible energy fraction of the first leg: 1 for a prompt leg, its coordinate
      otherwise. */
  function X1Dash(s: IntegrandState): real
    requires PSReady(s)
  {
    if s.leg1isPrompt then 1.0 else s.x[s.legIntegrationParams[0].idxX]
  }

  /** The first leg after updateTauMomentum at its fraction, or unchanged when prompt. */
  function FirstLegSolution(env: Env, s: IntegrandState, f1: FittedTauLepton): FittedTauLepton
    requires PSReady(s)
  {
    var p1 := s.legIntegrationParams[0];
    if s.leg1isPrompt then f1
    else UpdateTauMomentum(env.solver, f1, X1Dash(s), s.x[p1.idxPhi], NuMass(env.m, s.x, p1.idxMNuNu))
  }

  /** The second leg after updateTauMomentum at fraction x2, or unchanged when prompt. */
  function SecondLegSolution(env: Env, s: IntegrandState, x2: real, f2: FittedTauLepton): FittedTauLepton
    requires PSReady(s)
  {
    var p2 := s.legIntegrationParams[1];
    if s.leg2isPrompt then f2
    else UpdateTauMomentum(env.solver, f2, x2, s.x[p2.idxPhi], NuMass(env.m, s.x, p2.idxMNuNu))
  }

  /** The second leg: its fraction from X2Dash, the same range test and solution, then the
      phase-space probability of the two solved legs. */
  function PSSecondLeg(env: Env, s: IntegrandState, code: ErrorCode, x1: real, g1: FittedTauLepton, f2: FittedTauLepton)
    : (out: PSOutcome)
    requires ConstantsLaws(env.c) && PSReady(s) && x1 != 0.0
    ensures out.fitted1 == g1 && out.fitted2.measured == f2.measured
  {
    var x2dash := X2Dash(s, x1);
    if !(x2dash.Finite? && x2dash.v >= 1.0e-5 && x2dash.v <= 1.0) then PSOutcome(0.0, code, g1, f2)
    else
      var x2 := x2dash.v;
      var g2 := SecondLegSolution(env, s, x2, f2);
      if !s.leg2isPrompt && g2.hasError then PSOutcome(0.0, code + {TauDecayParameters}, g1, g2)
      else PSOutcome(PSProbability(env, s.addLogM, s.addLogMPower, s.diTauMassConstraint, g1, g2, x2), code, g1, g2)
  }

  /** The second leg's stage gives 0 when the fraction falls outside [1e-5, 1]. */
  lemma PSSecondLegRejected(env: Env, s: IntegrandState, code: ErrorCode, x1: real, g1: FittedTauLepton, f2: FittedTauLepton)
    requires ConstantsLaws(env.c) && PSReady(s) && x1 != 0.0
    requires !(X2Dash(s, x1).Finite? && X2Dash(s, x1).v >= 1.0e-5 && X2Dash(s, x1).v <= 1.0)
    ensures PSSecondLeg(env, s, code, x1, g1, f2) == PSOutcome(0.0, code, g1, f2)
  {
  }

  /** The fraction of the second leg is accepted and the leg solved at it. */
  predicate SecondLegSolved(env: Env, s: IntegrandState, x1: real, f2: FittedTauLepton, x2: real, g2: FittedTauLepton)
    requires PSReady(s) && x1 != 0.0
  {
    X2Dash(s, x1) == Finite(x2) && 1.0e-5 <= x2 <= 1.0 && g2 == SecondLegSolution(env, s, x2, f2)
  }

  /** ... and flags TauDecayParameters when the kinematics have no solution, */
  lemma PSSecondLegUnsolved(env: Env, s: IntegrandState, code: ErrorCode, x1: real, g1: FittedTauLepton,
                            f2: FittedTauLepton, x2: real, g2: FittedTauLepton)
    requires ConstantsLaws(env.c) && PSReady(s) && x1 != 0.0
    requires SecondLegSolved(env, s, x1, f2, x2, g2) && !s.leg2isPrompt && g2.hasError
    ensures PSSecondLeg(env, s, code, x1, g1, f2) == PSOutcome(0.0, code + {TauDecayParameters}, g1, g2)
  {
  }

  /** gives 0 for a non-finite density, */
  lemma PSSecondLegNonFinite(env: Env, s: IntegrandState, code: ErrorCode, x1: real, g1: FittedTauLepton,
                             f2: FittedTauLepton, x2: real, g2: FittedTauLepton)
    requires ConstantsLaws(env.c) && PSReady(s) && x1 != 0.0
    requires SecondLegSolved(env, s, x1, f2, x2, g2) && !(!s.leg2isPrompt && g2.hasError)
    requires DensityProduct(env, [g1, g2]).NonFinite?
    ensures PSSecondLeg(env, s, code, x1, g1, f2) == PSOutcome(0.0, code, g1, g2)
  {
  }

  /** and otherwise the product of the constant factor, the densities, the matrix-element
      norm, the log(M) weight and the Jacobian. */
  lemma PSSecondLegProduct(env: Env, s: IntegrandState, code: ErrorCode, x1: real, g1: FittedTauLepton,
                           f2: FittedTauLepton, x2: real, g2: FittedTauLepton, density: real)
    requires ConstantsLaws(env.c) && PSReady(s) && x1 != 0.0
    requires SecondLegSolved(env, s, x1, f2, x2, g2) && !(!s.leg2isPrompt && g2.hasError)
    requires DensityProduct(env, [g1, g2]) == Finite(density)
    ensures PSSecondLeg(env, s, code, x1, g1, f2) ==
      PSOutcome(PSWeight(env.c, density, LogMFactor(env.m, s.addLogM, s.addLogMPower, Mass(env.m, Add(g1.tauP4, g2.tauP4))),
                         MassConstraintJacobian(s.diTauMassConstraint, x2)),
                code, g1, g2)
  {
  }

  /** What the second leg's stage does to the error code and when it gives 0. */
  lemma PSSecondLegGates(env: Env, s: IntegrandState, code: ErrorCode, x1: real, g1: FittedTauLepton, f2: FittedTauLepton)
    requires ConstantsLaws(env.c) && PSReady(s) && x1 != 0.0 && TauDecayParameters !in code
    ensures var out := PSSecondLeg(env, s, code, x1, g1, f2);
      (out.errorCode == code || out.errorCode == code + {TauDecayParameters}) &&
      (TauDecayParameters in out.errorCode ==> !s.leg2isPrompt && out.fitted2.hasError && out.prob == 0.0) &&
      (!f2.hasError && !s.leg2isPrompt && out.fitted2.hasError ==> TauDecayParameters in out.errorCode) &&
      (out.prob != 0.0 && !s.leg2isPrompt ==> !out.fitted2.hasError && 1.0e-5 <= out.fitted2.x <= 1.0)
  {
  }

  /** What the first leg's stage, followed by the second's, does to the error code and
      when it gives 0. */
  lemma PSFirstLegGates(env: Env, s: IntegrandState, code: ErrorCode, f1: FittedTauLepton, f2: FittedTauLepton)
    requires ConstantsLaws(env.c) && PSReady(s) && TauDecayParameters !in code
    ensures var out := PSFirstLeg(env, s, code, f1, f2);
      (out.errorCode == code || out.errorCode == code + {TauDecayParameters}) &&
      (TauDecayParameters in out.errorCode ==>
        ((!s.leg1isPrompt && out.fitted1.hasError) || (!s.leg2isPrompt && out.fitted2.hasError)) && out.prob == 0.0) &&
      (!f1.hasError && !f2.hasError &&
       ((!s.leg1isPrompt && out.fitted1.hasError) || (!s.leg2isPrompt && out.fitted2.hasError)) ==>
        TauDecayParameters in out.errorCode) &&
      (out.prob != 0.0 ==>
        (!s.leg1isPrompt ==> !out.fitted1.hasError && 1.0e-5 <= out.fitted1.x <= 1.0) &&
        (!s.leg2isPrompt ==> !out.fitted2.hasError && 1.0e-5 <= out.fitted2.x <= 1.0))
  {
    var x1 := X1Dash(s);
    if x1 >= 1.0e-5 && x1 <= 1.0 {
      var g1 := FirstLegSolution(env, s, f1);
      if s.leg1isPrompt || !g1.hasError {
        PSSecondLegGates(env, s, code, x1, g1, f2);
      }
    }
  }

  /** EvalPS gives 0 when the first leg's fraction lies outside [1e-5, 1] (only a
      non-prompt leg can), with the bit cleared and only the visible momenta set. */
  lemma EvalPSFirstLegRejected(env: Env, s: IntegrandState)
    requires ConstantsLaws(env.c) && PSReady(s)
    requires !(1.0e-5 <= X1Dash(s) <= 1.0)
    ensures !s.leg1isPrompt
    ensures EvalPSSpec(env, s) ==
      PSOutcome(0.0, ClearTauDecayParameters(s.errorCode),
                UpdateVisMomentum(env.solver, s.fittedTauLepton1, 1.0),
                UpdateVisMomentum(env.solver, s.fittedTauLepton2, 1.0))
  {
  }

  /** With the first leg accepted and solved, EvalPS gives 0 when the second leg's fraction
      (its coordinate, or the one the mass constraint fixes) is non-finite or lies outside
      [1e-5, 1]; the second leg then keeps only its visible momentum. */
  lemma EvalPSSecondLegRejected(env: Env, s: IntegrandState)
    requires ConstantsLaws(env.c) && PSReady(s)
    requires 1.0e-5 <= X1Dash(s) <= 1.0
    requires var f1 := UpdateVisMomentum(env.solver, s.fittedTauLepton1, 1.0);
      s.leg1isPrompt || !FirstLegSolution(env, s, f1).hasError
    requires var x2dash := X2Dash(s, X1Dash(s));
      !(x2dash.Finite? && 1.0e-5 <= x2dash.v <= 1.0)
    ensures !s.leg2isPrompt
    ensures EvalPSSpec(env, s) ==
      PSOutcome(0.0, ClearTauDecayParameters(s.errorCode),
                FirstLegSolution(env, s, UpdateVisMomentum(env.solver, s.fittedTauLepton1, 1.0)),
                UpdateVisMomentum(env.solver, s.fittedTauLepton2, 1.0))
  {
    var f1 := UpdateVisMomentum(env.solver, s.fittedTauLepton1, 1.0);
    var f2 := UpdateVisMomentum(env.solver, s.fittedTauLepton2, 1.0);
    PSSecondLegRejected(env, s, ClearTauDecayParameters(s.errorCode), X1Dash(s), FirstLegSolution(env, s, f1), f2);
  }

  /** EvalPS changes no error flag but TauDecayParameters.  That flag is set only when the
      kinematics of a non-prompt leg had no solution (exactly then, when the legs arrive
      without error), and then the result is 0.  A non-zero result comes with both legs
      solved at fractions inside [1e-5, 1]. */
  lemma EvalPSErrorAndGates(env: Env, s: IntegrandState)
    requires ConstantsLaws(env.c) && PSReady(s)
    ensures var out := EvalPSSpec(env, s);
      out.errorCode - {TauDecayParameters} == s.errorCode - {TauDecayParameters}
    ensures var out := EvalPSSpec(env, s);
      TauDecayParameters in out.errorCode ==>
        (!s.leg1isPrompt && out.fitted1.hasError) || (!s.leg2isPrompt && out.fitted2.hasError)
    ensures var out := EvalPSSpec(env, s);
      !s.fittedTauLepton1.hasError && !s.fittedTauLepton2.hasError ==>
        (TauDecayParameters in out.errorCode <==>
          (!s.leg1isPrompt && out.fitted1.hasError) || (!s.leg2isPrompt && out.fitted2.hasError))
    ensures var out := EvalPSSpec(env, s);
      TauDecayParameters in out.errorCode ==> out.prob == 0.0
    ensures var out := EvalPSSpec(env, s);
      out.prob != 0.0 ==>
        (!s.leg1isPrompt ==> !out.fitted1.hasError && 1.0e-5 <= out.fitted1.x <= 1.0) &&
        (!s.leg2isPrompt ==> !out.fitted2.hasError && 1.0e-5 <= out.fitted2.x <= 1.0)
  {
    var cleared := ClearTauDecayParameters(s.errorCode);
    var f1 := UpdateVisMomentum(env.solver, s.fittedTauLepton1, 1.0);
    var f2 := UpdateVisMomentum(env.solver, s.fittedTauLepton2, 1.0);
    PSFirstLegGates(env, s, cleared, f1, f2);
    assert (cleared + {TauDecayParameters}) - {TauDecayParameters} == s.errorCode - {TauDecayParameters};
  }

  /** The decay density of a leg with physical energies and mass is non-negative where it
      is finite. */
  lemma DecayDensityNonNegative(env: Env, f: FittedTauLepton)
    requires EnvLaws(env) && LegPhysical(env.c, f.measured)
    requires 0.0 <= f.visP4.e && 0.0 <= f.nuP4.e
    ensures DecayDensity(env, f).NonFinite? || 0.0 <= DecayDensity(env, f).v
  {
    P2NonNegative(f.visP4);
    P2NonNegative(f.nuP4);
    var l := f.measured;
    if IsLeptonicTauDecay(l) {
      LepDecayNonNegative(env.m, env.c, f.x, f.visP4.e, P(env.m, f.visP4), l.mass, f.nuP4.e, P(env.m, f.nuP4), f.nuMass);
    } else if IsHadronicTauDecay(l) {
      HadDecayNonNegative(env.m, env.c, f.x, f.visP4.e, P(env.m, f.visP4), l.mass, f.nuP4.e, P(env.m, f.nuP4));
    }
  }

  /** A leg whose densities the non-negativity argument covers: physical mass, a
      non-negative visible energy, and, unless prompt, a non-negative invisible energy. */
  predicate LegReadyForDensity(c: Constants, f: FittedTauLepton) {
    LegPhysical(c, f.measured) && 0.0 <= f.visP4.e && (IsPrompt(f.measured) || 0.0 <= f.nuP4.e)
  }

  /** A density that is either not finite or not negative. */
  predicate NonNegativeNum(n: Num) {
    n.NonFinite? || 0.0 <= n.v
  }

  lemma MulNumNonNegative(a: Num, b: Num)
    requires NonNegativeNum(a) && NonNegativeNum(b)
    ensures NonNegativeNum(MulNum(a, b))
  {
    if a.Finite? && b.Finite? {
      ProductBounds(a.v, b.v, a.v, b.v);
    }
  }

  lemma LegDensityNonNegative(env: Env, f: FittedTauLepton)
    requires EnvLaws(env) && LegReadyForDensity(env.c, f)
    ensures NonNegativeNum(DecayDensity(env, f))
  {
    if !IsPrompt(f.measured) {
      DecayDensityNonNegative(env, f);
    }
  }

  /** The densities of two legs multiply to a non-negative value where they are finite. */
  lemma DensityProductNonNegative(env: Env, f1: FittedTauLepton, f2: FittedTauLepton)
    requires EnvLaws(env) && LegReadyForDensity(env.c, f1) && LegReadyForDensity(env.c, f2)
    ensures NonNegativeNum(DensityProduct(env, [f1, f2]))
  {
    var legs := [f1, f2];
    assert legs[..1] == [f1] && [f1][..0] == [];
    LegDensityNonNegative(env, f1);
    LegDensityNonNegative(env, f2);
    assert DensityProduct(env, [f1]) == MulNum(Finite(1.0), DecayDensity(env, f1));
    MulNumNonNegative(Finite(1.0), DecayDensity(env, f1));
    assert DensityProduct(env, legs) == MulNum(DensityProduct(env, [f1]), DecayDensity(env, f2));
    MulNumNonNegative(DensityProduct(env, [f1]), DecayDensity(env, f2));
  }

  lemma PSWeightNonNegative(c: Constants, density: real, logM: real, jacobian: real)
    requires ConstantsLaws(c) && 0.0 <= density && 0.0 <= logM && 0.0 <= jacobian
    ensures 0.0 <= PSWeight(c, density, logM, jacobian)
  {
    var a := c.constFactor * density;
    ProductBounds(c.constFactor, density, c.constFactor, density);
    var b := a * c.matrixElementNorm;
    ProductBounds(a, c.matrixElementNorm, a, c.matrixElementNorm);
    var d := b * logM;
    ProductBounds(b, logM, b, logM);
    ProductBounds(d, jacobian, d, jacobian);
  }

  lemma MassConstraintJacobianNonNegative(diTauMassConstraint: real, x2: real)
    requires 0.0 <= x2
    ensures 0.0 <= MassConstraintJacobian(diTauMassConstraint, x2)
  {
    if diTauMassConstraint > 0.0 {
      ProductBounds(2.0 * x2, 1.0 / diTauMassConstraint, 2.0 * x2, 1.0 / diTauMassConstraint);
      assert 2.0 * x2 / diTauMassConstraint == 2.0 * x2 * (1.0 / diTauMassConstraint);
    }
  }

  /** With physical legs the phase-space probability is never negative. */
  lemma PSProbabilityNonNegative(env: Env, addLogM: bool, power: real, diTauMassConstraint: real,
                                 f1: FittedTauLepton, f2: FittedTauLepton, x2: real)
    requires EnvLaws(env) && 0.0 <= x2
    requires LegReadyForDensity(env.c, f1) && LegReadyForDensity(env.c, f2)
    ensures 0.0 <= PSProbability(env, addLogM, power, diTauMassConstraint, f1, f2, x2)
  {
    var d := DensityProduct(env, [f1, f2]);
    DensityProductNonNegative(env, f1, f2);
    if d.Finite? {
      var mTauTau := Mass(env.m, Add(f1.tauP4, f2.tauP4));
      LogMFactorBounds(env.m, addLogM, power, mTauTau);
      MassConstraintJacobianNonNegative(diTauMassConstraint, x2);
      PSWeightNonNegative(env.c, d.v, LogMFactor(env.m, addLogM, power, mTauTau),
                          MassConstraintJacobian(diTauMassConstraint, x2));
    }
  }

  /** With physical legs and kinematics that give non-negative energies, EvalPS never
      returns a negative probability. */
  lemma EvalPSNonNegative(env: Env, s: IntegrandState)
    requires EnvLaws(env) && PSReady(s) && SolverLaws(env.solver)
    requires s.leg1isPrompt == IsPrompt(s.fittedTauLepton1.measured)
    requires s.leg2isPrompt == IsPrompt(s.fittedTauLepton2.measured)
    requires LegPhysical(env.c, s.fittedTauLepton1.measured) && LegPhysical(env.c, s.fittedTauLepton2.measured)
    ensures 0.0 <= EvalPSSpec(env, s).prob
  {
    var out := EvalPSSpec(env, s);
    var f1 := UpdateVisMomentum(env.solver, s.fittedTauLepton1, 1.0);
    var f2 := UpdateVisMomentum(env.solver, s.fittedTauLepton2, 1.0);
    assert 0.0 <= f1.visP4.e && 0.0 <= f2.visP4.e;
    if out.prob != 0.0 {
      EvalPSErrorAndGates(env, s);
      var x2 := X2Dash(s, X1Dash(s)).v;
      if !s.leg1isPrompt {
        assert out.fitted1 == UpdateTauMomentum(env.solver, f1, out.fitted1.x, s.x[s.legIntegrationParams[0].idxPhi],
                                                NuMass(env.m, s.x, s.legIntegrationParams[0].idxMNuNu));
      }
      assert LegReadyForDensity(env.c, out.fitted1);
      assert LegReadyForDensity(env.c, out.fitted2);
      assert out.prob == PSProbability(env, s.addLogM, s.addLogMPower, s.diTauMassConstraint, out.fitted1, out.fitted2, x2);
      PSProbabilityNonNegative(env, s.addLogM, s.addLogMPower, s.diTauMassConstraint, out.fitted1, out.fitted2, x2);
    }
  }

  // ---------------------------------------------------------------------------------
  // EvalFlightLength

  /** What EvalFlightLength reads for one leg (the iTau == 0 / iTau == 1 selection). */
  datatype FlightLengthLeg = FlightLengthLeg(
    fitted: FittedTauLepton,
    cov: Matrix,
    covInv: Matrix,
    leadChargedHadron: Option<MeasuredHadTauDecayProduct>,
    constFlightLength: real,
    idxFlightLength: int)

  function FlightLengthLegOf(s: IntegrandState, iTau: nat): FlightLengthLeg
    requires StateValid(s) && iTau < NumTaus
  {
    if iTau == 0 then
      FlightLengthLeg(s.fittedTauLepton1, s.leg1decayVertexCov, s.leg1decayVertexCovInv,
                      s.leg1leadChargedHadron, s.constFlightLength1, s.legIntegrationParams[0].idxFlightLength)
    else
      FlightLengthLeg(s.fittedTauLepton2, s.leg2decayVertexCov, s.leg2decayVertexCovInv,
                      s.leg2leadChargedHadron, s.constFlightLength2, s.legIntegrationParams[1].idxFlightLength)
  }

  /** A non-prompt leg has a leading charged hadron, a 3 x 3 inverse covariance and a
      flight-length coordinate. */
  predicate LegFlightLengthReady(g: FlightLengthLeg, n: nat) {
    !IsPrompt(g.fitted.measured) ==>
      g.leadChargedHadron.Some? && IsSquare(g.covInv, 3) && IndexIn(g.idxFlightLength, n)
  }

  predicate FlightLengthReady(s: IntegrandState) {
    StateValid(s) &&
    (s.useTauFlightLength ==>
      LegFlightLengthReady(FlightLengthLegOf(s, 0), |s.x|) &&
      LegFlightLengthReady(FlightLengthLegOf(s, 1), |s.x|))
  }

  /** The Lorentz factor E / m_tau, raised to 1 where it is unphysical. */
  function Gamma(c: Constants, tauEnergy: real): (g: real)
    requires ConstantsLaws(c)
    ensures 1.0 <= g
    ensures 1.0 <= tauEnergy / c.tauLeptonMass ==> g == tauEnergy / c.tauLeptonMass
  {
    var g := tauEnergy / c.tauLeptonMass;
    if g < 1.0 then 1.0 else g
  }

  /** The exponential decay density at flight length d: exp(-d / (gamma c tau)) / (gamma c tau). */
  function ExpDecayDensity(m: MathLib, c: Constants, tauEnergy: real, d: real): real
    requires ConstantsLaws(c)
  {
    var gct := Gamma(c, tauEnergy) * c.cTauLifetime;
    MulPositive(Gamma(c, tauEnergy), c.cTauLifetime);
    (1.0 / gct) * m.exp(-d / gct)
  }

  lemma ExpDecayDensityPositive(m: MathLib, c: Constants, tauEnergy: real, d: real)
    requires ExpLaw(m) && ConstantsLaws(c)
    ensures 0.0 < ExpDecayDensity(m, c, tauEnergy, d)
  {
    var gct := Gamma(c, tauEnergy) * c.cTauLifetime;
    MulPositive(Gamma(c, tauEnergy), c.cTauLifetime);
    MulPositive(1.0 / gct, m.exp(-d / gct));
  }

  /** The flight-length probability of one leg: the decay density at the flight length
      chosen inside [dmin, dmax], the Gaussian of the decay vertex's distance from the
      tau direction, and the Jacobian dmax - dmin; 1 for a prompt leg. */
  function FlightLengthFactor(env: Env, s: IntegrandState, g: FlightLengthLeg): real
    requires ConstantsLaws(env.c) && LegFlightLengthReady(g, |s.x|)
  {
    if IsPrompt(g.fitted.measured) then 1.0
    else
      var l := g.fitted.measured;
      var tauP4 := g.fitted.tauP4;
      var pca := env.col.compPCA(tauP4, l, g.leadChargedHadron.value, s.primaryVertex, l.decayVertex, g.covInv);
      var range := env.col.compDminDmax(tauP4, Minus(pca, s.primaryVertex), g.cov);
      var xFlightLength := s.x[g.idxFlightLength];
      var d := Rescale(xFlightLength, range.0, range.1);
      var eTau := Normalize(env.m, Vect(tauP4));
      var residual := Minus(Minus(l.decayVertex, s.primaryVertex), Times(eTau, d));
      var pull2 := QuadraticForm(g.covInv, [residual.x, residual.y, residual.z]);
      var probTF := GaussianTF(env.m, g.constFlightLength, pull2);
      FlightLengthWeight(ExpDecayDensity(env.m, env.c, tauP4.e, d), probTF, range.1 - range.0)
  }

  /** A Gaussian transfer function with normalisation norm at squared pull pull2. */
  function GaussianTF(m: MathLib, norm: real, pull2: real): real {
    norm * m.exp(-0.5 * pull2)
  }

  /** One leg's flight-length probability from its three factors. */
  function FlightLengthWeight(probExpDecay: real, probTF: real, jacobian: real): real {
    probExpDecay * probTF * jacobian
  }

  /** The product of the first n legs' factors. */
  function FlightLengthProduct(env: Env, s: IntegrandState, n: nat): real
    requires ConstantsLaws(env.c) && FlightLengthReady(s) && s.useTauFlightLength && n <= NumTaus
  {
    if n == 0 then 1.0
    else Accumulate(FlightLengthProduct(env, s, n - 1), FlightLengthFactor(env, s, FlightLengthLegOf(s, n - 1)))
  }

  /** A running product times one more factor. */
  function Accumulate(prob: real, probI: real): real {
    prob * probI
  }

  /** One more leg multiplies in its factor; a prompt leg's factor is 1. */
  lemma FlightLengthProductStep(env: Env, s: IntegrandState, n: nat)
    requires ConstantsLaws(env.c) && FlightLengthReady(s) && s.useTauFlightLength && n < NumTaus
    ensures FlightLengthProduct(env, s, n + 1) ==
            Accumulate(FlightLengthProduct(env, s, n), FlightLengthFactor(env, s, FlightLengthLegOf(s, n)))
    ensures IsPrompt(FlightLengthLegOf(s, n).fitted.measured) ==>
            FlightLengthProduct(env, s, n + 1) == FlightLengthProduct(env, s, n)
  {
    var k := n + 1;
    assert k - 1 == n;
    assert FlightLengthProduct(env, s, k) == Accumulate(FlightLengthProduct(env, s, k - 1), FlightLengthFactor(env, s, FlightLengthLegOf(s, k - 1)));
  }

  /** EvalFlightLength: 1 when the flight length is not used, otherwise the product over
      both legs. */
  function EvalFlightLengthSpec(env: Env, s: IntegrandState): real
    requires ConstantsLaws(env.c) && FlightLengthReady(s)
  {
    if !s.useTauFlightLength then 1.0 else FlightLengthProduct(env, s, NumTaus)
  }

  lemma FlightLengthFactorNonNegative(env: Env, s: IntegrandState, g: FlightLengthLeg)
    requires EnvLaws(env) && LegFlightLengthReady(g, |s.x|) && DecayLengthRangeLaw(env.col)
    requires 0.0 <= g.constFlightLength
    ensures 0.0 <= FlightLengthFactor(env, s, g)
  {
    if !IsPrompt(g.fitted.measured) {
      var l := g.fitted.measured;
      var tauP4 := g.fitted.tauP4;
      var pca := env.col.compPCA(tauP4, l, g.leadChargedHadron.value, s.primaryVertex, l.decayVertex, g.covInv);
      var range := env.col.compDminDmax(tauP4, Minus(pca, s.primaryVertex), g.cov);
      var xFlightLength := s.x[g.idxFlightLength];
      var d := Rescale(xFlightLength, range.0, range.1);
      var eTau := Normalize(env.m, Vect(tauP4));
      var residual := Minus(Minus(l.decayVertex, s.primaryVertex), Times(eTau, d));
      var pull2 := QuadraticForm(g.covInv, [residual.x, residual.y, residual.z]);
      var probTF := GaussianTF(env.m, g.constFlightLength, pull2);
      var e := ExpDecayDensity(env.m, env.c, tauP4.e, d);
      ExpDecayDensityPositive(env.m, env.c, tauP4.e, d);
      ProductBounds(g.constFlightLength, env.m.exp(-0.5 * pull2), g.constFlightLength, env.m.exp(-0.5 * pull2));
      ProductBounds(e, probTF, e, probTF);
      ProductBounds(e * probTF, range.1 - range.0, e * probTF, range.1 - range.0);
    }
  }

  lemma {:induction false} FlightLengthProductNonNegative(env: Env, s: IntegrandState, n: nat)
    requires EnvLaws(env) && FlightLengthReady(s) && s.useTauFlightLength && n <= NumTaus
    requires DecayLengthRangeLaw(env.col)
    requires 0.0 <= s.constFlightLength1 && 0.0 <= s.constFlightLength2
    ensures 0.0 <= FlightLengthProduct(env, s, n)
  {
    if n != 0 {
      var k := n - 1;
      FlightLengthProductNonNegative(env, s, k);
      FlightLengthProductStep(env, s, k);
      var g := FlightLengthLegOf(s, k);
      assert 0.0 <= g.constFlightLength;
      FlightLengthFactorNonNegative(env, s, g);
      var prob := FlightLengthProduct(env, s, k);
      var probI := FlightLengthFactor(env, s, g);
      ProductBounds(prob, probI, prob, probI);
    }
  }

  /** The flight-length probability is 1 when it is switched off or both legs are prompt,
      and never negative when the normalisations are not. */
  lemma EvalFlightLengthBounds(env: Env, s: IntegrandState)
    requires EnvLaws(env) && FlightLengthReady(s) && DecayLengthRangeLaw(env.col)
    requires 0.0 <= s.constFlightLength1 && 0.0 <= s.constFlightLength2
    ensures 0.0 <= EvalFlightLengthSpec(env, s)
    ensures !s.useTauFlightLength ==> EvalFlightLengthSpec(env, s) == 1.0
    ensures IsPrompt(s.fittedTauLepton1.measured) && IsPrompt(s.fittedTauLepton2.measured) ==>
      EvalFlightLengthSpec(env, s) == 1.0
  {
    if s.useTauFlightLength {
      FlightLengthProductNonNegative(env, s, NumTaus);
      assert FlightLengthProduct(env, s, 1) ==
        FlightLengthProduct(env, s, 0) * FlightLengthFactor(env, s, FlightLengthLegOf(s, 0));
      assert FlightLengthLegOf(s, 0).fitted == s.fittedTauLepton1;
      assert FlightLengthLegOf(s, 1).fitted == s.fittedTauLepton2;
    }
  }

  /** const_FlightLength: the normalisation 1 / ((2 pi)^(3/2) sqrt|det|) of a
      three-dimensional Gaussian.  Where the determinant is zero the source stores +inf;
      the model stores 0 there. */
  function ConstFlightLength(m: MathLib, det: real): real {
    var denom := m.pow(2.0 * m.pi, 1.5) * m.sqrt(Abs(det));
    if denom == 0.0 then 0.0 else 1.0 / denom
  }

  /** For a regular covariance the constant is positive and normalises the Gaussian. */
  lemma ConstFlightLengthNormalises(m: MathLib, det: real)
    requires MathLaws(m) && det != 0.0
    ensures 0.0 < ConstFlightLength(m, det)
    ensures ConstFlightLength(m, det) * (m.pow(2.0 * m.pi, 1.5) * m.sqrt(Abs(det))) == 1.0
  {
    var p := m.pow(2.0 * m.pi, 1.5);
    assert 0.0 < p;
    SqrtPositive(m, Abs(det));
    MulPositive(p, m.sqrt(Abs(det)));
  }

  // ---------------------------------------------------------------------------------
  // EvalMEtTF

  /** The sum of the invisible four-momenta of the legs. */
  function SumNuP4(legs: seq<FittedTauLepton>): LorentzVector {
    if |legs| == 0 then Zero4 else Add(SumNuP4(legs[..|legs| - 1]), legs[|legs| - 1].nuP4)
  }

  /** The measured missing momentum minus the invisible momenta: (px, py) for proton-proton
      collisions, (px, py, pz, E) for electron-positron collisions. */
  function MEtResidual(met: MeasuredMEt, legs: seq<FittedTauLepton>): (r: seq<real>)
    ensures |r| == if met.collisionType == ProtonProtonCollisions then 2 else 4
  {
    var sum := SumNuP4(legs);
    if met.collisionType == ProtonProtonCollisions then [met.px - sum.px, met.py - sum.py]
    else [met.px - sum.px, met.py - sum.py, met.pz - sum.pz, met.energy - sum.e]
  }

  /** The squared pull of the residual; the proton-proton branch writes the 2 x 2 quadratic
      form out entry by entry. */
  function MEtPull2(met: MeasuredMEt, legs: seq<FittedTauLepton>): real
    requires MEtWellFormed(met)
  {
    var r := MEtResidual(met, legs);
    if met.collisionType == ProtonProtonCollisions then
      r[0] * (met.covInv[0][0] * r[0] + met.covInv[0][1] * r[1]) +
      r[1] * (met.covInv[1][0] * r[0] + met.covInv[1][1] * r[1])
    else QuadraticForm(met.covInv, r)
  }

  /** EvalMEtTF: const_MET exp(-pull2 / 2). */
  function EvalMEtTFSpec(m: MathLib, met: MeasuredMEt, legs: seq<FittedTauLepton>): real
    requires MEtWellFormed(met)
  {
    met.constMEt * m.exp(-0.5 * MEtPull2(met, legs))
  }

  /** Both collision types use the same Gaussian: the pull is r^T C^-1 r. */
  lemma MEtPullIsQuadraticForm(met: MeasuredMEt, legs: seq<FittedTauLepton>)
    requires MEtWellFormed(met)
    ensures MEtPull2(met, legs) == QuadraticForm(met.covInv, MEtResidual(met, legs))
  {
    if met.collisionType == ProtonProtonCollisions {
      var r := MEtResidual(met, legs);
      QuadraticForm2(met.covInv, r[0], r[1]);
      assert r == [r[0], r[1]];
    }
  }

  /** The transfer function is non-negative, at most const_MET for a non-negative pull
      (a positive semi-definite inverse covariance), and exactly const_MET when the
      invisible momenta match the measurement. */
  lemma MEtTFBounds(m: MathLib, met: MeasuredMEt, legs: seq<FittedTauLepton>)
    requires ExpLaw(m) && MEtWellFormed(met) && 0.0 <= met.constMEt
    ensures 0.0 <= EvalMEtTFSpec(m, met, legs)
    ensures 0.0 <= MEtPull2(met, legs) ==> EvalMEtTFSpec(m, met, legs) <= met.constMEt
    ensures (forall i :: 0 <= i < |MEtResidual(met, legs)| ==> MEtResidual(met, legs)[i] == 0.0) ==>
      EvalMEtTFSpec(m, met, legs) == met.constMEt
  {
    var e := m.exp(-0.5 * MEtPull2(met, legs));
    ProductBounds(met.constMEt, e, met.constMEt, e);
    if 0.0 <= MEtPull2(met, legs) {
      MulLeftMono(met.constMEt, e, 1.0);
    }
    if forall i :: 0 <= i < |MEtResidual(met, legs)| ==> MEtResidual(met, legs)[i] == 0.0 {
      MEtPullIsQuadraticForm(met, legs);
      QuadraticFormAtZero(met.covInv, MEtResidual(met, legs));
    }
  }

  // ---------------------------------------------------------------------------------
  // setMeasurement

  predicate AllMEtCovInvValid(mets: seq<MeasuredMEt>) {
    forall i :: 0 <= i < |mets| ==> mets[i].covInvIsValid
  }

  /** Every non-prompt lepton has a decay vertex. */
  predicate DecayVerticesPresent(leptons: seq<MeasuredTauLepton>) {
    forall i :: 0 <= i < |leptons| ==> IsPrompt(leptons[i]) || leptons[i].hasDecayVertex
  }

  predicate AllDecayVertexCovInvValid(leptons: seq<MeasuredTauLepton>) {
    forall i :: 0 <= i < |leptons| ==> leptons[i].decayVertexCovInvIsValid
  }

  /** setMeasurement reads the first two leptons; with the flight length it adds their
      decay-vertex covariances to the primary vertex's, all 3 x 3. */
  predicate MeasurementReady(useTauFlightLength: bool, event: MeasuredEvent) {
    |event.tauLeptons| >= NumTaus &&
    (useTauFlightLength ==>
      IsSquare(event.primaryVertexCov, 3) &&
      LeptonWellFormed(event.tauLeptons[0]) && LeptonWellFormed(event.tauLeptons[1]))
  }

  /** The covariance of leg i's decay vertex relative to the primary vertex. */
  function LegDecayVertexCov(event: MeasuredEvent, i: nat): (cov: Matrix)
    requires MeasurementReady(true, event) && i < NumTaus
    ensures IsSquare(cov, 3)
  {
    MatAdd(event.tauLeptons[i].decayVertexCov, event.primaryVertexCov, 3)
  }

  /** The error code setMeasurement computes, check by check. */
  function SetupErrorCode(col: Collaborators, useTauFlightLength: bool, event: MeasuredEvent): ErrorCode
    requires MeasurementReady(useTauFlightLength, event)
  {
    var lepton := if |event.tauLeptons| != NumTaus then {LeptonNumber} else NoError;
    var met := if AllMEtCovInvValid(event.mets) then lepton else lepton + {MatrixInversion};
    if !useTauFlightLength then met else FlightLengthErrorCode(col, event, met)
  }

  /** The checks setMeasurement adds with the flight length, on top of the error code met. */
  function FlightLengthErrorCode(col: Collaborators, event: MeasuredEvent, met: ErrorCode): ErrorCode
    requires MeasurementReady(true, event)
  {
    var pv := if !event.hasPrimaryVertex then met + {MissingVertex}
              else if !event.primaryVertexCovInvIsValid then met + {MatrixInversion}
              else met;
    var dv := if !DecayVerticesPresent(event.tauLeptons) then pv + {MissingVertex}
              else if !AllDecayVertexCovInvValid(event.tauLeptons) then pv + {MatrixInversion}
              else pv;
    var inv := if col.invertMatrix(LegDecayVertexCov(event, 0)).1 || col.invertMatrix(LegDecayVertexCov(event, 1)).1
               then dv + {MatrixInversion} else dv;
    var l1 := event.tauLeptons[0];
    var l2 := event.tauLeptons[1];
    if !((l1.leadChargedHadron.Some? || IsPrompt(l1)) && (l2.leadChargedHadron.Some? || IsPrompt(l2)))
    then inv + {MissingLeadChargedHadron} else inv
  }

  /** Each setup error bit is raised exactly when its check fails, and the
      TauDecayParameters bit is never raised. */
  lemma SetupErrorCodeBits(col: Collaborators, useTauFlightLength: bool, event: MeasuredEvent)
    requires MeasurementReady(useTauFlightLength, event)
    ensures var e := SetupErrorCode(col, useTauFlightLength, event);
      (LeptonNumber in e <==> |event.tauLeptons| != NumTaus) &&
      TauDecayParameters !in e &&
      e <= SetupErrors
    ensures var e := SetupErrorCode(col, useTauFlightLength, event);
      MatrixInversion in e <==>
        !AllMEtCovInvValid(event.mets) ||
        (useTauFlightLength &&
          ((event.hasPrimaryVertex && !event.primaryVertexCovInvIsValid) ||
           (DecayVerticesPresent(event.tauLeptons) && !AllDecayVertexCovInvValid(event.tauLeptons)) ||
           col.invertMatrix(LegDecayVertexCov(event, 0)).1 || col.invertMatrix(LegDecayVertexCov(event, 1)).1))
    ensures var e := SetupErrorCode(col, useTauFlightLength, event);
      MissingVertex in e <==>
        useTauFlightLength && (!event.hasPrimaryVertex || !DecayVerticesPresent(event.tauLeptons))
    ensures var e := SetupErrorCode(col, useTauFlightLength, event);
      MissingLeadChargedHadron in e <==>
        useTauFlightLength &&
        !((event.tauLeptons[0].leadChargedHadron.Some? || IsPrompt(event.tauLeptons[0])) &&
          (event.tauLeptons[1].leadChargedHadron.Some? || IsPrompt(event.tauLeptons[1])))
  {
  }

  /** setMeasurement on the state. */
  function SetMeasurementSpec(env: Env, s: IntegrandState, event: MeasuredEvent): IntegrandState
    requires MeasurementReady(s.useTauFlightLength, event)
  {
    var l1 := event.tauLeptons[0];
    var l2 := event.tauLeptons[1];
    var mVis := Mass(env.m, Add(l1.p4, l2.p4));
    var base := s.(
      measuredEvent := event,
      errorCode := SetupErrorCode(env.col, s.useTauFlightLength, event),
      measuredTauLepton1 := l1,
      fittedTauLepton1 := SetMeasuredTauLepton(s.fittedTauLepton1, l1),
      leg1isLeptonicTauDecay := IsLeptonicTauDecay(l1),
      leg1isHadronicTauDecay := IsHadronicTauDecay(l1),
      leg1isPrompt := IsPrompt(l1),
      measuredTauLepton2 := l2,
      fittedTauLepton2 := SetMeasuredTauLepton(s.fittedTauLepton2, l2),
      leg2isLeptonicTauDecay := IsLeptonicTauDecay(l2),
      leg2isHadronicTauDecay := IsHadronicTauDecay(l2),
      leg2isPrompt := IsPrompt(l2),
      mVisMeasured := mVis,
      mVis2Measured := Sq(mVis),
      probPS := 0.0,
      probFlightLength := 0.0);
    if !s.useTauFlightLength then base
    else
      var cov1 := LegDecayVertexCov(event, 0);
      var cov2 := LegDecayVertexCov(event, 1);
      base.(
        primaryVertex := event.primaryVertex,
        leg1decayVertexCov := cov1,
        leg1decayVertexCovInv := env.col.invertMatrix(cov1).0,
        leg2decayVertexCov := cov2,
        leg2decayVertexCovInv := env.col.invertMatrix(cov2).0,
        constFlightLength1 := ConstFlightLength(env.m, env.col.determinant(cov1)),
        constFlightLength2 := ConstFlightLength(env.m, env.col.determinant(cov2)),
        leg1leadChargedHadron := l1.leadChargedHadron,
        leg2leadChargedHadron := l2.leadChargedHadron)
  }

  /** After setMeasurement the legs are bound to the first two measured leptons, their
      flags agree, the fitted legs carry no error, the visible mass squared is stored with
      the mass, the cached probabilities are reset, and the configuration is kept. */
  lemma SetMeasurementBindsLegs(env: Env, s: IntegrandState, event: MeasuredEvent)
    requires MeasurementReady(s.useTauFlightLength, event)
    ensures var t := SetMeasurementSpec(env, s, event);
      LegsConsistent(t) &&
      t.measuredTauLepton1 == event.tauLeptons[0] && t.measuredTauLepton2 == event.tauLeptons[1] &&
      !t.fittedTauLepton1.hasError && !t.fittedTauLepton2.hasError &&
      t.mVis2Measured == Sq(t.mVisMeasured) &&
      t.probPS == 0.0 && t.probFlightLength == 0.0 &&
      t.measuredEvent == event
    ensures var t := SetMeasurementSpec(env, s, event);
      t.x == s.x && t.xMin == s.xMin && t.xMax == s.xMax && t.numDimensions == s.numDimensions &&
      t.legIntegrationParams == s.legIntegrationParams &&
      t.isCentral == s.isCentral && t.idxMEtSystematic == s.idxMEtSystematic &&
      t.useTauFlightLength == s.useTauFlightLength &&
      t.diTauMassConstraint == s.diTauMassConstraint && t.diTauMassConstraint2 == s.diTauMassConstraint2 &&
      t.addLogM == s.addLogM && t.addLogMPower == s.addLogMPower &&
      t.histogramAdapterAttached == s.histogramAdapterAttached && t.notified == s.notified
  {
  }

  /** With the flight length, a non-prompt leg that passed the checks has its leading
      charged hadron stored, and a regular vertex covariance gets a positive normalisation. */
  lemma SetMeasurementFlightLength(env: Env, s: IntegrandState, event: MeasuredEvent, i: nat)
    requires MeasurementReady(s.useTauFlightLength, event) && s.useTauFlightLength && i < NumTaus
    requires StateValid(s)
    requires MathLaws(env.m)
    ensures var t := SetMeasurementSpec(env, s, event);
      MissingLeadChargedHadron !in t.errorCode && !IsPrompt(event.tauLeptons[i]) ==>
        FlightLengthLegOf(t, i).leadChargedHadron.Some?
    ensures var t := SetMeasurementSpec(env, s, event);
      env.col.determinant(LegDecayVertexCov(event, i)) != 0.0 ==>
        0.0 < FlightLengthLegOf(t, i).constFlightLength
  {
    SetupErrorCodeBits(env.col, s.useTauFlightLength, event);
    var cov := LegDecayVertexCov(event, i);
    if env.col.determinant(cov) != 0.0 {
      ConstFlightLengthNormalises(env.m, env.col.determinant(cov));
    }
  }

  // ---------------------------------------------------------------------------------
  // Eval

  /** The missing-momentum alternative Eval uses: 0 for the central value, otherwise the
      systematic shift's index plus one. */
  function MEtIndex(s: IntegrandState): nat {
    if s.isCentral then 0 else s.idxMEtSystematic + 1
  }

  /** The missing-momentum alternative Eval selects exists and is well formed. */
  predicate MEtSelectable(s: IntegrandState) {
    MEtIndex(s) < |s.measuredEvent.mets| && MEtWellFormed(s.measuredEvent.mets[MEtIndex(s)])
  }

  /** What Eval needs: a valid state, physical constants and mathematical functions, and,
      unless setup failed, a point of the right dimension, ranges for it, the indices
      EvalPS and EvalFlightLength read, and the missing-momentum alternative it selects. */
  predicate EvalReady(env: Env, s: IntegrandState, q: seq<real>) {
    StateValid(s) && ConstantsLaws(env.c) &&
    (!HasSetupError(s.errorCode) ==>
      |q| >= s.numDimensions && |s.xMin| >= s.numDimensions && |s.xMax| >= s.numDimensions &&
      PSReady(s) && FlightLengthReady(s) && MEtSelectable(s))
  }

  datatype EvalOutcome = EvalOutcome(state: IntegrandState, prob: real)

  /** The state after EvalPS: its probability, error code and fitted legs stored. */
  function WithPS(s: IntegrandState, ps: PSOutcome): IntegrandState {
    s.(probPS := ps.prob, errorCode := ps.errorCode, fittedTauLepton1 := ps.fitted1, fittedTauLepton2 := ps.fitted2)
  }

  /** EvalPS keeps the fitted legs bound to their measured leptons, so what
      EvalFlightLength reads stays in place. */
  lemma PSKeepsFlightLengthReady(env: Env, s: IntegrandState)
    requires ConstantsLaws(env.c) && PSReady(s) && FlightLengthReady(s)
    ensures FlightLengthReady(WithPS(s, EvalPSSpec(env, s)))
    ensures MEtSelectable(s) ==> MEtSelectable(WithPS(s, EvalPSSpec(env, s)))
  {
    var t := WithPS(s, EvalPSSpec(env, s));
    assert FlightLengthLegOf(t, 0).fitted.measured == FlightLengthLegOf(s, 0).fitted.measured;
    assert FlightLengthLegOf(t, 1).fitted.measured == FlightLengthLegOf(s, 1).fitted.measured;
  }

  /** What Eval recomputes for the central value and the first systematic shift: EvalPS,
      then, unless a leg has no physical solution, EvalFlightLength on the new legs. */
  function RecomputeSpec(env: Env, s: IntegrandState): IntegrandState
    requires ConstantsLaws(env.c) && PSReady(s) && FlightLengthReady(s)
  {
    var s2 := WithPS(s, EvalPSSpec(env, s));
    PSKeepsFlightLengthReady(env, s);
    s2.(probFlightLength := if TauDecayParameters in s2.errorCode then s2.probFlightLength
                            else EvalFlightLengthSpec(env, s2))
  }

  /** When a leg has no physical solution, Eval keeps the flight-length probability. */
  lemma RecomputeRejects(env: Env, s: IntegrandState)
    requires ConstantsLaws(env.c) && PSReady(s) && FlightLengthReady(s)
    requires TauDecayParameters in EvalPSSpec(env, s).errorCode
    ensures RecomputeSpec(env, s) == WithPS(s, EvalPSSpec(env, s))
  {
  }

  /** Otherwise it evaluates the flight length on the state EvalPS left. */
  lemma RecomputeAccepts(env: Env, s: IntegrandState)
    requires ConstantsLaws(env.c) && PSReady(s) && FlightLengthReady(s)
    requires TauDecayParameters !in EvalPSSpec(env, s).errorCode
    ensures FlightLengthReady(WithPS(s, EvalPSSpec(env, s)))
    ensures var s2 := WithPS(s, EvalPSSpec(env, s));
      RecomputeSpec(env, s) == s2.(probFlightLength := EvalFlightLengthSpec(env, s2))
  {
    PSKeepsFlightLengthReady(env, s);
  }

  /** The last steps of Eval: give 0 when the cached probabilities are negligible,
      otherwise multiply in the missing-momentum transfer function and pass the fitted legs
      to the histogram adapter when the result is not negligible. */
  function CombineSpec(env: Env, s: IntegrandState): EvalOutcome
    requires MEtSelectable(s)
  {
    if Accumulate(s.probPS, s.probFlightLength) < 1.0e-300 then EvalOutcome(s, 0.0)
    else
      var probMEtTF := EvalMEtTFSpec(env.m, s.measuredEvent.mets[MEtIndex(s)], [s.fittedTauLepton1, s.fittedTauLepton2]);
      var prob := Accumulate(Accumulate(s.probPS, s.probFlightLength), probMEtTF);
      var notify := s.histogramAdapterAttached && prob > 1.0e-300;
      EvalOutcome(s.(notified := if notify then s.notified + [(s.fittedTauLepton1, s.fittedTauLepton2)] else s.notified),
                  prob)
  }

  /** The state after rescaleX(q). */
  function WithRescaledX(s: IntegrandState, q: seq<real>): IntegrandState
    requires |q| >= s.numDimensions && |s.xMin| >= s.numDimensions && |s.xMax| >= s.numDimensions
  {
    s.(x := RescaledX(s, q))
  }

  /** Rescaling keeps the size of x, so every index Eval reads stays in range. */
  lemma RescaleKeepsReady(env: Env, s: IntegrandState, q: seq<real>)
    requires EvalReady(env, s, q) && !HasSetupError(s.errorCode)
    ensures PSReady(WithRescaledX(s, q)) && FlightLengthReady(WithRescaledX(s, q))
    ensures MEtSelectable(WithRescaledX(s, q))
  {
    var s1 := WithRescaledX(s, q);
    assert |s1.x| == |s.x|;
    assert FlightLengthLegOf(s1, 0) == FlightLengthLegOf(s, 0);
    assert FlightLengthLegOf(s1, 1) == FlightLengthLegOf(s, 1);
  }

  /** Recomputing leaves the missing-momentum selection alone. */
  lemma RecomputeKeepsSelectable(env: Env, s: IntegrandState)
    requires ConstantsLaws(env.c) && PSReady(s) && FlightLengthReady(s) && MEtSelectable(s)
    ensures MEtSelectable(RecomputeSpec(env, s))
  {
    var t := RecomputeSpec(env, s);
    assert t.measuredEvent == s.measuredEvent && MEtIndex(t) == MEtIndex(s);
  }

  /** Eval(q). */
  function EvalSpec(env: Env, s: IntegrandState, q: seq<real>): EvalOutcome
    requires EvalReady(env, s, q)
  {
    if HasSetupError(s.errorCode) then EvalOutcome(s, 0.0)
    else
      var s1 := WithRescaledX(s, q);
      RescaleKeepsReady(env, s, q);
      if s1.isCentral || s1.idxMEtSystematic == 0 then
        var s3 := RecomputeSpec(env, s1);
        if TauDecayParameters in s3.errorCode then EvalOutcome(s3, 0.0)
        else
          RecomputeKeepsSelectable(env, s1);
          CombineSpec(env, s3)
      else CombineSpec(env, s1)
  }

  /** After a setup error Eval returns 0 and changes nothing. */
  lemma EvalAfterSetupError(env: Env, s: IntegrandState, q: seq<real>)
    requires EvalReady(env, s, q)
    requires MatrixInversion in s.errorCode || LeptonNumber in s.errorCode ||
             MissingVertex in s.errorCode || MissingLeadChargedHadron in s.errorCode
    ensures EvalSpec(env, s, q) == EvalOutcome(s, 0.0)
  {
    assert HasSetupError(s.errorCode);
  }

  /** For the central value and the first systematic shift, Eval rescales x, recomputes,
      and combines unless a leg failed. */
  lemma EvalRecomputeBranch(env: Env, s: IntegrandState, q: seq<real>)
    requires EvalReady(env, s, q) && !HasSetupError(s.errorCode)
    requires s.isCentral || s.idxMEtSystematic == 0
    ensures PSReady(WithRescaledX(s, q)) && FlightLengthReady(WithRescaledX(s, q))
    ensures MEtSelectable(RecomputeSpec(env, WithRescaledX(s, q)))
    ensures var r := RecomputeSpec(env, WithRescaledX(s, q));
      EvalSpec(env, s, q) == if TauDecayParameters in r.errorCode then EvalOutcome(r, 0.0) else CombineSpec(env, r)
  {
    RescaleKeepsReady(env, s, q);
    RecomputeKeepsSelectable(env, WithRescaledX(s, q));
  }

  /** For the other systematic shifts, Eval rescales x and combines the cached values. */
  lemma EvalReuseBranch(env: Env, s: IntegrandState, q: seq<real>)
    requires EvalReady(env, s, q) && !HasSetupError(s.errorCode)
    requires !(s.isCentral || s.idxMEtSystematic == 0)
    ensures MEtSelectable(WithRescaledX(s, q))
    ensures EvalSpec(env, s, q) == CombineSpec(env, WithRescaledX(s, q))
  {
    RescaleKeepsReady(env, s, q);
  }

  /** Combining only appends to the adapter's list. */
  lemma CombineKeeps(env: Env, s: IntegrandState)
    requires MEtSelectable(s)
    ensures var t := CombineSpec(env, s).state;
      t == s.(notified := t.notified)
  {
  }

  /** Recomputing stores EvalPS's probability, keeps x, the configuration and the
      event, and changes the error code only in the tau-decay-parameters flag. */
  lemma RecomputeCaches(env: Env, s: IntegrandState)
    requires ConstantsLaws(env.c) && PSReady(s) && FlightLengthReady(s)
    ensures var t := RecomputeSpec(env, s);
      t.x == s.x && t.legIntegrationParams == s.legIntegrationParams && t.measuredEvent == s.measuredEvent &&
      t.isCentral == s.isCentral && t.idxMEtSystematic == s.idxMEtSystematic &&
      t.probPS == EvalPSSpec(env, s).prob &&
      t.errorCode - {TauDecayParameters} == s.errorCode - {TauDecayParameters}
  {
    EvalPSErrorAndGates(env, s);
  }

  /** The central value and the first systematic shift recompute the phase-space and
      flight-length probabilities (RecomputeCaches says what that changes); apart from
      the histogram adapter's list nothing else changes. */
  lemma EvalRecomputes(env: Env, s: IntegrandState, q: seq<real>)
    requires EvalReady(env, s, q) && !HasSetupError(s.errorCode)
    requires s.isCentral || s.idxMEtSystematic == 0
    ensures PSReady(WithRescaledX(s, q)) && FlightLengthReady(WithRescaledX(s, q))
    ensures var t := EvalSpec(env, s, q).state;
      t == RecomputeSpec(env, WithRescaledX(s, q)).(notified := t.notified)
  {
    EvalRecomputeBranch(env, s, q);
    var s3 := RecomputeSpec(env, WithRescaledX(s, q));
    if TauDecayParameters !in s3.errorCode {
      CombineKeeps(env, s3);
    }
  }

  /** The other systematic shifts reuse the cached probabilities, the fitted legs and the
      error code: apart from the histogram adapter's list only x changes, to the
      rescaled point. */
  lemma EvalReuses(env: Env, s: IntegrandState, q: seq<real>)
    requires EvalReady(env, s, q) && !HasSetupError(s.errorCode)
    requires !(s.isCentral || s.idxMEtSystematic == 0)
    ensures var t := EvalSpec(env, s, q).state;
      t == s.(x := RescaledX(s, q), notified := t.notified)
  {
    EvalReuseBranch(env, s, q);
    CombineKeeps(env, WithRescaledX(s, q));
  }

  /** The product of the cached probabilities with the transfer function of the selected
      missing momentum, at the fitted legs of s. */
  function CombinedProduct(env: Env, s: IntegrandState): real
    requires MEtSelectable(s)
  {
    Accumulate(Accumulate(s.probPS, s.probFlightLength),
               EvalMEtTFSpec(env.m, s.measuredEvent.mets[MEtIndex(s)], [s.fittedTauLepton1, s.fittedTauLepton2]))
  }

  /** The product does not depend on the adapter's list. */
  lemma CombinedProductIgnoresNotified(env: Env, s: IntegrandState, n: seq<(FittedTauLepton, FittedTauLepton)>)
    requires MEtSelectable(s)
    ensures MEtSelectable(s.(notified := n))
    ensures CombinedProduct(env, s.(notified := n)) == CombinedProduct(env, s)
  {
    var t := s.(notified := n);
    assert MEtIndex(t) == MEtIndex(s) && t.measuredEvent == s.measuredEvent;
    assert [t.fittedTauLepton1, t.fittedTauLepton2] == [s.fittedTauLepton1, s.fittedTauLepton2];
  }

  /** Combining gives 0 or the product, which holds at the state it leaves; the adapter
      receives the fitted legs exactly when it is attached and the result exceeds 1e-300. */
  lemma CombineResult(env: Env, s: IntegrandState)
    requires MEtSelectable(s)
    ensures var out := CombineSpec(env, s);
      out.prob == 0.0 || (MEtSelectable(out.state) && out.prob == CombinedProduct(env, out.state))
    ensures var out := CombineSpec(env, s);
      if s.histogramAdapterAttached && out.prob > 1.0e-300
      then out.state.notified == s.notified + [(s.fittedTauLepton1, s.fittedTauLepton2)]
      else out.state.notified == s.notified
  {
    if Accumulate(s.probPS, s.probFlightLength) < 1.0e-300 {
      assert CombineSpec(env, s) == EvalOutcome(s, 0.0);
    } else {
      var prob := CombinedProduct(env, s);
      var notify := s.histogramAdapterAttached && prob > 1.0e-300;
      var n := if notify then s.notified + [(s.fittedTauLepton1, s.fittedTauLepton2)] else s.notified;
      assert CombineSpec(env, s) == EvalOutcome(s.(notified := n), prob);
      CombinedProductIgnoresNotified(env, s, n);
    }
  }

  /** Combining after a recomputation in which no leg failed. */
  lemma EvalRecomputedResult(env: Env, s: IntegrandState, q: seq<real>)
    requires EvalReady(env, s, q) && !HasSetupError(s.errorCode)
    requires s.isCentral || s.idxMEtSystematic == 0
    requires TauDecayParameters !in RecomputeSpec(env, WithRescaledX(s, q)).errorCode
    ensures var out := EvalSpec(env, s, q);
      out.prob == 0.0 || (MEtSelectable(out.state) && out.prob == CombinedProduct(env, out.state))
    ensures var out := EvalSpec(env, s, q);
      if s.histogramAdapterAttached && out.prob > 1.0e-300
      then out.state.notified == s.notified + [(out.state.fittedTauLepton1, out.state.fittedTauLepton2)]
      else out.state.notified == s.notified
  {
    EvalRecomputeBranch(env, s, q);
    CombineResult(env, RecomputeSpec(env, WithRescaledX(s, q)));
  }

  /** A leg without a physical solution ends Eval with 0 and no notification. */
  lemma EvalRejectedResult(env: Env, s: IntegrandState, q: seq<real>)
    requires EvalReady(env, s, q) && !HasSetupError(s.errorCode)
    requires s.isCentral || s.idxMEtSystematic == 0
    requires TauDecayParameters in RecomputeSpec(env, WithRescaledX(s, q)).errorCode
    ensures EvalSpec(env, s, q).prob == 0.0
    ensures EvalSpec(env, s, q).state == RecomputeSpec(env, WithRescaledX(s, q))
    ensures EvalSpec(env, s, q).state.notified == s.notified
  {
    EvalRecomputeBranch(env, s, q);
  }

  /** Combining the cached values of a systematic shift other than the first. */
  lemma EvalReusedResult(env: Env, s: IntegrandState, q: seq<real>)
    requires EvalReady(env, s, q) && !HasSetupError(s.errorCode)
    requires !(s.isCentral || s.idxMEtSystematic == 0)
    ensures var out := EvalSpec(env, s, q);
      out.prob == 0.0 || (MEtSelectable(out.state) && out.prob == CombinedProduct(env, out.state))
    ensures var out := EvalSpec(env, s, q);
      if s.histogramAdapterAttached && out.prob > 1.0e-300
      then out.state.notified == s.notified + [(out.state.fittedTauLepton1, out.state.fittedTauLepton2)]
      else out.state.notified == s.notified
  {
    EvalReuseBranch(env, s, q);
    CombineResult(env, WithRescaledX(s, q));
  }

  /** The result is 0 or the product of the cached phase-space and flight-length
      probabilities with the transfer function of the selected missing momentum; the
      histogram adapter receives the fitted legs exactly when it is attached and the
      result exceeds 1e-300, and nothing else is appended. */
  lemma EvalResultAndNotification(env: Env, s: IntegrandState, q: seq<real>)
    requires EvalReady(env, s, q)
    ensures var out := EvalSpec(env, s, q);
      out.prob == 0.0 || (MEtSelectable(out.state) && out.prob == CombinedProduct(env, out.state))
    ensures var out := EvalSpec(env, s, q);
      if s.histogramAdapterAttached && out.prob > 1.0e-300
      then out.state.notified == s.notified + [(out.state.fittedTauLepton1, out.state.fittedTauLepton2)]
      else out.state.notified == s.notified
  {
    if HasSetupError(s.errorCode) {
      EvalAfterSetupError(env, s, q);
    } else if s.isCentral || s.idxMEtSystematic == 0 {
      RescaleKeepsReady(env, s, q);
      if TauDecayParameters !in RecomputeSpec(env, WithRescaledX(s, q)).errorCode {
        EvalRecomputedResult(env, s, q);
      } else {
        EvalRejectedResult(env, s, q);
      }
    } else {
      EvalReusedResult(env, s, q);
    }
  }

  /** What the non-negativity of Eval's results rests on: physical legs bound to the
      measured leptons, kinematics with non-negative energies, mathematical functions
      with their laws, non-empty decay-length ranges, and non-negative cached values and
      normalisations. */
  ghost predicate NonNegativeSetting(env: Env, s: IntegrandState) {
    EnvLaws(env) && SolverLaws(env.solver) && DecayLengthRangeLaw(env.col) && LegsConsistent(s) &&
    LegPhysical(env.c, s.measuredTauLepton1) && LegPhysical(env.c, s.measuredTauLepton2) &&
    0.0 <= s.probPS && 0.0 <= s.probFlightLength &&
    0.0 <= s.constFlightLength1 && 0.0 <= s.constFlightLength2 &&
    (forall i :: 0 <= i < |s.measuredEvent.mets| ==> 0.0 <= s.measuredEvent.mets[i].constMEt)
  }

  /** Recomputing keeps both cached probabilities non-negative. */
  lemma RecomputeNonNegative(env: Env, s: IntegrandState)
    requires ConstantsLaws(env.c) && PSReady(s) && FlightLengthReady(s) && NonNegativeSetting(env, s)
    ensures 0.0 <= RecomputeSpec(env, s).probPS && 0.0 <= RecomputeSpec(env, s).probFlightLength
  {
    EvalPSNonNegative(env, s);
    var s2 := WithPS(s, EvalPSSpec(env, s));
    PSKeepsFlightLengthReady(env, s);
    if TauDecayParameters !in s2.errorCode {
      EvalFlightLengthBounds(env, s2);
    }
  }

  /** With non-negative cached probabilities and normalisation, combining gives a
      non-negative result. */
  lemma CombineNonNegative(env: Env, s: IntegrandState)
    requires ExpLaw(env.m) && MEtSelectable(s)
    requires 0.0 <= s.probPS && 0.0 <= s.probFlightLength && 0.0 <= s.measuredEvent.mets[MEtIndex(s)].constMEt
    ensures 0.0 <= CombineSpec(env, s).prob
  {
    var a := Accumulate(s.probPS, s.probFlightLength);
    ProductBounds(s.probPS, s.probFlightLength, s.probPS, s.probFlightLength);
    var met := s.measuredEvent.mets[MEtIndex(s)];
    var legs := [s.fittedTauLepton1, s.fittedTauLepton2];
    MEtTFBounds(env.m, met, legs);
    ProductBounds(a, EvalMEtTFSpec(env.m, met, legs), a, EvalMEtTFSpec(env.m, met, legs));
  }

  /** Rescaling leaves the setting alone. */
  lemma RescaleKeepsSetting(env: Env, s: IntegrandState, q: seq<real>)
    requires EvalReady(env, s, q) && !HasSetupError(s.errorCode) && NonNegativeSetting(env, s)
    ensures NonNegativeSetting(env, WithRescaledX(s, q))
  {
  }

  lemma EvalRecomputedNonNegative(env: Env, s: IntegrandState, q: seq<real>)
    requires EvalReady(env, s, q) && !HasSetupError(s.errorCode) && NonNegativeSetting(env, s)
    requires s.isCentral || s.idxMEtSystematic == 0
    requires TauDecayParameters !in RecomputeSpec(env, WithRescaledX(s, q)).errorCode
    ensures var out := EvalSpec(env, s, q);
      0.0 <= out.prob && 0.0 <= out.state.probPS && 0.0 <= out.state.probFlightLength
  {
    EvalRecomputeBranch(env, s, q);
    RescaleKeepsSetting(env, s, q);
    var s1 := WithRescaledX(s, q);
    RecomputeNonNegative(env, s1);
    var r := RecomputeSpec(env, s1);
    assert r.measuredEvent == s.measuredEvent && MEtIndex(r) == MEtIndex(s);
    CombineNonNegative(env, r);
    CombineKeeps(env, r);
  }

  lemma EvalReusedNonNegative(env: Env, s: IntegrandState, q: seq<real>)
    requires EvalReady(env, s, q) && !HasSetupError(s.errorCode) && NonNegativeSetting(env, s)
    requires !(s.isCentral || s.idxMEtSystematic == 0)
    ensures var out := EvalSpec(env, s, q);
      0.0 <= out.prob && 0.0 <= out.state.probPS && 0.0 <= out.state.probFlightLength
  {
    EvalReuseBranch(env, s, q);
    var s1 := WithRescaledX(s, q);
    CombineNonNegative(env, s1);
    CombineKeeps(env, s1);
  }

  /** Eval never returns a negative value, and keeps the cached probabilities
      non-negative, in the setting NonNegativeSetting describes. */
  lemma EvalNonNegative(env: Env, s: IntegrandState, q: seq<real>)
    requires EvalReady(env, s, q) && NonNegativeSetting(env, s)
    ensures var out := EvalSpec(env, s, q);
      0.0 <= out.prob && 0.0 <= out.state.probPS && 0.0 <= out.state.probFlightLength
  {
    if HasSetupError(s.errorCode) {
      EvalAfterSetupError(env, s, q);
    } else if s.isCentral || s.idxMEtSystematic == 0 {
      RescaleKeepsReady(env, s, q);
      if TauDecayParameters !in RecomputeSpec(env, WithRescaledX(s, q)).errorCode {
        EvalRecomputedNonNegative(env, s, q);
      } else {
        EvalRejectedResult(env, s, q);
        RescaleKeepsSetting(env, s, q);
        RecomputeNonNegative(env, WithRescaledX(s, q));
      }
    } else {
      EvalReusedNonNegative(env, s, q);
    }
  }

  // ---------------------------------------------------------------------------------
  // The integrand object

  /** EvalPS's loop over the legs: the product of their decay densities. */
  method TauDecayDensities(env: Env, legs: seq<FittedTauLepton>) returns (probTauDecay: Num)
    requires ConstantsLaws(env.c)
    ensures probTauDecay == DensityProduct(env, legs)
  {
    probTauDecay := Finite(1.0);
    for iTau := 0 to |legs|
      invariant probTauDecay == DensityProduct(env, legs[..iTau])
    {
      assert legs[..iTau + 1][..iTau] == legs[..iTau];
      probTauDecay := MulNum(probTauDecay, DecayDensity(env, legs[iTau]));
    }
    assert legs[..|legs|] == legs;
  }

  /** The body of EvalPS on the integrand's state: clear the TauDecayParameters bit, set
      the visible momenta, solve the two legs in turn, leaving early with 0 where the
      source returns 0, and combine the decay densities. */
  method PhaseSpaceProbability(env: Env, s: IntegrandState)
    returns (prob: real, code: ErrorCode, f1: FittedTauLepton, f2: FittedTauLepton)
    requires ConstantsLaws(env.c) && PSReady(s)
    ensures PSOutcome(prob, code, f1, f2) == EvalPSSpec(env, s)
  {
    code := ClearTauDecayParameters(s.errorCode);
    f1 := UpdateVisMomentum(env.solver, s.fittedTauLepton1, 1.0);
    f2 := UpdateVisMomentum(env.solver, s.fittedTauLepton2, 1.0);
    prob := 0.0;
    var x1dash := 1.0;
    if !s.leg1isPrompt {
      x1dash := s.x[s.legIntegrationParams[0].idxX];
    }
    var x1 := x1dash;
    if !(x1 >= 1.0e-5 && x1 <= 1.0) {
      assert PSOutcome(prob, code, f1, f2) == EvalPSSpec(env, s);
      return;
    }
    if !s.leg1isPrompt {
      var p1 := s.legIntegrationParams[0];
      var phiNu1 := s.x[p1.idxPhi];
      var nu1Mass := if p1.idxMNuNu != AbsentIndex then env.m.sqrt(s.x[p1.idxMNuNu]) else 0.0;
      f1 := UpdateTauMomentum(env.solver, f1, x1, phiNu1, nu1Mass);
      if f1.hasError {
        code := code + {TauDecayParameters};
        assert PSOutcome(prob, code, f1, f2) == EvalPSSpec(env, s);
        return;
      }
    }
    assert EvalPSSpec(env, s) == PSSecondLeg(env, s, code, x1, f1, f2);
    ghost var code1, g1, f2before := code, f1, f2;

    var x2dash := Finite(1.0);
    if !s.leg2isPrompt {
      var idxX2 := s.legIntegrationParams[1].idxX;
      if idxX2 != AbsentIndex {
        x2dash := Finite(s.x[idxX2]);
      } else if s.diTauMassConstraint2 == 0.0 {
        x2dash := NonFinite;
      } else {
        x2dash := Finite((s.mVis2Measured / s.diTauMassConstraint2) / x1dash);
      }
    }
    assert x2dash == X2Dash(s, x1);
    if !(x2dash.Finite? && x2dash.v >= 1.0e-5 && x2dash.v <= 1.0) {
      PSSecondLegRejected(env, s, code1, x1, g1, f2before);
      return;
    }
    var x2 := x2dash.v;
    if !s.leg2isPrompt {
      var p2 := s.legIntegrationParams[1];
      var phiNu2 := s.x[p2.idxPhi];
      var nu2Mass := if p2.idxMNuNu != AbsentIndex then env.m.sqrt(s.x[p2.idxMNuNu]) else 0.0;
      f2 := UpdateTauMomentum(env.solver, f2, x2, phiNu2, nu2Mass);
      if f2.hasError {
        code := code + {TauDecayParameters};
        PSSecondLegUnsolved(env, s, code1, x1, g1, f2before, x2, f2);
        return;
      }
    }
    assert f2 == SecondLegSolution(env, s, x2, f2before);

    var probTauDecay := TauDecayDensities(env, [f1, f2]);
    if probTauDecay.NonFinite? {
      PSSecondLegNonFinite(env, s, code1, x1, g1, f2before, x2, f2);
      return;
    }
    var mTauTau := Mass(env.m, Add(f1.tauP4, f2.tauP4));
    var probLogM := LogMFactor(env.m, s.addLogM, s.addLogMPower, mTauTau);
    var jacobiFactor := MassConstraintJacobian(s.diTauMassConstraint, x2);
    prob := PSWeight(env.c, probTauDecay.v, probLogM, jacobiFactor);
    PSSecondLegProduct(env, s, code1, x1, g1, f2before, x2, f2, probTauDecay.v);
  }

  /** A default-constructed MeasuredEvent. */
  const EmptyEvent: MeasuredEvent := MeasuredEvent([], [], false, Zero3, [], false)

  /** A fitted leg before any measurement: a prompt placeholder lepton at rest. */
  const UnboundLepton: MeasuredTauLepton :=
    MeasuredTauLepton(Prompt, 0, Zero4, 0.0, 0, false, Zero3, [], false, None)
  const UnboundFittedLeg: FittedTauLepton :=
    FittedTauLepton(UnboundLepton, Zero4, Zero4, Zero4, 0.0, 0.0, false)

  /** EvalFlightLength's loop over the legs, on the integrand's state: prompt legs are
      skipped, every other leg multiplies in its flight-length factor. */
  method FlightLengthProbability(env: Env, s: IntegrandState) returns (prob: real)
    requires ConstantsLaws(env.c) && FlightLengthReady(s)
    ensures prob == EvalFlightLengthSpec(env, s)
  {
    if !s.useTauFlightLength {
      return 1.0;
    }
    prob := 1.0;
    for iTau := 0 to NumTaus
      invariant prob == FlightLengthProduct(env, s, iTau)
    {
      var leg := FlightLengthLegOf(s, iTau);
      FlightLengthProductStep(env, s, iTau);
      if IsPrompt(leg.fitted.measured) {
        continue;
      }
      var probI := LegFlightLengthProbability(env, s, leg);
      prob := Accumulate(prob, probI);
    }
  }

  /** The body of EvalFlightLength's loop for one non-prompt leg. */
  method LegFlightLengthProbability(env: Env, s: IntegrandState, leg: FlightLengthLeg) returns (probI: real)
    requires ConstantsLaws(env.c) && LegFlightLengthReady(leg, |s.x|) && !IsPrompt(leg.fitted.measured)
    ensures probI == FlightLengthFactor(env, s, leg)
  {
    var measured := leg.fitted.measured;
    var tauP4 := leg.fitted.tauP4;
    var pca := env.col.compPCA(tauP4, measured, leg.leadChargedHadron.value, s.primaryVertex,
                               measured.decayVertex, leg.covInv);
    var flightLength := Minus(pca, s.primaryVertex);
    var dminAndDmax := env.col.compDminDmax(tauP4, flightLength, leg.cov);
    var dmin := dminAndDmax.0;
    var dmax := dminAndDmax.1;
    var xFlightLength := s.x[leg.idxFlightLength];
    var d := Rescale(xFlightLength, dmin, dmax);
    var probExpDecay := ExpDecayDensity(env.m, env.c, tauP4.e, d);
    var eTau := Normalize(env.m, Vect(tauP4));
    var residual := Minus(Minus(measured.decayVertex, s.primaryVertex), Times(eTau, d));
    var pull2 := QuadraticForm(leg.covInv, [residual.x, residual.y, residual.z]);
    var probTF := GaussianTF(env.m, leg.constFlightLength, pull2);
    var jacobiFactor := dmax - dmin;
    probI := FlightLengthWeight(probExpDecay, probTF, jacobiFactor);
  }

  class ClassicSVfitIntegrand {
    var fittedTauLepton1: FittedTauLepton
    var fittedTauLepton2: FittedTauLepton
    var measurement: Measurement
    var isCentral: bool
    var idxMEtSystematic: nat
    var useTauFlightLength: bool
    var diTauMassConstraint: real
    var diTauMassConstraint2: real
    var addLogM: bool
    var addLogMPower: real
    var numDimensions: nat
    var errorCode: ErrorCode
    var probPS: real
    var probFlightLength: real
    var histogramAdapterAttached: bool
    var legIntegrationParams: seq<LegIndices>
    var x: seq<real>
    var xMin: seq<real>
    var xMax: seq<real>
    var notified: seq<(FittedTauLepton, FittedTauLepton)>

    function State(): IntegrandState
      reads this
    {
      IntegrandState(
        fittedTauLepton1, fittedTauLepton2, measurement.leg1leadChargedHadron, measurement.leg2leadChargedHadron,
        isCentral, idxMEtSystematic, useTauFlightLength, measurement.constFlightLength1, measurement.constFlightLength2,
        diTauMassConstraint, diTauMassConstraint2, addLogM, addLogMPower, numDimensions,
        errorCode, probPS, probFlightLength, histogramAdapterAttached, legIntegrationParams,
        measurement.measuredEvent, measurement.measuredTauLepton1, measurement.measuredTauLepton2,
        measurement.leg1isLeptonicTauDecay, measurement.leg1isHadronicTauDecay, measurement.leg1isPrompt,
        measurement.leg2isLeptonicTauDecay, measurement.leg2isHadronicTauDecay, measurement.leg2isPrompt,
        measurement.mVisMeasured, measurement.mVis2Measured, measurement.primaryVertex,
        measurement.leg1decayVertexCov, measurement.leg1decayVertexCovInv, measurement.leg2decayVertexCov, measurement.leg2decayVertexCovInv,
        x, xMin, xMax, notified)
    }

    /** The constructor: central value, no flight length, no mass constraint, the log(M)
        term on with power 6, no dimensions, no error, both legs' indices absent. */
    constructor ()
      ensures StateValid(State())
      ensures isCentral && idxMEtSystematic == 0 && !useTauFlightLength
      ensures diTauMassConstraint == -1.0 && addLogM && addLogMPower == 6.0
      ensures numDimensions == 0 && errorCode == NoError && probPS == 0.0 && probFlightLength == 0.0
      ensures measurement.constFlightLength1 == 0.0 && measurement.constFlightLength2 == 0.0
      ensures measurement.leg1leadChargedHadron == None && measurement.leg2leadChargedHadron == None
      ensures !histogramAdapterAttached && notified == []
      ensures legIntegrationParams == [AbsentLegIndices, AbsentLegIndices]
    {
      fittedTauLepton1 := UnboundFittedLeg;
      fittedTauLepton2 := UnboundFittedLeg;
      isCentral := true;
      idxMEtSystematic := 0;
      useTauFlightLength := false;
      diTauMassConstraint := -1.0;
      diTauMassConstraint2 := -1.0;
      addLogM := false;
      addLogMPower := 0.0;
      numDimensions := 0;
      errorCode := NoError;
      probPS := 0.0;
      probFlightLength := 0.0;
      histogramAdapterAttached := false;
      legIntegrationParams := [AbsentLegIndices, AbsentLegIndices];
      measurement := Measurement(EmptyEvent, UnboundLepton, UnboundLepton,
        false, false, false, false, false, false, 0.0, 0.0, Zero3, [], [], [], [], 0.0, 0.0, None, None);
      x := [];
      xMin := [];
      xMax := [];
      notified := [];
      new;
      addLogM := true;
      addLogMPower := 6.0;
    }

    method SetCentral()
      modifies this`isCentral, this`idxMEtSystematic
      ensures isCentral && idxMEtSystematic == 0
    {
      isCentral := true;
      idxMEtSystematic := 0;
    }

    method SetMEtSystematic(idx: nat)
      modifies this`isCentral, this`idxMEtSystematic
      ensures !isCentral && idxMEtSystematic == idx
    {
      isCentral := false;
      idxMEtSystematic := idx;
    }

    method EnableTauFlightLength()
      modifies this`useTauFlightLength
      ensures useTauFlightLength
    {
      useTauFlightLength := true;
    }

    method DisableTauFlightLength()
      modifies this`useTauFlightLength
      ensures !useTauFlightLength
    {
      useTauFlightLength := false;
    }

    /** The constraint and its square are stored together. */
    method EnableDiTauMassConstraint(diTauMass: real)
      modifies this`diTauMassConstraint, this`diTauMassConstraint2
      ensures diTauMassConstraint == diTauMass && diTauMassConstraint2 == Sq(diTauMass)
    {
      diTauMassConstraint := diTauMass;
      diTauMassConstraint2 := Sq(diTauMassConstraint);
    }

    method DisableDiTauMassConstraint()
      modifies this`diTauMassConstraint, this`diTauMassConstraint2
      ensures diTauMassConstraint == -1.0 && diTauMassConstraint2 == -1.0
    {
      diTauMassConstraint := -1.0;
      diTauMassConstraint2 := -1.0;
    }

    method EnableLogM(power: real)
      modifies this`addLogM, this`addLogMPower
      ensures addLogM && addLogMPower == power
    {
      addLogM := true;
      addLogMPower := power;
    }

    method DisableLogM()
      modifies this`addLogM, this`addLogMPower
      ensures !addLogM && addLogMPower == 0.0
    {
      addLogM := false;
      addLogMPower := 0.0;
    }

    /** setHistogramAdapter: attaching or detaching (a null pointer) the adapter. */
    method SetHistogramAdapter(attached: bool)
      modifies this`histogramAdapterAttached
      ensures histogramAdapterAttached == attached
    {
      histogramAdapterAttached := attached;
    }

    method InitializeLegIntegrationParams(iLeg: nat, params: LegIndices)
      requires iLeg < |legIntegrationParams|
      modifies this`legIntegrationParams
      ensures legIntegrationParams == old(legIntegrationParams)[iLeg := params]
    {
      legIntegrationParams := legIntegrationParams[iLeg := params];
    }

    /** setNumDimensions: x_ is resized, keeping its first entries and padding with 0. */
    method SetNumDimensions(n: nat)
      requires StateValid(State()) && n <= MaxNumberOfDimensions
      modifies this`numDimensions, this`x
      ensures StateValid(State())
      ensures numDimensions == n && x == Resized(old(x), n)
    {
      numDimensions := n;
      x := Resized(x, n);
    }

    method SetIntegrationRanges(xl: seq<real>, xh: seq<real>)
      modifies this`xMin, this`xMax
      ensures xMin == xl && xMax == xh
    {
      xMin := xl;
      xMax := xh;
    }

    /** rescaleX(q). */
    method RescaleX(q: seq<real>)
      requires StateValid(State())
      requires |q| >= numDimensions && |xMin| >= numDimensions && |xMax| >= numDimensions
      modifies this`x
      ensures x == RescaledX(old(State()), q)
    {
      x := RescalePoint(State(), q);
    }

    /** EvalPS(): returns the phase-space probability; stores the fitted legs and the
        error code PhaseSpaceProbability computes on the integrand's state. */
    method EvalPS(env: Env) returns (prob: real)
      requires ConstantsLaws(env.c) && PSReady(State())
      modifies this`errorCode, this`fittedTauLepton1, this`fittedTauLepton2
      ensures var out := EvalPSSpec(env, old(State()));
        prob == out.prob && errorCode == out.errorCode &&
        fittedTauLepton1 == out.fitted1 && fittedTauLepton2 == out.fitted2
    {
      var code, f1, f2;
      prob, code, f1, f2 := PhaseSpaceProbability(env, State());
      StorePS(code, f1, f2);
    }

    /** Stores what EvalPS computed: the error code and both fitted legs. */
    method StorePS(code: ErrorCode, f1: FittedTauLepton, f2: FittedTauLepton)
      modifies this`errorCode, this`fittedTauLepton1, this`fittedTauLepton2
      ensures errorCode == code && fittedTauLepton1 == f1 && fittedTauLepton2 == f2
    {
      errorCode := code;
      fittedTauLepton1 := f1;
      fittedTauLepton2 := f2;
    }

    /** EvalFlightLength(): changes nothing. */
    method EvalFlightLength(env: Env) returns (prob: real)
      requires ConstantsLaws(env.c) && FlightLengthReady(State())
      ensures prob == EvalFlightLengthSpec(env, State())
    {
      prob := FlightLengthProbability(env, State());
    }

    /** EvalMEtTF(measuredMEt): changes nothing. */
    method EvalMEtTF(env: Env, met: MeasuredMEt) returns (prob: real)
      requires MEtWellFormed(met)
      ensures prob == EvalMEtTFSpec(env.m, met, [fittedTauLepton1, fittedTauLepton2])
    {
      prob := MEtTransferFunction(env, met, [fittedTauLepton1, fittedTauLepton2]);
    }

    /** setMeasurement(measuredEvent): the new values are computed on a value of the state,
        then stored. */
    method SetMeasurement(env: Env, event: MeasuredEvent)
      requires MeasurementReady(useTauFlightLength, event)
      modifies this`measurement, this`errorCode, this`probPS, this`probFlightLength
      modifies this`fittedTauLepton1, this`fittedTauLepton2
      ensures var t := SetMeasurementSpec(env, old(State()), event);
        measurement == MeasurementOf(t) && errorCode == t.errorCode &&
        probPS == t.probPS && probFlightLength == t.probFlightLength &&
        fittedTauLepton1 == t.fittedTauLepton1 && fittedTauLepton2 == t.fittedTauLepton2
    {
      var t := MeasuredState(env, State(), event);
      measurement := MeasurementOf(t);
      fittedTauLepton1 := t.fittedTauLepton1;
      fittedTauLepton2 := t.fittedTauLepton2;
      errorCode := t.errorCode;
      probPS := t.probPS;
      probFlightLength := t.probFlightLength;
    }

    /** The fields Eval writes hold the values of the state t; the others are kept by the
        frame of Eval, and EvalRecomputes and EvalReuses show that the specification keeps
        them as well. */
    predicate EvalFieldsAre(t: IntegrandState)
      reads this
    {
      x == t.x && probPS == t.probPS && errorCode == t.errorCode &&
      fittedTauLepton1 == t.fittedTauLepton1 && fittedTauLepton2 == t.fittedTauLepton2 &&
      probFlightLength == t.probFlightLength && notified == t.notified
    }

    /** Eval(q): the state is read once, the integrand evaluated on that value, and the
        fields Eval changes stored. */
    method Eval(env: Env, q: seq<real>) returns (prob: real)
      requires EvalReady(env, State(), q)
      modifies this`x, this`probPS, this`errorCode, this`fittedTauLepton1, this`fittedTauLepton2
      modifies this`probFlightLength, this`notified
      ensures prob == EvalSpec(env, old(State()), q).prob
      ensures EvalFieldsAre(EvalSpec(env, old(State()), q).state)
    {
      var out := Evaluate(env, State(), q);
      x := out.state.x;
      probPS := out.state.probPS;
      errorCode := out.state.errorCode;
      fittedTauLepton1 := out.state.fittedTauLepton1;
      fittedTauLepton2 := out.state.fittedTauLepton2;
      probFlightLength := out.state.probFlightLength;
      notified := out.state.notified;
      prob := out.prob;
    }
  }

  /** rescaleX: each coordinate of q mapped affinely onto its integration range. */
  method RescalePoint(s: IntegrandState, q: seq<real>) returns (xs: seq<real>)
    requires StateValid(s)
    requires |q| >= s.numDimensions && |s.xMin| >= s.numDimensions && |s.xMax| >= s.numDimensions
    ensures xs == RescaledX(s, q)
  {
    xs := s.x;
    for iDimension := 0 to s.numDimensions
      invariant |xs| == s.numDimensions
      invariant forall j :: 0 <= j < iDimension ==> xs[j] == Rescale(q[j], s.xMin[j], s.xMax[j])
    {
      var qi := q[iDimension];
      xs := xs[iDimension := (1.0 - qi) * s.xMin[iDimension] + qi * s.xMax[iDimension]];
    }
  }

  /** The central branch of Eval: EvalPS, then, unless a leg has no physical solution,
      EvalFlightLength on the legs EvalPS fitted. */
  method Recomputed(env: Env, s: IntegrandState) returns (r: IntegrandState)
    requires ConstantsLaws(env.c) && PSReady(s) && FlightLengthReady(s)
    ensures r == RecomputeSpec(env, s)
  {
    var prob, code, f1, f2 := PhaseSpaceProbability(env, s);
    r := s.(probPS := prob, errorCode := code, fittedTauLepton1 := f1, fittedTauLepton2 := f2);
    if TauDecayParameters in code {
      RecomputeRejects(env, s);
      return;
    }
    RecomputeAccepts(env, s);
    var probFlightLength := FlightLengthProbability(env, r);
    r := r.(probFlightLength := probFlightLength);
  }

  /** The end of Eval: 0 when the cached probabilities are negligible, otherwise their
      product with the missing-momentum transfer function, and the adapter given the
      fitted legs when that product is above 1e-300. */
  method Combined(env: Env, s: IntegrandState) returns (out: EvalOutcome)
    requires MEtSelectable(s)
    ensures out == CombineSpec(env, s)
  {
    ghost var spec := CombineSpec(env, s);
    if Accumulate(s.probPS, s.probFlightLength) < 1.0e-300 {
      return EvalOutcome(s, 0.0);
    }
    var idxMeasuredMEt := MEtIndex(s);
    var probMEtTF := MEtTransferFunction(env, s.measuredEvent.mets[idxMeasuredMEt], [s.fittedTauLepton1, s.fittedTauLepton2]);
    var prob := Accumulate(Accumulate(s.probPS, s.probFlightLength), probMEtTF);
    var notify := s.histogramAdapterAttached && prob > 1.0e-300;
    out := EvalOutcome(s.(notified := if notify then s.notified + [(s.fittedTauLepton1, s.fittedTauLepton2)] else s.notified), prob);
    assert spec.prob == prob;
  }

  /** Eval on a value of the integrand's state: nothing on a setup error; otherwise rescale
      x, recompute the cached probabilities for the central value and the first systematic
      shift (0 when a leg has no physical solution), and combine. */
  method Evaluate(env: Env, s: IntegrandState, q: seq<real>) returns (out: EvalOutcome)
    requires EvalReady(env, s, q)
    ensures out == EvalSpec(env, s, q)
  {
    if MatrixInversion in s.errorCode || LeptonNumber in s.errorCode ||
       MissingVertex in s.errorCode || MissingLeadChargedHadron in s.errorCode {
      EvalAfterSetupError(env, s, q);
      return EvalOutcome(s, 0.0);
    }
    var xs := RescalePoint(s, q);
    var s1 := s.(x := xs);
    if s1.isCentral || s1.idxMEtSystematic == 0 {
      EvalRecomputeBranch(env, s, q);
      var r := Recomputed(env, s1);
      if TauDecayParameters in r.errorCode {
        return EvalOutcome(r, 0.0);
      }
      out := Combined(env, r);
    } else {
      EvalReuseBranch(env, s, q);
      out := Combined(env, s1);
    }
  }

  /** setMeasurement on a value of the integrand's state: bind both legs to the first two
      measured leptons, take the visible mass, run the setup checks and, with the flight
      length, combine each decay vertex's covariance with the primary vertex's; the cached
      probabilities are reset. */
  method MeasuredState(env: Env, s: IntegrandState, event: MeasuredEvent) returns (t: IntegrandState)
    requires MeasurementReady(s.useTauFlightLength, event)
    ensures t == SetMeasurementSpec(env, s, event)
  {
    var code := SetupChecks(env, s.useTauFlightLength, event);
    var leptons := event.tauLeptons;
    var measuredTauLepton1 := leptons[0];
    var measuredTauLepton2 := leptons[1];
    var mVisMeasured := Mass(env.m, Add(measuredTauLepton1.p4, measuredTauLepton2.p4));
    t := s.(
      measuredEvent := event,
      errorCode := code,
      measuredTauLepton1 := measuredTauLepton1,
      fittedTauLepton1 := SetMeasuredTauLepton(s.fittedTauLepton1, measuredTauLepton1),
      leg1isLeptonicTauDecay := IsLeptonicTauDecay(measuredTauLepton1),
      leg1isHadronicTauDecay := IsHadronicTauDecay(measuredTauLepton1),
      leg1isPrompt := IsPrompt(measuredTauLepton1),
      measuredTauLepton2 := measuredTauLepton2,
      fittedTauLepton2 := SetMeasuredTauLepton(s.fittedTauLepton2, measuredTauLepton2),
      leg2isLeptonicTauDecay := IsLeptonicTauDecay(measuredTauLepton2),
      leg2isHadronicTauDecay := IsHadronicTauDecay(measuredTauLepton2),
      leg2isPrompt := IsPrompt(measuredTauLepton2),
      mVisMeasured := mVisMeasured,
      mVis2Measured := Sq(mVisMeasured),
      probPS := 0.0,
      probFlightLength := 0.0);
    if s.useTauFlightLength {
      var leg1decayVertexCov := MatAdd(measuredTauLepton1.decayVertexCov, event.primaryVertexCov, 3);
      var leg2decayVertexCov := MatAdd(measuredTauLepton2.decayVertexCov, event.primaryVertexCov, 3);
      t := t.(
        primaryVertex := event.primaryVertex,
        leg1decayVertexCov := leg1decayVertexCov,
        leg1decayVertexCovInv := env.col.invertMatrix(leg1decayVertexCov).0,
        leg2decayVertexCov := leg2decayVertexCov,
        leg2decayVertexCovInv := env.col.invertMatrix(leg2decayVertexCov).0,
        constFlightLength1 := ConstFlightLength(env.m, env.col.determinant(leg1decayVertexCov)),
        constFlightLength2 := ConstFlightLength(env.m, env.col.determinant(leg2decayVertexCov)),
        leg1leadChargedHadron := measuredTauLepton1.leadChargedHadron,
        leg2leadChargedHadron := measuredTauLepton2.leadChargedHadron);
    }
  }

  /** The loop over the missing-momentum alternatives: is every covariance invertible? */
  method AllMEtCovInvValidLoop(mets: seq<MeasuredMEt>) returns (valid: bool)
    ensures valid == AllMEtCovInvValid(mets)
  {
    valid := true;
    for i := 0 to |mets|
      invariant valid == AllMEtCovInvValid(mets[..i])
    {
      assert mets[..i + 1][..i] == mets[..i];
      if !mets[i].covInvIsValid {
        valid := false;
      }
    }
    assert mets[..|mets|] == mets;
  }

  /** The loop over the measured leptons: has every non-prompt one a decay vertex? */
  method DecayVerticesPresentLoop(leptons: seq<MeasuredTauLepton>) returns (present: bool)
    ensures present == DecayVerticesPresent(leptons)
  {
    present := true;
    for i := 0 to |leptons|
      invariant present == DecayVerticesPresent(leptons[..i])
    {
      assert leptons[..i + 1][..i] == leptons[..i];
      if IsPrompt(leptons[i]) {
        continue;
      }
      if !leptons[i].hasDecayVertex {
        present := false;
      }
    }
    assert leptons[..|leptons|] == leptons;
  }

  /** The loop over the measured leptons: is every decay-vertex covariance invertible? */
  method AllDecayVertexCovInvValidLoop(leptons: seq<MeasuredTauLepton>) returns (valid: bool)
    ensures valid == AllDecayVertexCovInvValid(leptons)
  {
    valid := true;
    for i := 0 to |leptons|
      invariant valid == AllDecayVertexCovInvValid(leptons[..i])
    {
      assert leptons[..i + 1][..i] == leptons[..i];
      if !leptons[i].decayVertexCovInvIsValid {
        valid := false;
      }
    }
    assert leptons[..|leptons|] == leptons;
  }

  /** The checks setMeasurement makes, in its order: the number of leptons, every
      missing-momentum covariance, and with the flight length the primary vertex, the decay
      vertices, their covariances, the two legs' inversions and the lead charged hadrons. */
  method SetupChecks(env: Env, useTauFlightLength: bool, event: MeasuredEvent) returns (code: ErrorCode)
    requires MeasurementReady(useTauFlightLength, event)
    ensures code == SetupErrorCode(env.col, useTauFlightLength, event)
  {
    code := NoError;
    var leptons := event.tauLeptons;
    if |leptons| != NumTaus {
      code := code + {LeptonNumber};
    }
    var metCovInvIsValid := AllMEtCovInvValidLoop(event.mets);
    if !metCovInvIsValid {
      code := code + {MatrixInversion};
    }
    if useTauFlightLength {
      code := FlightLengthChecks(env, event, code);
    }
  }

  /** The checks setMeasurement adds with the flight length: the primary vertex, the decay
      vertices and their covariances, the two legs' inversions and the lead charged hadrons. */
  method FlightLengthChecks(env: Env, event: MeasuredEvent, met: ErrorCode) returns (code: ErrorCode)
    requires MeasurementReady(true, event)
    ensures code == FlightLengthErrorCode(env.col, event, met)
  {
    code := met;
    var leptons := event.tauLeptons;
    var hasPrimaryVertex := event.hasPrimaryVertex;
    if !hasPrimaryVertex {
      code := code + {MissingVertex};
    }
    if hasPrimaryVertex && !event.primaryVertexCovInvIsValid {
      code := code + {MatrixInversion};
    }
    var hasDecayVertices := DecayVerticesPresentLoop(leptons);
    if !hasDecayVertices {
      code := code + {MissingVertex};
    }
    if hasDecayVertices {
      var covInvIsValid := AllDecayVertexCovInvValidLoop(leptons);
      if !covInvIsValid {
        code := code + {MatrixInversion};
      }
    }
    var l1 := leptons[0];
    var l2 := leptons[1];
    if env.col.invertMatrix(MatAdd(l1.decayVertexCov, event.primaryVertexCov, 3)).1 ||
       env.col.invertMatrix(MatAdd(l2.decayVertexCov, event.primaryVertexCov, 3)).1 {
      code := code + {MatrixInversion};
    }
    if !((l1.leadChargedHadron.Some? || IsPrompt(l1)) && (l2.leadChargedHadron.Some? || IsPrompt(l2))) {
      code := code + {MissingLeadChargedHadron};
    }
  }

  /** The missing-momentum transfer function of the two legs' neutrinos: a Gaussian in the
      residual transverse momentum for proton-proton collisions, in the residual
      four-momentum for electron-positron collisions. */
  method MEtTransferFunction(env: Env, met: MeasuredMEt, legs: seq<FittedTauLepton>) returns (prob: real)
    requires MEtWellFormed(met) && |legs| == NumTaus
    ensures prob == EvalMEtTFSpec(env.m, met, legs)
  {
    if met.collisionType == ProtonProtonCollisions {
      var sumNuPx := 0.0;
      var sumNuPy := 0.0;
      for iTau := 0 to NumTaus
        invariant sumNuPx == SumNuP4(legs[..iTau]).px && sumNuPy == SumNuP4(legs[..iTau]).py
      {
        assert legs[..iTau + 1][..iTau] == legs[..iTau];
        sumNuPx := sumNuPx + legs[iTau].nuP4.px;
        sumNuPy := sumNuPy + legs[iTau].nuP4.py;
      }
      assert legs[..NumTaus] == legs;
      var residualPx := met.px - sumNuPx;
      var residualPy := met.py - sumNuPy;
      assert MEtResidual(met, legs) == [residualPx, residualPy];
      var covInv := met.covInv;
      var pull2 := residualPx * (covInv[0][0] * residualPx + covInv[0][1] * residualPy) +
                   residualPy * (covInv[1][0] * residualPx + covInv[1][1] * residualPy);
      assert pull2 == MEtPull2(met, legs);
      prob := met.constMEt * env.m.exp(-0.5 * pull2);
    } else {
      var sumNuPx := 0.0;
      var sumNuPy := 0.0;
      var sumNuPz := 0.0;
      var sumNuE := 0.0;
      for iTau := 0 to NumTaus
        invariant sumNuPx == SumNuP4(legs[..iTau]).px && sumNuPy == SumNuP4(legs[..iTau]).py
        invariant sumNuPz == SumNuP4(legs[..iTau]).pz && sumNuE == SumNuP4(legs[..iTau]).e
      {
        assert legs[..iTau + 1][..iTau] == legs[..iTau];
        sumNuPx := sumNuPx + legs[iTau].nuP4.px;
        sumNuPy := sumNuPy + legs[iTau].nuP4.py;
        sumNuPz := sumNuPz + legs[iTau].nuP4.pz;
        sumNuE := sumNuE + legs[iTau].nuP4.e;
      }
      assert legs[..NumTaus] == legs;
      var residual := [met.px - sumNuPx, met.py - sumNuPy, met.pz - sumNuPz, met.energy - sumNuE];
      assert residual == MEtResidual(met, legs);
      var pull2 := QuadraticForm(met.covInv, residual);
      assert pull2 == MEtPull2(met, legs);
      prob := met.constMEt * env.m.exp(-0.5 * pull2);
    }
  }

  /** integrationParameters after reset(): every index absent. */
  const AbsentLegIndices: LegIndices := LegIndices(AbsentIndex, AbsentIndex, AbsentIndex, AbsentIndex, AbsentIndex)

  /** std::vector::resize: keep the first n entries, pad with zeros. */
  function Resized(x: seq<real>, n: nat): (r: seq<real>)
    ensures |r| == n
    ensures forall i :: 0 <= i < n && i < |x| ==> r[i] == x[i]
    ensures forall i :: |x| <= i < n ==> r[i] == 0.0
  {
    if n <= |x| then x[..n] else x + seq(n - |x|, _ => 0.0)
  }
}
