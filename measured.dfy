/** The measured inputs of one event and the per-leg fitted state the integrand works on.

    MeasuredTauLepton, MeasuredMEt, MeasuredEvent and FittedTauLepton are defined in sources
    that are not part of this model; the integrand only reads the members listed here.
    The two updates of a fitted leg solve kinematics this model does not see: they are
    parameters (a `FittedLegSolver`) and only their effect on the leg's state is fixed. */
module Measured {
  import opened Numerics
  import opened Kinematics
  import opened Matrices
  import opened HadTauDecayProduct

  /** MeasuredTauLepton's decay type. */
  datatype DecayType = TauToHadDecay | TauToElecDecay | TauToMuDecay | Prompt

  datatype MeasuredTauLepton = MeasuredTauLepton(
    decayType: DecayType,
    charge: int,
    p4: LorentzVector,
    mass: real,
    decayMode: int,
    hasDecayVertex: bool,
    decayVertex: Vector3,
    decayVertexCov: Matrix,
    decayVertexCovInvIsValid: bool,
    leadChargedHadron: Option<MeasuredHadTauDecayProduct>)

  predicate IsLeptonicTauDecay(l: MeasuredTauLepton) {
    l.decayType == TauToElecDecay || l.decayType == TauToMuDecay
  }

  predicate IsHadronicTauDecay(l: MeasuredTauLepton) {
    l.decayType == TauToHadDecay
  }

  predicate IsPrompt(l: MeasuredTauLepton) {
    l.decayType == Prompt
  }

  /** The decay-vertex covariance is a 3 x 3 matrix. */
  predicate LeptonWellFormed(l: MeasuredTauLepton) {
    IsSquare(l.decayVertexCov, 3)
  }

  /** kProtonProtonCollisions: transverse (px, py) with a 2 x 2 covariance;
      kElectronPositronCollisions: (px, py, pz, E) with a 4 x 4 covariance. */
  datatype CollisionType = ProtonProtonCollisions | ElectronPositronCollisions

  datatype MeasuredMEt = MeasuredMEt(
    collisionType: CollisionType,
    px: real,
    py: real,
    pz: real,
    energy: real,
    covInv: Matrix,
    covInvIsValid: bool,
    constMEt: real)

  /** The inverse covariance has the dimension of the measured vector. */
  predicate MEtWellFormed(met: MeasuredMEt) {
    IsSquare(met.covInv, if met.collisionType == ProtonProtonCollisions then 2 else 4)
  }

  /** The leptons, the missing-momentum alternatives (index 0 is the central value) and
      the primary vertex. */
  datatype MeasuredEvent = MeasuredEvent(
    tauLeptons: seq<MeasuredTauLepton>,
    mets: seq<MeasuredMEt>,
    hasPrimaryVertex: bool,
    primaryVertex: Vector3,
    primaryVertexCov: Matrix,
    primaryVertexCovInvIsValid: bool)

  predicate EventWellFormed(e: MeasuredEvent) {
    IsSquare(e.primaryVertexCov, 3) &&
    (forall i :: 0 <= i < |e.tauLeptons| ==> LeptonWellFormed(e.tauLeptons[i])) &&
    (forall i :: 0 <= i < |e.mets| ==> MEtWellFormed(e.mets[i]))
  }

  /** One leg's fitted state: the measured lepton it is bound to, the visible, invisible
      and tau four-momenta, the visible energy fraction, the invisible mass and the error
      flag of the last tau-momentum update. */
  datatype FittedTauLepton = FittedTauLepton(
    measured: MeasuredTauLepton,
    visP4: LorentzVector,
    nuP4: LorentzVector,
    tauP4: LorentzVector,
    x: real,
    nuMass: real,
    hasError: bool)

  /** What solving the two-body kinematics of one leg gives: the invisible and tau
      four-momenta, or no physical solution. */
  datatype TauSolution = Solved(nuP4: LorentzVector, tauP4: LorentzVector) | Unphysical

  /** The kinematics behind updateVisMomentum and updateTauMomentum. */
  datatype FittedLegSolver = FittedLegSolver(
    visMomentum: (MeasuredTauLepton, real) -> LorentzVector,
    tauMomentum: (FittedTauLepton, real, real, real) -> TauSolution)

  /** setMeasuredTauLepton: binds the measured lepton and clears the error flag. */
  function SetMeasuredTauLepton(f: FittedTauLepton, l: MeasuredTauLepton): (r: FittedTauLepton)
    ensures r.measured == l && !r.hasError
    ensures r.tauP4 == f.tauP4 && r.nuP4 == f.nuP4
  {
    f.(measured := l, hasError := false)
  }

  /** updateVisMomentum(scale): the visible momentum becomes the measured one rescaled. */
  function UpdateVisMomentum(solver: FittedLegSolver, f: FittedTauLepton, scale: real): (r: FittedTauLepton)
    ensures r.measured == f.measured && r.hasError == f.hasError
    ensures r.visP4 == solver.visMomentum(f.measured, scale)
  {
    f.(visP4 := solver.visMomentum(f.measured, scale))
  }

  /** updateTauMomentum(x, phi, nuMass): stores x and the invisible mass; on a physical
      solution stores the new momenta and clears the flag, otherwise raises the flag and
      keeps the previous momenta. */
  function UpdateTauMomentum(solver: FittedLegSolver, f: FittedTauLepton, x: real, phi: real, nuMass: real)
    : (r: FittedTauLepton)
    ensures r.measured == f.measured && r.visP4 == f.visP4 && r.x == x && r.nuMass == nuMass
    ensures r.hasError <==> solver.tauMomentum(f, x, phi, nuMass).Unphysical?
    ensures r.hasError ==> r.nuP4 == f.nuP4 && r.tauP4 == f.tauP4
  {
    match solver.tauMomentum(f, x, phi, nuMass)
    case Solved(nu, tau) => f.(nuP4 := nu, tauP4 := tau, x := x, nuMass := nuMass, hasError := false)
    case Unphysical => f.(x := x, nuMass := nuMass, hasError := true)
  }
}
