/** src/MeasuredHadTauDecayProduct.cc: a measured charged hadron of a hadronic tau decay.
    The record is immutable once built: every constructor stores the measured
    (charge, pt, eta, phi, mass) and then initialize() caches the Cartesian quantities. */
module HadTauDecayProduct {
  import opened Numerics
  import opened Kinematics

  /** The members preciseVisMass_ and decayMode_ are read by the accessors mass() and
      decayMode() but no code of this class assigns them; the model takes whatever they
      hold as a parameter. */
  datatype UnsetMembers = UnsetMembers(preciseVisMass: real, decayMode: int)

  datatype MeasuredHadTauDecayProduct = MeasuredHadTauDecayProduct(
    charge: int,
    pt: real,
    eta: real,
    phi: real,
    inputMass: real,        // mass_, the mass initialize() uses
    preciseVisMass: real,   // preciseVisMass_, the mass mass() reports
    decayMode: int,
    p: real,
    px: real,
    py: real,
    pz: real,
    energy: real,
    p4: LorentzVector,
    p3: Vector3)

  /** The stored members followed by initialize(). */
  function Initialize(m: MathLib, charge: int, pt: real, eta: real, phi: real, mass: real,
                      unset: UnsetMembers): MeasuredHadTauDecayProduct
  {
    var p := pt * m.cosh(eta);
    var px := pt * m.cos(phi);
    var py := pt * m.sin(phi);
    var pz := pt * m.sinh(eta);
    var energy := m.sqrt(Sq(p) + Sq(mass));
    MeasuredHadTauDecayProduct(charge, pt, eta, phi, mass, unset.preciseVisMass, unset.decayMode,
                               p, px, py, pz, energy,
                               LorentzVector(px, py, pz, energy), Vector3(px, py, pz))
  }

  /** The default constructor. */
  function Default(m: MathLib, unset: UnsetMembers): MeasuredHadTauDecayProduct {
    Initialize(m, 0, 0.0, 0.0, 0.0, 0.0, unset)
  }

  /** The constructor from (charge, pt, eta, phi, mass). */
  function Construct(m: MathLib, charge: int, pt: real, eta: real, phi: real, mass: real,
                     unset: UnsetMembers): MeasuredHadTauDecayProduct
  {
    Initialize(m, charge, pt, eta, phi, mass, unset)
  }

  /** mass(): the accessor reports preciseVisMass_, not the mass_ the energy was built from. */
  function ReportedMass(d: MeasuredHadTauDecayProduct): real {
    d.preciseVisMass
  }

  /** The copy constructor as written: mass_ is taken from the accessor mass(), that is
      from preciseVisMass_, and the unassigned members are whatever they hold. */
  function CopyAsWritten(m: MathLib, src: MeasuredHadTauDecayProduct, unset: UnsetMembers): MeasuredHadTauDecayProduct {
    Initialize(m, src.charge, src.pt, src.eta, src.phi, ReportedMass(src), unset)
  }

  /** The copy constructor as intended: every stored member of the source is copied and
      the cached quantities are recomputed from them. */
  function Copy(m: MathLib, src: MeasuredHadTauDecayProduct): MeasuredHadTauDecayProduct {
    Initialize(m, src.charge, src.pt, src.eta, src.phi, src.inputMass,
               UnsetMembers(src.preciseVisMass, src.decayMode))
  }

  /** A record as the constructors leave it: its cached quantities are those initialize()
      derives from its stored members. */
  predicate Initialized(m: MathLib, d: MeasuredHadTauDecayProduct) {
    d == Initialize(m, d.charge, d.pt, d.eta, d.phi, d.inputMass, UnsetMembers(d.preciseVisMass, d.decayMode))
  }

  /** sortMeasuredHadTauDecayProducts: orders by descending transverse momentum. */
  predicate SortByPtDescending(a: MeasuredHadTauDecayProduct, b: MeasuredHadTauDecayProduct) {
    a.pt > b.pt
  }

  lemma SqScaleSum(pt: real, a: real, b: real)
    ensures Sq(pt * a) + Sq(pt * b) == Sq(pt) * (Sq(a) + Sq(b))
  {
    SqScale(pt, a);
    SqScale(pt, b);
  }

  /** initialize() puts (px, py, pz) on a circle of radius pt in the transverse plane, makes p
      the magnitude of (px, py, pz), and gives an energy that is non-negative and satisfies
      E^2 = p^2 + mass^2, so that p4 has invariant mass |mass|. */
  lemma InitializeKinematics(m: MathLib, charge: int, pt: real, eta: real, phi: real, mass: real,
                             unset: UnsetMembers)
    requires MathLaws(m)
    ensures var d := Initialize(m, charge, pt, eta, phi, mass, unset);
      && Sq(d.px) + Sq(d.py) == Sq(pt)
      && Sq(d.p) == Sq(d.px) + Sq(d.py) + Sq(d.pz)
      && 0.0 <= d.energy
      && Sq(d.energy) == Sq(d.p) + Sq(mass)
      && d.p3 == Vect(d.p4) && d.p4.e == d.energy
      && Sq(d.p4.e) - P2(d.p4) == Sq(mass)
      && Mass(m, d.p4) == Abs(mass)
  {
    var d := Initialize(m, charge, pt, eta, phi, mass, unset);
    assert Sq(m.cos(phi)) + Sq(m.sin(phi)) == 1.0;
    assert Sq(m.cosh(eta)) - Sq(m.sinh(eta)) == 1.0;
    SqScaleSum(pt, m.cos(phi), m.sin(phi));
    SqScale(pt, m.cosh(eta));
    SqScale(pt, m.sinh(eta));
    assert Sq(pt) * Sq(m.cosh(eta)) == Sq(pt) + Sq(pt) * Sq(m.sinh(eta));
    SqNonNegative(d.p);
    SqNonNegative(mass);
    SqrtOfSq(m, mass);
  }

  /** The default constructor stores charge 0 and zero pt, eta, phi and mass, which puts
      the cached momentum at zero and the energy at zero. */
  lemma DefaultIsAtRest(m: MathLib, unset: UnsetMembers)
    requires MathLaws(m)
    ensures var d := Default(m, unset);
      && d.charge == 0 && d.pt == 0.0 && d.eta == 0.0 && d.phi == 0.0 && d.inputMass == 0.0
      && d.p4 == Zero4 && d.p3 == Zero3 && d.p == 0.0
  {
    SqrtPositive(m, 0.0);
  }

  /** The constructors leave an initialized record. */
  lemma ConstructIsInitialized(m: MathLib, charge: int, pt: real, eta: real, phi: real, mass: real,
                               unset: UnsetMembers)
    ensures Initialized(m, Construct(m, charge, pt, eta, phi, mass, unset))
    ensures Initialized(m, Default(m, unset))
    ensures Initialized(m, CopyAsWritten(m, Construct(m, charge, pt, eta, phi, mass, unset), unset))
  {
  }

  /** The intended copy reproduces an initialized record exactly, and copies of records
      with the same stored members are equal. */
  lemma CopyIsIdentity(m: MathLib, d: MeasuredHadTauDecayProduct)
    requires Initialized(m, d)
    ensures Copy(m, d) == d
    ensures ReportedMass(Copy(m, d)) == ReportedMass(d) && Copy(m, d).energy == d.energy
  {
  }

  /** The copy constructor as written replaces mass_ by preciseVisMass_; a hadron with
      mass 1 at rest whose preciseVisMass_ holds 0 is copied with energy 0 instead of 1. */
  lemma CopyAsWrittenChangesEnergy(m: MathLib, unset: UnsetMembers)
    requires MathLaws(m) && unset.preciseVisMass == 0.0
    ensures var src := Construct(m, 0, 0.0, 0.0, 0.0, 1.0, unset);
      && src.energy == 1.0
      && CopyAsWritten(m, src, unset).inputMass == 0.0
      && CopyAsWritten(m, src, unset).energy == 0.0
      && CopyAsWritten(m, src, unset) != Copy(m, src)
  {
    var src := Construct(m, 0, 0.0, 0.0, 0.0, 1.0, unset);
    assert Sq(src.p) + Sq(1.0) == Sq(1.0);
    SqrtOfSq(m, 1.0);
    assert Sq(0.0) + Sq(0.0) == Sq(0.0);
    SqrtOfSq(m, 0.0);
  }

  /** The comparator is a strict order: irreflexive, asymmetric and transitive. */
  lemma SortIsStrictOrder(a: MeasuredHadTauDecayProduct, b: MeasuredHadTauDecayProduct, c: MeasuredHadTauDecayProduct)
    ensures !SortByPtDescending(a, a)
    ensures SortByPtDescending(a, b) ==> !SortByPtDescending(b, a)
    ensures SortByPtDescending(a, b) && SortByPtDescending(b, c) ==> SortByPtDescending(a, c)
    ensures SortByPtDescending(a, b) <==> b.pt < a.pt
  {
  }
}
