/** src/BoostToHelicityFrame.cc: the chain of frames used for spin observables.  A
    four-vector is boosted to the rest frame of the tau pair, rotated onto the helicity
    basis {r, n, k} (k along the tau- direction, r in the plane of k and the beam axis,
    n = r x k), and boosted to the rest frame of one of the taus.

    Lorentz boosts are not part of this model: a boost is named by the four-vector whose
    rest frame it leads to, and a `BoostFn` parameter applies it. */
module HelicityFrame {
  import opened Numerics
  import opened Kinematics
  import opened AuxFunctions
  import opened Measured

  /** ROOT::Math::Boost: the identity (default constructed) or the boost to the rest
      frame of a four-vector, Boost(p4.BoostToCM()). */
  datatype Boost = Identity | ToRestFrameOf(p4: LorentzVector)

  /** `bf(q, p)` is p seen from the rest frame of q. */
  type BoostFn = (LorentzVector, LorentzVector) -> LorentzVector

  /** The boost to the rest frame of a time-like vector brings that vector to rest. */
  ghost predicate BoostLaw(bf: BoostFn) {
    forall q: LorentzVector {:trigger bf(q, q)} :: 0.0 < q.e && P2(q) < Sq(q.e) ==> Vect(bf(q, q)) == Zero3
  }

  /** getP4_rf(): the four-vector in the frame a boost leads to. */
  function GetP4Rf(bf: BoostFn, p4: LorentzVector, boost: Boost): LorentzVector {
    match boost
    case Identity => p4
    case ToRestFrameOf(q) => bf(q, p4)
  }

  /** get_k() and get_h(): the unit direction of a four-vector's momentum in the frame a
      boost leads to (Vector::unit() leaves a zero vector unchanged, as normalize() does). */
  function DirectionInFrame(m: MathLib, bf: BoostFn, p4: LorentzVector, boost: Boost): Vector3 {
    Normalize(m, Vect(GetP4Rf(bf, p4, boost)))
  }

  // ---------------------------------------------------------------------------------
  // get_r and get_n

  /** What get_r() gives: the unit vector r, a non-finite vector when sin(theta) is zero
      (the source multiplies by 1/0), or an abort of the assertion on cos(theta). */
  datatype RResult = Axis(r: Vector3) | Degenerate | Aborted

  /** cos(theta) clamped into [-1, 1]. */
  function Clamp(cosTheta: real): (c: real)
    ensures -1.0 <= c <= 1.0
    ensures -1.0 <= cosTheta <= 1.0 ==> c == cosTheta
  {
    if cosTheta < -1.0 then -1.0 else if cosTheta > 1.0 then 1.0 else cosTheta
  }

  /** get_r(k, h): r = (h - k cos(theta)) / sin(theta), where cos(theta) = k.h may exceed
      [-1, 1] by 0.01 from rounding and is clamped; a larger excess aborts. */
  function GetR(m: MathLib, k: Vector3, h: Vector3): RResult {
    var cosTheta := ScalarProduct(k, h);
    if cosTheta < -1.01 || cosTheta > 1.01 then Aborted
    else
      var c := Clamp(cosTheta);
      var sinTheta := m.sqrt(1.0 - Sq(c));
      if sinTheta == 0.0 then Degenerate
      else Axis(Times(Minus(h, Times(k, c)), 1.0 / sinTheta))
  }

  /** get_n(k, r) = r x k. */
  function GetN(k: Vector3, r: Vector3): (n: Vector3)
    ensures ScalarProduct(n, r) == 0.0 && ScalarProduct(n, k) == 0.0
  {
    CrossProductOrthogonal(r, k);
    CrossProduct(r, k)
  }

  /** getP4_hf(): the momentum's components along r, n and k, with the energy kept. */
  function GetP4Hf(p4: LorentzVector, r: Vector3, n: Vector3, k: Vector3): LorentzVector {
    var p3 := Vect(p4);
    LorentzVector(ScalarProduct(p3, r), ScalarProduct(p3, n), ScalarProduct(p3, k), p4.e)
  }

  // ---------------------------------------------------------------------------------
  // Vector algebra used by the proofs

  lemma DotTimes(w: Vector3, t: real, v: Vector3)
    ensures ScalarProduct(Times(w, t), v) == t * ScalarProduct(w, v)
  {
  }

  lemma DotMinusTimes(h: Vector3, k: Vector3, c: real)
    ensures ScalarProduct(Minus(h, Times(k, c)), k) == ScalarProduct(h, k) - c * ScalarProduct(k, k)
  {
  }

  lemma Mag2Times(w: Vector3, t: real)
    ensures Mag2(Times(w, t)) == Sq(t) * Mag2(w)
  {
    SqScale(w.x, t);
    SqScale(w.y, t);
    SqScale(w.z, t);
  }

  lemma Mag2MinusTimes(h: Vector3, k: Vector3, c: real)
    ensures Mag2(Minus(h, Times(k, c))) == Mag2(h) - 2.0 * c * ScalarProduct(h, k) + Sq(c) * Mag2(k)
  {
  }

  /** a x (b x c) = b (a.c) - c (a.b). */
  lemma TripleCross(a: Vector3, b: Vector3, c: Vector3)
    ensures CrossProduct(a, CrossProduct(b, c)) ==
      Minus(Times(b, ScalarProduct(a, c)), Times(c, ScalarProduct(a, b)))
  {
    var ac, ab := ScalarProduct(a, c), ScalarProduct(a, b);
    TripleCrossComponent(a.x, a.y, a.z, b.x, b.y, b.z, c.x, c.y, c.z, ac, ab);
    TripleCrossComponent(a.y, a.z, a.x, b.y, b.z, b.x, c.y, c.z, c.x, ac, ab);
    TripleCrossComponent(a.z, a.x, a.y, b.z, b.x, b.y, c.z, c.x, c.y, ac, ab);
  }

  /** The first component of a x (b x c) = b (a.c) - c (a.b), over plain numbers. */
  lemma TripleCrossComponent(a1: real, a2: real, a3: real, b1: real, b2: real, b3: real,
                             c1: real, c2: real, c3: real, ac: real, ab: real)
    requires ac == a1 * c1 + a2 * c2 + a3 * c3 && ab == a1 * b1 + a2 * b2 + a3 * b3
    ensures a2 * (b1 * c2 - b2 * c1) - a3 * (b3 * c1 - b1 * c3) == b1 * ac - c1 * ab
  {
  }

  lemma Mag2Minus(u: Vector3, v: Vector3)
    ensures Mag2(Minus(u, v)) == Mag2(u) - 2.0 * ScalarProduct(u, v) + Mag2(v)
  {
  }

  /** The momentum components along r, n = r x k and k of an orthonormal pair r, k add up
      in square to the squared momentum. */
  lemma ProjectionsSquared(p: Vector3, r: Vector3, k: Vector3)
    requires Mag2(r) == 1.0 && Mag2(k) == 1.0 && ScalarProduct(r, k) == 0.0
    ensures Sq(ScalarProduct(p, r)) + Sq(ScalarProduct(p, CrossProduct(r, k))) + Sq(ScalarProduct(p, k)) == Mag2(p)
  {
    var n := CrossProduct(r, k);
    var pr, pk := ScalarProduct(p, r), ScalarProduct(p, k);
    CrossProductMagnitude(r, k);
    assert Mag2(n) == 1.0;
    CrossProductMagnitude(p, n);
    TripleCross(p, r, k);
    var u, v := Times(r, pk), Times(k, pr);
    Mag2Minus(u, v);
    Mag2Times(r, pk);
    Mag2Times(k, pr);
    DotTimes(r, pk, v);
    ScalarProductSymmetric(r, v);
    DotTimes(k, pr, r);
    assert ScalarProduct(u, v) == 0.0;
    assert Mag2(CrossProduct(p, n)) == Sq(pk) + Sq(pr);
  }

  /** A number whose square is at most one lies in [-1, 1]. */
  lemma SqAtMostOne(a: real)
    requires Sq(a) <= 1.0
    ensures -1.0 <= a <= 1.0
  {
    if 1.0 < Abs(a) {
      MulLeftStrict(Abs(a), 1.0, Abs(a));
      SqAbs(a);
    }
  }

  /** The scalar product of two unit vectors lies in [-1, 1] (Cauchy-Schwarz). */
  lemma UnitDotBounded(k: Vector3, h: Vector3)
    requires Mag2(k) == 1.0 && Mag2(h) == 1.0
    ensures -1.0 <= ScalarProduct(k, h) <= 1.0
  {
    CrossProductMagnitude(k, h);
    assert Mag2(k) * Mag2(h) == 1.0;
    Mag2NonNegative(CrossProduct(k, h));
    assert Sq(ScalarProduct(k, h)) <= 1.0;
    SqAtMostOne(ScalarProduct(k, h));
  }

  // ---------------------------------------------------------------------------------
  // Properties of get_r, get_n and getP4_hf

  /** get_r aborts exactly when |k.h| exceeds 1.01; it is degenerate exactly when the
      clamped cosine is +1 or -1, so a cosine within 0.01 beyond +-1 is processed as +-1. */
  lemma GetRTolerance(m: MathLib, k: Vector3, h: Vector3)
    requires SqrtLaw(m)
    ensures GetR(m, k, h).Aborted? <==> ScalarProduct(k, h) < -1.01 || 1.01 < ScalarProduct(k, h)
    ensures GetR(m, k, h).Degenerate? <==>
      (-1.01 <= ScalarProduct(k, h) <= -1.0 || 1.0 <= ScalarProduct(k, h) <= 1.01)
  {
    var cosTheta := ScalarProduct(k, h);
    if -1.01 <= cosTheta <= 1.01 {
      var c := Clamp(cosTheta);
      SqAbs(c);
      SqMonotone(Abs(c), 1.0);
      SqrtPositive(m, 1.0 - Sq(c));
      if Sq(c) == 1.0 {
        SqInjective(Abs(c), 1.0);
      }
    }
  }

  /** For unit vectors k and h, get_r never aborts, and when sin(theta) is not zero it gives
      a unit vector orthogonal to k. */
  lemma GetROrthonormal(m: MathLib, k: Vector3, h: Vector3)
    requires SqrtLaw(m) && Mag2(k) == 1.0 && Mag2(h) == 1.0
    ensures !GetR(m, k, h).Aborted?
    ensures GetR(m, k, h).Axis? ==>
      ScalarProduct(GetR(m, k, h).r, k) == 0.0 && Mag2(GetR(m, k, h).r) == 1.0
  {
    UnitDotBounded(k, h);
    var c := ScalarProduct(k, h);
    assert Clamp(c) == c;
    SqAtMostOneConverse(c);
    var s := m.sqrt(1.0 - Sq(c));
    if s != 0.0 {
      var w := Minus(h, Times(k, c));
      var t := 1.0 / s;
      DotMinusTimes(h, k, c);
      Mag2IsScalarProduct(k);
      DotTimes(w, t, k);
      Mag2MinusTimes(h, k, c);
      assert Mag2(w) == 1.0 - Sq(c);
      Mag2Times(w, t);
      SqScale(s, t);
      assert s * t == 1.0;
    }
  }

  lemma SqAtMostOneConverse(c: real)
    requires -1.0 <= c <= 1.0
    ensures Sq(c) <= 1.0
  {
    SqAbs(c);
    SqMonotone(Abs(c), 1.0);
  }

  /** For orthonormal r and k, n = r x k completes a right-handed orthonormal basis:
      n x r = k and k x n = r. */
  lemma GetNRightHanded(k: Vector3, r: Vector3)
    requires Mag2(r) == 1.0 && Mag2(k) == 1.0 && ScalarProduct(r, k) == 0.0
    ensures Mag2(GetN(k, r)) == 1.0
    ensures CrossProduct(GetN(k, r), r) == k && CrossProduct(k, GetN(k, r)) == r
  {
    var n := GetN(k, r);
    CrossProductMagnitude(r, k);
    Mag2IsScalarProduct(r);
    Mag2IsScalarProduct(k);
    ScalarProductSymmetric(r, k);
    CrossProductOrthogonal(r, k);
    CrossProductOrthogonal(n, r);
    CrossProductOrthogonal(k, n);
    TripleCross(r, r, k);
    TripleCross(k, r, k);
  }

  /** In an orthonormal basis {r, n = r x k, k} the projection keeps the energy and the
      magnitude of the momentum, hence the invariant mass. */
  lemma GetP4HfIsRotation(m: MathLib, p4: LorentzVector, r: Vector3, k: Vector3)
    requires Mag2(r) == 1.0 && Mag2(k) == 1.0 && ScalarProduct(r, k) == 0.0
    ensures GetP4Hf(p4, r, GetN(k, r), k).e == p4.e
    ensures P2(GetP4Hf(p4, r, GetN(k, r), k)) == P2(p4)
    ensures Mass(m, GetP4Hf(p4, r, GetN(k, r), k)) == Mass(m, p4)
  {
    ProjectionsSquared(Vect(p4), r, k);
  }

  /** A momentum along k has components (0, 0, a) in the helicity frame. */
  lemma GetP4HfAlongK(p4: LorentzVector, r: Vector3, k: Vector3, a: real)
    requires Mag2(k) == 1.0 && ScalarProduct(r, k) == 0.0
    requires Vect(p4) == Times(k, a)
    ensures GetP4Hf(p4, r, GetN(k, r), k) == LorentzVector(0.0, 0.0, a, p4.e)
  {
    var n := GetN(k, r);
    DotTimes(k, a, r);
    DotTimes(k, a, n);
    DotTimes(k, a, k);
    ScalarProductSymmetric(k, r);
    ScalarProductSymmetric(k, n);
    Mag2IsScalarProduct(k);
  }

  // ---------------------------------------------------------------------------------
  // The frame built from the two taus

  /** get_localCoordinateSystem(): the basis {r, n, k} for a tau and the beam. */
  datatype LocalAxes = Axes(r: Vector3, n: Vector3, k: Vector3) | DegenerateAxes(k: Vector3) | AbortedAxes

  function LocalCoordinateSystem(m: MathLib, bf: BoostFn, tauP4: LorentzVector, boostTtrf: Boost,
                                 beamP4: LorentzVector): LocalAxes
  {
    var k := DirectionInFrame(m, bf, tauP4, boostTtrf);
    var h := DirectionInFrame(m, bf, beamP4, boostTtrf);
    match GetR(m, k, h)
    case Aborted => AbortedAxes
    case Degenerate => DegenerateAxes(k)
    case Axis(r) => Axes(r, GetN(k, r), k)
  }

  /** The boosts and axes setFittedTauLeptons() stores. */
  datatype Frame = Frame(boostTtrf: Boost, r: Vector3, n: Vector3, k: Vector3, boostTprf: Boost, boostTmrf: Boost)

  datatype FrameResult = FrameSet(frame: Frame) | FrameDegenerate(boostTtrf: Boost, k: Vector3) | FrameAborted

  /** setFittedTauLeptons() once the tau+ and tau- have been picked. */
  function FrameFor(m: MathLib, bf: BoostFn, beamP4: LorentzVector, tauPlusP4: LorentzVector,
                    tauMinusP4: LorentzVector): FrameResult
  {
    var boostTtrf := ToRestFrameOf(Add(tauPlusP4, tauMinusP4));
    match LocalCoordinateSystem(m, bf, tauMinusP4, boostTtrf, beamP4)
    case AbortedAxes => FrameAborted
    case DegenerateAxes(k) => FrameDegenerate(boostTtrf, k)
    case Axes(r, n, k) =>
      var tauPlusHf := GetP4Hf(GetP4Rf(bf, tauPlusP4, boostTtrf), r, n, k);
      var tauMinusHf := GetP4Hf(GetP4Rf(bf, tauMinusP4, boostTtrf), r, n, k);
      FrameSet(Frame(boostTtrf, r, n, k, ToRestFrameOf(tauPlusHf), ToRestFrameOf(tauMinusHf)))
  }

  /** Which tau's rest frame operator() ends in (kTauPlus, kTauMinus). */
  datatype TauTarget = TauPlus | TauMinus

  /** operator(): pair rest frame, helicity axes, then the chosen tau's rest frame. */
  function ApplyFrame(bf: BoostFn, f: Frame, p4: LorentzVector, target: TauTarget): LorentzVector {
    var hf := GetP4Hf(GetP4Rf(bf, p4, f.boostTtrf), f.r, f.n, f.k);
    GetP4Rf(bf, hf, if target == TauPlus then f.boostTprf else f.boostTmrf)
  }

  /** When the tau- and the beam have non-zero momenta in the pair rest frame, the frame is
      never aborted, and a frame that is set has an orthonormal right-handed basis with k
      along the tau- momentum in the pair rest frame. */
  lemma FrameForOrthonormal(m: MathLib, bf: BoostFn, beamP4: LorentzVector,
                            tauPlusP4: LorentzVector, tauMinusP4: LorentzVector)
    requires SqrtLaw(m)
    requires var sum := Add(tauPlusP4, tauMinusP4);
      Vect(bf(sum, tauMinusP4)) != Zero3 && Vect(bf(sum, beamP4)) != Zero3
    ensures !FrameFor(m, bf, beamP4, tauPlusP4, tauMinusP4).FrameAborted?
    ensures var res := FrameFor(m, bf, beamP4, tauPlusP4, tauMinusP4);
      res.FrameSet? ==>
        && Mag2(res.frame.r) == 1.0 && Mag2(res.frame.n) == 1.0 && Mag2(res.frame.k) == 1.0
        && ScalarProduct(res.frame.r, res.frame.k) == 0.0
        && res.frame.n == CrossProduct(res.frame.r, res.frame.k)
        && CrossProduct(res.frame.n, res.frame.r) == res.frame.k
        && res.frame.k == Normalize(m, Vect(bf(Add(tauPlusP4, tauMinusP4), tauMinusP4)))
  {
    var sum := Add(tauPlusP4, tauMinusP4);
    var boostTtrf := ToRestFrameOf(sum);
    var k := DirectionInFrame(m, bf, tauMinusP4, boostTtrf);
    var h := DirectionInFrame(m, bf, beamP4, boostTtrf);
    Mag2NonNegative(Vect(bf(sum, tauMinusP4)));
    Mag2NonNegative(Vect(bf(sum, beamP4)));
    NormalizeIsUnit(m, Vect(bf(sum, tauMinusP4)));
    NormalizeIsUnit(m, Vect(bf(sum, beamP4)));
    GetROrthonormal(m, k, h);
    if GetR(m, k, h).Axis? {
      GetNRightHanded(k, GetR(m, k, h).r);
    }
  }

  /** In a frame that is set, a tau whose helicity-frame four-vector is time-like is at rest
      in its own frame. */
  lemma ApplyFrameTauAtRest(m: MathLib, bf: BoostFn, beamP4: LorentzVector,
                            tauPlusP4: LorentzVector, tauMinusP4: LorentzVector, target: TauTarget)
    requires BoostLaw(bf)
    requires FrameFor(m, bf, beamP4, tauPlusP4, tauMinusP4).FrameSet?
    requires var f := FrameFor(m, bf, beamP4, tauPlusP4, tauMinusP4).frame;
      var tau := if target == TauPlus then tauPlusP4 else tauMinusP4;
      var q := GetP4Hf(GetP4Rf(bf, tau, f.boostTtrf), f.r, f.n, f.k);
      0.0 < q.e && P2(q) < Sq(q.e)
    ensures var f := FrameFor(m, bf, beamP4, tauPlusP4, tauMinusP4).frame;
      Vect(ApplyFrame(bf, f, if target == TauPlus then tauPlusP4 else tauMinusP4, target)) == Zero3
  {
    var f := FrameFor(m, bf, beamP4, tauPlusP4, tauMinusP4).frame;
    var tau := if target == TauPlus then tauPlusP4 else tauMinusP4;
    var q := GetP4Hf(GetP4Rf(bf, tau, f.boostTtrf), f.r, f.n, f.k);
    assert ApplyFrame(bf, f, tau, target) == bf(q, q);
  }

  // ---------------------------------------------------------------------------------
  // Beam and the selection of tau+ and tau-

  const BeamEnergy: real := 7000.0
  const BeamParticleMass: real := 0.938272

  /** The beam four-vector of the constructor: a proton of 7 TeV along +z. */
  function BeamP4(m: MathLib): LorentzVector {
    LorentzVector(0.0, 0.0, m.sqrt(Sq(BeamEnergy) - Sq(BeamParticleMass)), BeamEnergy)
  }

  /** The beam has no transverse momentum, the energy 7000, positive pz and the proton mass. */
  lemma BeamP4OnShell(m: MathLib)
    requires SqrtLaw(m)
    ensures BeamP4(m).px == 0.0 && BeamP4(m).py == 0.0 && BeamP4(m).e == 7000.0
    ensures 0.0 < BeamP4(m).pz
    ensures Mass(m, BeamP4(m)) == 0.938272
  {
    var y := Sq(BeamEnergy) - Sq(BeamParticleMass);
    assert 0.0 < y;
    SqrtPositive(m, y);
    assert Sq(BeamEnergy) - P2(BeamP4(m)) == Sq(BeamParticleMass);
    SqrtOfSq(m, BeamParticleMass);
  }

  /** The sign of charge the loop of setFittedTauLeptons() looks for. */
  datatype ChargeSign = Positive | Negative

  predicate HasSign(f: FittedTauLepton, s: ChargeSign) {
    if s == Positive then f.measured.charge > 0 else f.measured.charge < 0
  }

  /** The leg the loop keeps for a sign: the last one with a charge of that sign. */
  function LastWithSign(legs: seq<FittedTauLepton>, s: ChargeSign): Option<FittedTauLepton>
    decreases |legs|
  {
    if |legs| == 0 then None
    else if HasSign(legs[|legs| - 1], s) then Some(legs[|legs| - 1])
    else LastWithSign(legs[..|legs| - 1], s)
  }

  /** A leg is found exactly when some leg has that sign, and the one found has that sign
      and is followed by no other leg of that sign. */
  lemma {:induction false} LastWithSignSpec(legs: seq<FittedTauLepton>, s: ChargeSign)
    ensures LastWithSign(legs, s).Some? <==> exists i :: 0 <= i < |legs| && HasSign(legs[i], s)
    ensures LastWithSign(legs, s).Some? ==>
      exists i :: 0 <= i < |legs| && legs[i] == LastWithSign(legs, s).value && HasSign(legs[i], s) &&
        forall j :: i < j < |legs| ==> !HasSign(legs[j], s)
    decreases |legs|
  {
    if |legs| != 0 {
      var last := |legs| - 1;
      var prefix := legs[..last];
      if !HasSign(legs[last], s) {
        LastWithSignSpec(prefix, s);
        if LastWithSign(legs, s).Some? {
          var i :| 0 <= i < |prefix| && prefix[i] == LastWithSign(prefix, s).value && HasSign(prefix[i], s) &&
            forall j :: i < j < |prefix| ==> !HasSign(prefix[j], s);
          assert legs[i] == prefix[i];
        }
        if exists i :: 0 <= i < |legs| && HasSign(legs[i], s) {
          var i :| 0 <= i < |legs| && HasSign(legs[i], s);
          assert i < last && prefix[i] == legs[i];
        }
      }
    }
  }

  /** Of two legs, the positive one becomes tau+ and the negative one tau-, and both are
      found exactly when the charges have opposite signs. */
  lemma SelectOppositeCharges(l1: FittedTauLepton, l2: FittedTauLepton)
    ensures (LastWithSign([l1, l2], Positive).Some? && LastWithSign([l1, l2], Negative).Some?) <==>
      (l1.measured.charge > 0 && l2.measured.charge < 0) || (l1.measured.charge < 0 && l2.measured.charge > 0)
    ensures l1.measured.charge > 0 && l2.measured.charge < 0 ==>
      LastWithSign([l1, l2], Positive) == Some(l1) && LastWithSign([l1, l2], Negative) == Some(l2)
    ensures l1.measured.charge < 0 && l2.measured.charge > 0 ==>
      LastWithSign([l1, l2], Positive) == Some(l2) && LastWithSign([l1, l2], Negative) == Some(l1)
  {
    assert [l1, l2][..1] == [l1];
    assert [l1][..0] == [];
    assert LastWithSign([l1], Positive) == (if HasSign(l1, Positive) then Some(l1) else None);
    assert LastWithSign([l1], Negative) == (if HasSign(l1, Negative) then Some(l1) else None);
  }

  /** BoostToHelicityFrame. */
  class BoostToHelicityFrame {
    var beamP4: LorentzVector
    var boostTtrf: Boost
    var r: Vector3
    var n: Vector3
    var k: Vector3
    var boostTprf: Boost
    var boostTmrf: Boost
    /** False when r_ and n_ hold the non-finite vectors of a degenerate get_r(). */
    var axesFinite: bool

    function CurrentFrame(): Frame
      reads this
    {
      Frame(boostTtrf, r, n, k, boostTprf, boostTmrf)
    }

    /** The constructor: the beam four-vector, identity boosts and zero axes. */
    constructor (m: MathLib)
      ensures beamP4 == BeamP4(m)
      ensures CurrentFrame() == Frame(Identity, Zero3, Zero3, Zero3, Identity, Identity) && axesFinite
    {
      beamP4 := LorentzVector(0.0, 0.0, m.sqrt(Sq(BeamEnergy) - Sq(BeamParticleMass)), BeamEnergy);
      boostTtrf, boostTprf, boostTmrf := Identity, Identity, Identity;
      r, n, k := Zero3, Zero3, Zero3;
      axesFinite := true;
    }

    /** setFittedTauLeptons(): picks tau+ and tau- by charge and stores the frame built from
        them.  `aborted` reports the two assertions of the source (both taus found, cos(theta)
        within tolerance); the state is then left as it was. */
    method SetFittedTauLeptons(m: MathLib, bf: BoostFn, fittedTauLepton1: FittedTauLepton,
                               fittedTauLepton2: FittedTauLepton) returns (aborted: bool)
      modifies this
      ensures beamP4 == old(beamP4)
      ensures var legs := [fittedTauLepton1, fittedTauLepton2];
        var plus, minus := LastWithSign(legs, Positive), LastWithSign(legs, Negative);
        && (aborted <==> plus.None? || minus.None? ||
                         FrameFor(m, bf, beamP4, plus.value.tauP4, minus.value.tauP4).FrameAborted?)
        && (aborted ==> unchanged(this))
        && (!aborted ==>
              match FrameFor(m, bf, beamP4, plus.value.tauP4, minus.value.tauP4)
              case FrameSet(f) => CurrentFrame() == f && axesFinite
              case FrameDegenerate(ttrf, k') =>
                CurrentFrame() == Frame(ttrf, Zero3, Zero3, k', Identity, Identity) && !axesFinite
              case FrameAborted => false)
    {
      var legs := [fittedTauLepton1, fittedTauLepton2];
      var fittedTauPlus: Option<FittedTauLepton> := None;
      var fittedTauMinus: Option<FittedTauLepton> := None;
      for i := 0 to |legs|
        invariant fittedTauPlus == LastWithSign(legs[..i], Positive)
        invariant fittedTauMinus == LastWithSign(legs[..i], Negative)
      {
        assert legs[..i + 1][..i] == legs[..i];
        if legs[i].measured.charge > 0 {
          fittedTauPlus := Some(legs[i]);
        } else if legs[i].measured.charge < 0 {
          fittedTauMinus := Some(legs[i]);
        }
      }
      assert legs[..|legs|] == legs;
      if fittedTauPlus.None? || fittedTauMinus.None? {
        return true;
      }
      var tauPlusP4 := fittedTauPlus.value.tauP4;
      var tauMinusP4 := fittedTauMinus.value.tauP4;
      var ttrf := ToRestFrameOf(Add(tauPlusP4, tauMinusP4));
      var axes := LocalCoordinateSystem(m, bf, tauMinusP4, ttrf, beamP4);
      match axes {
        case AbortedAxes =>
          return true;
        case DegenerateAxes(k') =>
          boostTtrf, k := ttrf, k';
          r, n := Zero3, Zero3;
          boostTprf, boostTmrf := Identity, Identity;
          axesFinite := false;
        case Axes(r', n', k') =>
          boostTtrf, r, n, k := ttrf, r', n', k';
          var tauPlusHf := GetP4Hf(GetP4Rf(bf, tauPlusP4, boostTtrf), r, n, k);
          boostTprf := ToRestFrameOf(tauPlusHf);
          var tauMinusHf := GetP4Hf(GetP4Rf(bf, tauMinusP4, boostTtrf), r, n, k);
          boostTmrf := ToRestFrameOf(tauMinusHf);
          axesFinite := true;
      }
      aborted := false;
    }

    /** operator()(p4, tau): p4 in the rest frame of the chosen tau, or None when the axes
        are not finite. */
    function Apply(bf: BoostFn, p4: LorentzVector, target: TauTarget): (res: Option<LorentzVector>)
      reads this
      ensures res.Some? <==> axesFinite
      ensures res.Some? ==> res.value == ApplyFrame(bf, CurrentFrame(), p4, target)
    {
      if !axesFinite then None
      else
        var hf := GetP4Hf(GetP4Rf(bf, p4, boostTtrf), r, n, k);
        Some(GetP4Rf(bf, hf, if target == TauPlus then boostTprf else boostTmrf))
    }
  }
}
