/** src/svFitAuxFunctions.cc: vector helpers, the tau decay phase-space factors,
    the per-leg map of integration indices, fixMass and the element-wise matrix rounding. */
module AuxFunctions {
  import opened Numerics
  import opened Kinematics

  /** The physical constants of the header svFitAuxFunctions.h.  That header is not part
      of this model, so their values are parameters and ConstantsLaws states the signs
      the proofs use. */
  datatype Constants = Constants(
    tauLeptonMass: real,
    epsilon: real,
    cTauLifetime: real,
    constFactor: real,
    matrixElementNorm: real)

  predicate ConstantsLaws(c: Constants) {
    0.0 < c.tauLeptonMass && 0.0 <= c.epsilon && 0.0 < c.cTauLifetime &&
    0.0 <= c.constFactor && 0.0 <= c.matrixElementNorm
  }

  function TauLeptonMass2(c: Constants): real {
    Sq(c.tauLeptonMass)
  }

  lemma TauMass2Positive(c: Constants)
    requires ConstantsLaws(c)
    ensures 0.0 < TauLeptonMass2(c)
  {
    SqPositive(c.tauLeptonMass);
  }

  // ---------------------------------------------------------------------------------
  // 3-vectors

  /** compScalarProduct(). */
  function ScalarProduct(a: Vector3, b: Vector3): real {
    a.x * b.x + a.y * b.y + a.z * b.z
  }

  /** compCrossProduct(). */
  function CrossProduct(a: Vector3, b: Vector3): Vector3 {
    Vector3(a.y * b.z - a.z * b.y, a.z * b.x - a.x * b.z, a.x * b.y - a.y * b.x)
  }

  /** The squared magnitude, as normalize() computes it. */
  function Mag2(p: Vector3): real {
    Sq(p.x) + Sq(p.y) + Sq(p.z)
  }

  /** normalize(): the unit vector along p, or p itself when its squared magnitude is not positive. */
  function Normalize(m: MathLib, p: Vector3): Vector3 {
    var mag2 := Mag2(p);
    if mag2 <= 0.0 then p
    else
      var mag := m.sqrt(mag2);
      if mag == 0.0 then p // unreachable under SqrtLaw; keeps the division total
      else Vector3(p.x / mag, p.y / mag, p.z / mag)
  }

  lemma ScalarProductSymmetric(a: Vector3, b: Vector3)
    ensures ScalarProduct(a, b) == ScalarProduct(b, a)
  {
  }

  lemma Mag2IsScalarProduct(p: Vector3)
    ensures Mag2(p) == ScalarProduct(p, p)
  {
  }

  /** The squared magnitude is never negative, and zero only for the zero vector. */
  lemma Mag2NonNegative(p: Vector3)
    ensures 0.0 <= Mag2(p)
    ensures Mag2(p) == 0.0 <==> p == Zero3
  {
    SqNonNegative(p.x);
    SqNonNegative(p.y);
    SqNonNegative(p.z);
    if p != Zero3 {
      if p.x != 0.0 {
        SqPositive(p.x);
      } else if p.y != 0.0 {
        SqPositive(p.y);
      } else {
        SqPositive(p.z);
      }
    }
  }

  /** The cross product is orthogonal to both factors and changes sign when they are swapped. */
  lemma CrossProductOrthogonal(a: Vector3, b: Vector3)
    ensures ScalarProduct(CrossProduct(a, b), a) == 0.0
    ensures ScalarProduct(CrossProduct(a, b), b) == 0.0
    ensures CrossProduct(a, b) == Times(CrossProduct(b, a), -1.0)
  {
  }

  /** |a x b|^2 = |a|^2 |b|^2 - (a . b)^2 (Lagrange's identity). */
  lemma CrossProductMagnitude(a: Vector3, b: Vector3)
    ensures Mag2(CrossProduct(a, b)) == Mag2(a) * Mag2(b) - Sq(ScalarProduct(a, b))
  {
  }

  /** A vector of positive squared magnitude is normalized to a unit vector pointing the
      same way; any other vector is returned unchanged. */
  lemma NormalizeIsUnit(m: MathLib, p: Vector3)
    requires SqrtLaw(m)
    ensures Mag2(p) <= 0.0 ==> Normalize(m, p) == p
    ensures 0.0 < Mag2(p) ==> Mag2(Normalize(m, p)) == 1.0
    ensures 0.0 < Mag2(p) ==>
      0.0 < m.sqrt(Mag2(p)) && Normalize(m, p) == Times(p, 1.0 / m.sqrt(Mag2(p)))
  {
    var q := Mag2(p);
    if 0.0 < q {
      var s := m.sqrt(q);
      SqrtPositive(m, q);
      var k := 1.0 / s;
      var n := Normalize(m, p);
      assert n == Times(p, k);
      SqScale(p.x, k);
      SqScale(p.y, k);
      SqScale(p.z, k);
      assert Mag2(n) == q * Sq(k);
      SqScale(s, k);
      assert s * k == 1.0;
    }
  }

  // ---------------------------------------------------------------------------------
  // Phase-space factors of the tau decays

  /** compCosThetaNuNu(): the cosine of the angle between the visible and the invisible
      system.  A zero denominator gives +-inf or NaN in the source. */
  function CosThetaNuNu(c: Constants, visEn: real, visP: real, visMass2: real,
                        nunuEn: real, nunuP: real, nunuMass2: real): Num
  {
    if visP * nunuP == 0.0 then NonFinite
    else Finite((visEn * nunuEn - 0.5 * (TauLeptonMass2(c) - (visMass2 + nunuMass2))) / (visP * nunuP))
  }

  /** The cosine is finite only for non-zero momenta of both systems. */
  lemma CosFiniteMomenta(c: Constants, visEn: real, visP: real, visMass2: real,
                         nunuEn: real, nunuP: real, nunuMass2: real)
    ensures CosThetaNuNu(c, visEn, visP, visMass2, nunuEn, nunuP, nunuMass2).Finite? ==>
      visP != 0.0 && nunuP != 0.0
  {
    if visP * nunuP != 0.0 {
      assert visP != 0.0 && nunuP != 0.0;
    }
  }

  /** The test `-1 + epsilon <= cosTheta <= +1`, which every non-finite value fails. */
  predicate CosInRange(c: Constants, cos: Num) {
    cos.Finite? && -1.0 + c.epsilon <= cos.v <= 1.0
  }

  /** The common denominator 8 visP x^2 sqrt(visP^2 + nuP^2 + 2 visP nuP cos + mTau^2). */
  function PSDenominator(m: MathLib, c: Constants, x: real, visP: real, nuP: real, cos: real): real {
    8.0 * visP * Sq(x) * m.sqrt(Sq(visP) + Sq(nuP) + 2.0 * visP * nuP * cos + TauLeptonMass2(c))
  }

  lemma CosineLawNonNegative(a: real, b: real, cos: real)
    requires -1.0 <= cos <= 1.0
    ensures 0.0 <= Sq(a) + Sq(b) + 2.0 * a * b * cos
  {
    assert Sq(a) + Sq(b) + 2.0 * a * b * cos == Sq(a + b * cos) + Sq(b) * (1.0 - Sq(cos));
    SqMonotone(Abs(cos), 1.0);
    SqAbs(cos);
    SqNonNegative(a + b * cos);
    SqNonNegative(b);
    MulLeftMono(Sq(b), 0.0, 1.0 - Sq(cos));
  }

  /** After the angle test has passed, the denominator is zero exactly when x is, and it
      has the sign of visP otherwise. */
  lemma PSDenominatorSign(m: MathLib, c: Constants, x: real, visP: real, nuP: real, cos: real)
    requires SqrtLaw(m) && ConstantsLaws(c)
    requires visP != 0.0 && -1.0 <= cos <= 1.0
    ensures PSDenominator(m, c, x, visP, nuP, cos) == 0.0 <==> x == 0.0
    ensures 0.0 < visP && x != 0.0 ==> 0.0 < PSDenominator(m, c, x, visP, nuP, cos)
  {
    var s2 := Sq(visP) + Sq(nuP) + 2.0 * visP * nuP * cos + TauLeptonMass2(c);
    CosineLawNonNegative(visP, nuP, cos);
    TauMass2Positive(c);
    SqrtPositive(m, s2);
    var s := m.sqrt(s2);
    if x == 0.0 {
      assert Sq(x) == 0.0;
    } else {
      SqPositive(x);
      var d := 8.0 * visP * Sq(x);
      if 0.0 < visP {
        MulPositive(8.0 * visP, Sq(x));
        MulPositive(d, s);
      } else {
        MulPositive(-8.0 * visP, Sq(x));
        MulPositive(-d, s);
      }
      assert PSDenominator(m, c, x, visP, nuP, cos) == d * s;
    }
  }

  /** The kinematic window of the leptonic decay: m_vis^2 / mTau^2 <= x <= 1 and
      m_nunu^2 < (1 - x) mTau^2. */
  predicate LepKinematicsAllowed(c: Constants, x: real, visMass2: real, nunuMass2: real)
    requires ConstantsLaws(c)
  {
    TauMass2Positive(c);
    x >= visMass2 / TauLeptonMass2(c) && x <= 1.0 && nunuMass2 < (1.0 - x) * TauLeptonMass2(c)
  }

  /** compPSfactor_tauToLepDecay(). */
  function PSFactorTauToLepDecay(m: MathLib, c: Constants, x: real, visEn: real, visP: real, visMass: real,
                                 nunuEn: real, nunuP: real, nunuMass: real): Num
    requires ConstantsLaws(c)
  {
    var visMass2 := Sq(visMass);
    var nunuMass2 := Sq(nunuMass);
    var cos := CosThetaNuNu(c, visEn, visP, visMass2, nunuEn, nunuP, nunuMass2);
    if !LepKinematicsAllowed(c, x, visMass2, nunuMass2) then Finite(0.0)
    else if nunuMass == 0.0 then
      // The rest-frame energies divide mTau^2 - visMass^2 > 0 by zero: both are +inf and
      // pass their test, and I = 0 * (inf - inf) is NaN, which reaches the result unless
      // the angle test returns 0 first.
      if CosInRange(c, cos) then NonFinite else Finite(0.0)
    else LepDecayMassive(m, c, x, visEn, visP, visMass, nunuEn, nunuP, nunuMass, cos)
  }

  /** The rest-frame energy of the tau for an invisible system of mass nunuMass != 0. */
  function TauEnergyRestFrame(c: Constants, visMass: real, nunuMass: real): real
    requires nunuMass != 0.0
  {
    (TauLeptonMass2(c) + Sq(nunuMass) - Sq(visMass)) / (2.0 * nunuMass)
  }

  /** The rest-frame energy test of compPSfactor_tauToLepDecay: the tau energy is at
      least the tau mass and the visible energy at least the visible mass. */
  predicate LepRestFrameAllowed(c: Constants, visMass: real, nunuMass: real)
    requires nunuMass != 0.0
  {
    var tauEnRf := TauEnergyRestFrame(c, visMass, nunuMass);
    tauEnRf >= c.tauLeptonMass && tauEnRf - nunuMass >= visMass
  }

  /** The phase-space integral I = m_nunu^2 (2 E_tau E_vis - (2/3) sqrt(...)) in the tau
      rest frame. */
  function LepIntegral(m: MathLib, c: Constants, visMass: real, nunuMass: real): real
    requires nunuMass != 0.0
  {
    var tauEnRf := TauEnergyRestFrame(c, visMass, nunuMass);
    Sq(nunuMass) * LepIntegrand(m, c, tauEnRf, tauEnRf - nunuMass, Sq(visMass))
  }

  /** The rest of compPSfactor_tauToLepDecay once the invisible mass is not zero: the
      rest-frame energy test, the integral I, the angle test and the quotient. */
  function LepDecayMassive(m: MathLib, c: Constants, x: real, visEn: real, visP: real, visMass: real,
                           nunuEn: real, nunuP: real, nunuMass: real, cos: Num): Num
    requires nunuMass != 0.0
  {
    if !LepRestFrameAllowed(c, visMass, nunuMass) then Finite(0.0)
    else LepQuotient(m, c, x, visEn, visP, nunuEn, nunuP, LepIntegral(m, c, visMass, nunuMass), cos)
  }

  /** The angle test and the quotient (E_vis + E_nunu) I / denominator of the leptonic
      factor, for an integral value i. */
  function LepQuotient(m: MathLib, c: Constants, x: real, visEn: real, visP: real,
                       nunuEn: real, nunuP: real, i: real, cos: Num): Num
  {
    if !CosInRange(c, cos) then Finite(0.0)
    else
      var d := PSDenominator(m, c, x, visP, nunuP, cos.v);
      if d == 0.0 then NonFinite
      else Finite((visEn + nunuEn) * i / d)
  }

  lemma LepQuotientNonNegative(m: MathLib, c: Constants, x: real, visEn: real, visP: real,
                               nunuEn: real, nunuP: real, i: real, cos: Num)
    requires SqrtLaw(m) && ConstantsLaws(c)
    requires 0.0 <= visEn && 0.0 <= visP && 0.0 <= nunuEn && 0.0 <= i
    requires cos.Finite? ==> visP != 0.0
    ensures var r := LepQuotient(m, c, x, visEn, visP, nunuEn, nunuP, i, cos);
      r.NonFinite? || 0.0 <= r.v
  {
    if CosInRange(c, cos) {
      PSDenominatorSign(m, c, x, visP, nunuP, cos.v);
      MulLeftMono(visEn + nunuEn, 0.0, i);
      var d := PSDenominator(m, c, x, visP, nunuP, cos.v);
      if d != 0.0 {
        QuotientNonNegative((visEn + nunuEn) * i, d);
      }
    }
  }


  /** The bracket 2 E_tau E_vis - (2/3) sqrt((E_tau^2 - mTau^2)(E_vis^2 - m_vis^2)) of the
      leptonic phase-space integral, in the tau rest frame. */
  function LepIntegrand(m: MathLib, c: Constants, tauEnRf: real, visEnRf: real, visMass2: real): real {
    2.0 * tauEnRf * visEnRf - (2.0 / 3.0) * m.sqrt(MomentaProduct(c, tauEnRf, visEnRf, visMass2))
  }

  /** (E_tau^2 - mTau^2)(E_vis^2 - m_vis^2), the product of the squared rest-frame momenta. */
  function MomentaProduct(c: Constants, tauEnRf: real, visEnRf: real, visMass2: real): real {
    (Sq(tauEnRf) - TauLeptonMass2(c)) * (Sq(visEnRf) - visMass2)
  }

  lemma MomentaProductBounds(c: Constants, tauEnRf: real, visEnRf: real, visMass: real)
    requires ConstantsLaws(c) && 0.0 <= visMass
    requires tauEnRf >= c.tauLeptonMass && visEnRf >= visMass
    ensures 0.0 <= MomentaProduct(c, tauEnRf, visEnRf, Sq(visMass)) <= Sq(tauEnRf * visEnRf)
  {
    TauMass2Positive(c);
    SqMonotone(c.tauLeptonMass, tauEnRf);
    SqMonotone(visMass, visEnRf);
    SqNonNegative(visMass);
    ProductBounds(Sq(tauEnRf) - TauLeptonMass2(c), Sq(visEnRf) - Sq(visMass), Sq(tauEnRf), Sq(visEnRf));
    SqScale(tauEnRf, visEnRf);
  }

  /** compPSfactor_tauToHadDecay(). */
  function PSFactorTauToHadDecay(m: MathLib, c: Constants, x: real, visEn: real, visP: real, visMass: real,
                                 nuEn: real, nuP: real): Num
    requires ConstantsLaws(c)
  {
    var visMass2 := Sq(visMass);
    var mt2 := TauLeptonMass2(c);
    TauMass2Positive(c);
    if !(x >= visMass2 / mt2 && x <= 1.0) then Finite(0.0)
    else
      var cos := CosThetaNuNu(c, visEn, visP, visMass2, nuEn, nuP, 0.0);
      if !CosInRange(c, cos) then Finite(0.0)
      else
        var d := PSDenominator(m, c, x, visP, nuP, cos.v);
        if d == 0.0 || mt2 - visMass2 == 0.0 then NonFinite
        else Finite((visEn + nuEn) / d * (1.0 / (mt2 - visMass2)))
  }

  /** The leptonic factor vanishes outside the physical region: x in [m_vis^2/mTau^2, 1],
      m_nunu^2 < (1 - x) mTau^2, rest-frame energies above the masses and the angle window. */
  lemma LepDecayVanishesOutside(m: MathLib, c: Constants, x: real, visEn: real, visP: real, visMass: real,
                                nunuEn: real, nunuP: real, nunuMass: real)
    requires ConstantsLaws(c)
    ensures var r := PSFactorTauToLepDecay(m, c, x, visEn, visP, visMass, nunuEn, nunuP, nunuMass);
      r != Finite(0.0) ==>
        && LepKinematicsAllowed(c, x, Sq(visMass), Sq(nunuMass))
        && CosInRange(c, CosThetaNuNu(c, visEn, visP, Sq(visMass), nunuEn, nunuP, Sq(nunuMass)))
        && (nunuMass != 0.0 ==> LepRestFrameAllowed(c, visMass, nunuMass))
  {
    var cos := CosThetaNuNu(c, visEn, visP, Sq(visMass), nunuEn, nunuP, Sq(nunuMass));
    if nunuMass != 0.0 {
      LepDecayMassiveVanishesOutside(m, c, x, visEn, visP, visMass, nunuEn, nunuP, nunuMass, cos);
    }
  }

  /** The kinematic window written without the quotient: m_vis^2 <= x mTau^2, x <= 1 and
      m_nunu^2 < (1 - x) mTau^2. */
  lemma LepKinematicsAllowedIff(c: Constants, x: real, visMass2: real, nunuMass2: real)
    requires ConstantsLaws(c)
    ensures LepKinematicsAllowed(c, x, visMass2, nunuMass2) <==>
      visMass2 <= x * TauLeptonMass2(c) && x <= 1.0 && nunuMass2 < (1.0 - x) * TauLeptonMass2(c)
  {
    TauMass2Positive(c);
    DivLeIff(visMass2, TauLeptonMass2(c), x);
  }

  lemma LepDecayMassiveVanishesOutside(m: MathLib, c: Constants, x: real, visEn: real, visP: real, visMass: real,
                                       nunuEn: real, nunuP: real, nunuMass: real, cos: Num)
    requires nunuMass != 0.0
    ensures LepDecayMassive(m, c, x, visEn, visP, visMass, nunuEn, nunuP, nunuMass, cos) != Finite(0.0) ==>
      LepRestFrameAllowed(c, visMass, nunuMass) && CosInRange(c, cos)
  {
  }

  /** For x > 0 the leptonic factor is non-finite exactly when the invisible mass is zero
      and the kinematic and angle tests pass: the source relies on its caller to turn
      that NaN into zero. */
  lemma LepDecayNonFiniteIff(m: MathLib, c: Constants, x: real, visEn: real, visP: real, visMass: real,
                             nunuEn: real, nunuP: real, nunuMass: real)
    requires SqrtLaw(m) && ConstantsLaws(c) && 0.0 < x
    ensures PSFactorTauToLepDecay(m, c, x, visEn, visP, visMass, nunuEn, nunuP, nunuMass).NonFinite? <==>
      && nunuMass == 0.0
      && Sq(visMass) <= x * TauLeptonMass2(c) && x < 1.0
      && CosInRange(c, CosThetaNuNu(c, visEn, visP, Sq(visMass), nunuEn, nunuP, 0.0))
  {
    var mt2 := TauLeptonMass2(c);
    TauMass2Positive(c);
    DivLeIff(Sq(visMass), mt2, x);
    var cos := CosThetaNuNu(c, visEn, visP, Sq(visMass), nunuEn, nunuP, Sq(nunuMass));
    var r := PSFactorTauToLepDecay(m, c, x, visEn, visP, visMass, nunuEn, nunuP, nunuMass);
    if nunuMass == 0.0 {
      assert Sq(nunuMass) == 0.0;
      if x < 1.0 {
        MulPositive(1.0 - x, mt2);
      } else {
        MulLeftMono(mt2, 1.0 - x, 0.0);
      }
    } else if CosInRange(c, cos) {
      assert visP != 0.0;
      PSDenominatorSign(m, c, x, visP, nunuP, cos.v);
      assert !r.NonFinite?;
    } else {
      assert !r.NonFinite?;
    }
  }

  /** The hadronic factor vanishes outside x in [m_vis^2/mTau^2, 1] and outside the angle
      window of a massless invisible system; for a visible mass below the tau mass and
      x > 0 it is finite. */
  lemma HadDecayPhysicalRegion(m: MathLib, c: Constants, x: real, visEn: real, visP: real, visMass: real,
                               nuEn: real, nuP: real)
    requires SqrtLaw(m) && ConstantsLaws(c)
    ensures var r := PSFactorTauToHadDecay(m, c, x, visEn, visP, visMass, nuEn, nuP);
      r != Finite(0.0) ==>
        && Sq(visMass) <= x * TauLeptonMass2(c) && x <= 1.0
        && CosInRange(c, CosThetaNuNu(c, visEn, visP, Sq(visMass), nuEn, nuP, 0.0))
    ensures 0.0 < x && Sq(visMass) < TauLeptonMass2(c) ==>
      PSFactorTauToHadDecay(m, c, x, visEn, visP, visMass, nuEn, nuP).Finite?
  {
    TauMass2Positive(c);
    DivLeIff(Sq(visMass), TauLeptonMass2(c), x);
    var cos := CosThetaNuNu(c, visEn, visP, Sq(visMass), nuEn, nuP, 0.0);
    if CosInRange(c, cos) {
      assert visP != 0.0;
      PSDenominatorSign(m, c, x, visP, nuP, cos.v);
    }
  }

  /** The hadronic factor is never negative for physical momenta and energies. */
  lemma HadDecayNonNegative(m: MathLib, c: Constants, x: real, visEn: real, visP: real, visMass: real,
                            nuEn: real, nuP: real)
    requires SqrtLaw(m) && ConstantsLaws(c) && Sq(visMass) < TauLeptonMass2(c)
    requires 0.0 <= visEn && 0.0 <= visP && 0.0 <= nuEn
    ensures var r := PSFactorTauToHadDecay(m, c, x, visEn, visP, visMass, nuEn, nuP);
      r.NonFinite? || 0.0 <= r.v
  {
    var visMass2 := Sq(visMass);
    var mt2 := TauLeptonMass2(c);
    var cos := CosThetaNuNu(c, visEn, visP, visMass2, nuEn, nuP, 0.0);
    TauMass2Positive(c);
    if x >= visMass2 / mt2 && x <= 1.0 && CosInRange(c, cos) {
      assert visP != 0.0;
      PSDenominatorSign(m, c, x, visP, nuP, cos.v);
      var d := PSDenominator(m, c, x, visP, nuP, cos.v);
      if d != 0.0 {
        var q := (visEn + nuEn) / d;
        assert 0.0 <= q;
        MulLeftMono(q, 0.0, 1.0 / (mt2 - visMass2));
      }
    }
  }

  /** The bracket of the leptonic integral is non-negative once the rest-frame energies
      have passed their test. */
  lemma LepIntegrandNonNegative(m: MathLib, c: Constants, tauEnRf: real, visEnRf: real, visMass: real)
    requires SqrtLaw(m) && ConstantsLaws(c) && 0.0 <= visMass
    requires tauEnRf >= c.tauLeptonMass && visEnRf >= visMass
    ensures 0.0 <= LepIntegrand(m, c, tauEnRf, visEnRf, Sq(visMass))
  {
    MomentaProductBounds(c, tauEnRf, visEnRf, visMass);
    SqrtMonotone(m, MomentaProduct(c, tauEnRf, visEnRf, Sq(visMass)), Sq(tauEnRf * visEnRf));
    SqrtOfSq(m, tauEnRf * visEnRf);
    MulLeftMono(tauEnRf, 0.0, visEnRf);
  }

  /** The leptonic factor is NaN or non-negative for physical momenta, energies and masses. */
  lemma LepDecayNonNegative(m: MathLib, c: Constants, x: real, visEn: real, visP: real, visMass: real,
                            nunuEn: real, nunuP: real, nunuMass: real)
    requires SqrtLaw(m) && ConstantsLaws(c)
    requires 0.0 <= visEn && 0.0 <= visP && 0.0 <= visMass && 0.0 <= nunuEn
    ensures var r := PSFactorTauToLepDecay(m, c, x, visEn, visP, visMass, nunuEn, nunuP, nunuMass);
      r.NonFinite? || 0.0 <= r.v
  {
    var cos := CosThetaNuNu(c, visEn, visP, Sq(visMass), nunuEn, nunuP, Sq(nunuMass));
    CosFiniteMomenta(c, visEn, visP, Sq(visMass), nunuEn, nunuP, Sq(nunuMass));
    if LepKinematicsAllowed(c, x, Sq(visMass), Sq(nunuMass)) && nunuMass != 0.0 {
      LepDecayMassiveNonNegative(m, c, x, visEn, visP, visMass, nunuEn, nunuP, nunuMass, cos);
    }
  }

  lemma LepDecayMassiveNonNegative(m: MathLib, c: Constants, x: real, visEn: real, visP: real, visMass: real,
                                   nunuEn: real, nunuP: real, nunuMass: real, cos: Num)
    requires SqrtLaw(m) && ConstantsLaws(c) && nunuMass != 0.0
    requires 0.0 <= visEn && 0.0 <= visP && 0.0 <= visMass && 0.0 <= nunuEn
    requires cos.Finite? ==> visP != 0.0
    ensures var r := LepDecayMassive(m, c, x, visEn, visP, visMass, nunuEn, nunuP, nunuMass, cos);
      r.NonFinite? || 0.0 <= r.v
  {
    if LepRestFrameAllowed(c, visMass, nunuMass) {
      LepIntegralNonNegative(m, c, visMass, nunuMass);
      LepQuotientNonNegative(m, c, x, visEn, visP, nunuEn, nunuP, LepIntegral(m, c, visMass, nunuMass), cos);
    }
  }

  /** The integral I is non-negative once the rest-frame energies have passed their test. */
  lemma LepIntegralNonNegative(m: MathLib, c: Constants, visMass: real, nunuMass: real)
    requires SqrtLaw(m) && ConstantsLaws(c) && nunuMass != 0.0 && 0.0 <= visMass
    requires LepRestFrameAllowed(c, visMass, nunuMass)
    ensures 0.0 <= LepIntegral(m, c, visMass, nunuMass)
  {
    var tauEnRf := TauEnergyRestFrame(c, visMass, nunuMass);
    LepIntegrandNonNegative(m, c, tauEnRf, tauEnRf - nunuMass, visMass);
    SqNonNegative(nunuMass);
    MulLeftMono(Sq(nunuMass), 0.0, LepIntegrand(m, c, tauEnRf, tauEnRf - nunuMass, Sq(visMass)));
  }

  // ---------------------------------------------------------------------------------
  // Integration parameters

  /** The indices one leg's quantities have in the integrand's parameter vector; -1 marks
      a dimension that is absent.  This is the value integrationParameters copies into
      the integrand. */
  datatype LegIndices = LegIndices(
    idxX: int, idxPhi: int, idxVisPtShift: int, idxMNuNu: int, idxFlightLength: int)

  const AbsentIndex: int := -1

  /** integrationParameters. */
  class IntegrationParameters {
    var idxX: int
    var idxPhi: int
    var idxVisPtShift: int
    var idxMNuNu: int
    var idxFlightLength: int

    function Indices(): LegIndices
      reads this
    {
      LegIndices(idxX, idxPhi, idxVisPtShift, idxMNuNu, idxFlightLength)
    }

    constructor ()
      ensures Indices() == LegIndices(AbsentIndex, AbsentIndex, AbsentIndex, AbsentIndex, AbsentIndex)
    {
      new;
      Reset();
    }

    method Reset()
      modifies this
      ensures Indices() == LegIndices(AbsentIndex, AbsentIndex, AbsentIndex, AbsentIndex, AbsentIndex)
    {
      idxX := -1;
      idxPhi := -1;
      idxVisPtShift := -1;
      idxMNuNu := -1;
      idxFlightLength := -1;
    }
  }

  // ---------------------------------------------------------------------------------
  // fixMass

  /** fixMass(): keep the momentum and put the four-vector on the mass shell of `mass`. */
  function FixMass(m: MathLib, p4: LorentzVector, mass: real): LorentzVector {
    LorentzVector(p4.px, p4.py, p4.pz, m.sqrt(P2(p4) + Sq(mass)))
  }

  /** fixTauMass(). */
  function FixTauMass(m: MathLib, c: Constants, tauP4: LorentzVector): LorentzVector {
    FixMass(m, tauP4, c.tauLeptonMass)
  }

  /** fixNuMass(). */
  function FixNuMass(m: MathLib, nuP4: LorentzVector): LorentzVector {
    FixMass(m, nuP4, 0.0)
  }

  /** fixMass keeps the momentum and yields a non-negative energy and a four-vector of
      invariant mass |mass|. */
  lemma FixMassOnShell(m: MathLib, p4: LorentzVector, mass: real)
    requires SqrtLaw(m)
    ensures var f := FixMass(m, p4, mass);
      && Vect(f) == Vect(p4)
      && 0.0 <= f.e
      && Sq(f.e) - P2(f) == Sq(mass)
      && Mass(m, f) == Abs(mass)
  {
    P2NonNegative(p4);
    SqNonNegative(mass);
    SqrtOfSq(m, mass);
  }

  /** fixTauMass puts a vector on the tau mass shell, fixNuMass on the light cone. */
  lemma FixTauAndNuMass(m: MathLib, c: Constants, p4: LorentzVector)
    requires SqrtLaw(m) && ConstantsLaws(c)
    ensures Mass(m, FixTauMass(m, c, p4)) == c.tauLeptonMass
    ensures Vect(FixTauMass(m, c, p4)) == Vect(p4) && Vect(FixNuMass(m, p4)) == Vect(p4)
    ensures FixNuMass(m, p4).e == P(m, p4) && Mass(m, FixNuMass(m, p4)) == 0.0
  {
    FixMassOnShell(m, p4, c.tauLeptonMass);
    FixMassOnShell(m, p4, 0.0);
  }

  // ---------------------------------------------------------------------------------
  // roundToNdigits for matrices

  /** roundToNdigits(const TMatrixD&, int): a new matrix of the same shape whose every entry
      is the scalar rounding of the entry in the same place.  The scalar rounding is a parameter. */
  method RoundMatrixToNdigits(mat: array2<real>, n: int, roundToNdigits: (real, int) -> real)
    returns (rounded: array2<real>)
    ensures fresh(rounded)
    ensures rounded.Length0 == mat.Length0 && rounded.Length1 == mat.Length1
    ensures forall i, j :: 0 <= i < mat.Length0 && 0 <= j < mat.Length1 ==>
      rounded[i, j] == roundToNdigits(mat[i, j], n)
  {
    var nRows, nColumns := mat.Length0, mat.Length1;
    rounded := new real[nRows, nColumns];
    for iRow := 0 to nRows
      invariant forall i, j :: 0 <= i < iRow && 0 <= j < nColumns ==>
        rounded[i, j] == roundToNdigits(mat[i, j], n)
    {
      for iColumn := 0 to nColumns
        invariant forall i, j :: 0 <= i < iRow && 0 <= j < nColumns ==>
          rounded[i, j] == roundToNdigits(mat[i, j], n)
        invariant forall j :: 0 <= j < iColumn ==> rounded[iRow, j] == roundToNdigits(mat[iRow, j], n)
      {
        rounded[iRow, iColumn] := roundToNdigits(mat[iRow, iColumn], n);
      }
    }
  }
}
