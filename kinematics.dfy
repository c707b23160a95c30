/** The ROOT vector types the source computes with: a Cartesian 3-vector and a
    (px, py, pz, E) four-vector, with the few operations the core uses. */
module Kinematics {
  import opened Numerics

  datatype Vector3 = Vector3(x: real, y: real, z: real)

  datatype LorentzVector = LorentzVector(px: real, py: real, pz: real, e: real)

  const Zero3: Vector3 := Vector3(0.0, 0.0, 0.0)
  const Zero4: LorentzVector := LorentzVector(0.0, 0.0, 0.0, 0.0)

  /** The spatial part, LorentzVector::Vect(). */
  function Vect(p4: LorentzVector): Vector3 {
    Vector3(p4.px, p4.py, p4.pz)
  }

  function Plus(a: Vector3, b: Vector3): Vector3 {
    Vector3(a.x + b.x, a.y + b.y, a.z + b.z)
  }

  function Minus(a: Vector3, b: Vector3): Vector3 {
    Vector3(a.x - b.x, a.y - b.y, a.z - b.z)
  }

  function Times(a: Vector3, s: real): Vector3 {
    Vector3(a.x * s, a.y * s, a.z * s)
  }

  function Add(a: LorentzVector, b: LorentzVector): LorentzVector {
    LorentzVector(a.px + b.px, a.py + b.py, a.pz + b.pz, a.e + b.e)
  }

  /** The squared magnitude of the spatial part. */
  function P2(p4: LorentzVector): real {
    Sq(p4.px) + Sq(p4.py) + Sq(p4.pz)
  }

  /** LorentzVector::P(), the magnitude of the momentum. */
  function P(m: MathLib, p4: LorentzVector): real {
    m.sqrt(P2(p4))
  }

  /** LorentzVector::M(): the square root of E^2 - p^2, carrying the sign of a
      space-like invariant as ROOT does. */
  function Mass(m: MathLib, p4: LorentzVector): real {
    var mm := Sq(p4.e) - P2(p4);
    if mm >= 0.0 then m.sqrt(mm) else -m.sqrt(-mm)
  }

  /** The invariant mass of a time-like or light-like four-vector is the non-negative root
      of its invariant, and the sign tells time-like (or light-like) from space-like. */
  lemma MassSign(m: MathLib, p4: LorentzVector)
    requires SqrtLaw(m)
    ensures 0.0 <= Mass(m, p4) <==> P2(p4) <= Sq(p4.e)
    ensures 0.0 <= Mass(m, p4) ==> Sq(Mass(m, p4)) == Sq(p4.e) - P2(p4)
  {
    var mm := Sq(p4.e) - P2(p4);
    if mm < 0.0 {
      SqrtPositive(m, -mm);
    }
  }

  /** The squared momentum is never negative. */
  lemma P2NonNegative(p4: LorentzVector)
    ensures 0.0 <= P2(p4)
  {
    SqNonNegative(p4.px);
    SqNonNegative(p4.py);
    SqNonNegative(p4.pz);
  }
}
