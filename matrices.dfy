/** The ROOT matrix and vector types the integrand uses (TMatrixD, TVectorD), as rows of
    reals, with the quadratic form v^T A v that every Gaussian pull is written with. */
module Matrices {
  import opened Numerics

  type Matrix = seq<seq<real>>

  /** An n x n matrix. */
  predicate IsSquare(a: Matrix, n: nat) {
    |a| == n && forall i :: 0 <= i < n ==> |a[i]| == n
  }

  /** The scalar product of two vectors of the same length. */
  function Dot(u: seq<real>, v: seq<real>): real
    requires |u| == |v|
    decreases |u|
  {
    if |u| == 0 then 0.0 else u[0] * v[0] + Dot(u[1..], v[1..])
  }

  /** The matrix-vector product A v. */
  function MatVec(a: Matrix, v: seq<real>): (w: seq<real>)
    requires forall i :: 0 <= i < |a| ==> |a[i]| == |v|
    ensures |w| == |a|
    ensures forall i :: 0 <= i < |a| ==> w[i] == Dot(a[i], v)
  {
    seq(|a|, i requires 0 <= i < |a| => Dot(a[i], v))
  }

  /** The quadratic form v^T A v, written `residual*(covInv*residual)` in the source. */
  function QuadraticForm(a: Matrix, v: seq<real>): real
    requires IsSquare(a, |v|)
  {
    Dot(v, MatVec(a, v))
  }

  /** The element-wise sum of two n x n matrices, TMatrixD::operator+. */
  function MatAdd(a: Matrix, b: Matrix, n: nat): (s: Matrix)
    requires IsSquare(a, n) && IsSquare(b, n)
    ensures IsSquare(s, n)
    ensures forall i, j :: 0 <= i < n && 0 <= j < n ==> s[i][j] == a[i][j] + b[i][j]
  {
    seq(n, i requires 0 <= i < n => seq(n, j requires 0 <= j < n => a[i][j] + b[i][j]))
  }

  /** The product of all entries is zero when one of them is. */
  lemma DotZero(u: seq<real>, v: seq<real>)
    requires |u| == |v|
    requires forall i :: 0 <= i < |u| ==> u[i] == 0.0
    ensures Dot(u, v) == 0.0
  {
    if |u| != 0 {
      DotZero(u[1..], v[1..]);
    }
  }

  /** The quadratic form vanishes at the zero vector. */
  lemma QuadraticFormAtZero(a: Matrix, v: seq<real>)
    requires IsSquare(a, |v|)
    requires forall i :: 0 <= i < |v| ==> v[i] == 0.0
    ensures QuadraticForm(a, v) == 0.0
  {
    DotZero(v, MatVec(a, v));
  }

  /** For a 2 x 2 matrix, the quadratic form is the expression the transverse missing-momentum
      pull spells out entry by entry. */
  lemma QuadraticForm2(a: Matrix, x: real, y: real)
    requires IsSquare(a, 2)
    ensures QuadraticForm(a, [x, y]) == x * (a[0][0] * x + a[0][1] * y) + y * (a[1][0] * x + a[1][1] * y)
  {
    var v := [x, y];
    var w := MatVec(a, v);
    assert Dot(a[0], v) == a[0][0] * x + Dot(a[0][1..], v[1..]);
    assert Dot(a[0][1..], v[1..]) == a[0][1] * y + Dot(a[0][2..], v[2..]);
    assert Dot(a[1], v) == a[1][0] * x + Dot(a[1][1..], v[1..]);
    assert Dot(a[1][1..], v[1..]) == a[1][1] * y + Dot(a[1][2..], v[2..]);
    assert Dot(v, w) == x * w[0] + Dot(v[1..], w[1..]);
    assert Dot(v[1..], w[1..]) == y * w[1] + Dot(v[2..], w[2..]);
  }
}
