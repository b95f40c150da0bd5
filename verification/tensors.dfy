/**
 The small amount of tensor algebra the elastic workflow performs itself:
 the Green-Lagrange strain of a deformation gradient, the rotation of a
 second-rank tensor by a symmetry operation, and the Voigt (6x6) view of a
 rank-4 tensor together with scalar multiplication of it.
 */
module Tensors {

  type Matrix = seq<seq<real>>

  predicate IsSquare(m: Matrix, n: nat) {
    |m| == n && forall i :: 0 <= i < n ==> |m[i]| == n
  }

  /** `m[i][j]`, reading missing entries as zero so that every operation below
      is total; the library only ever hands over 3x3 matrices. */
  function At(m: Matrix, i: nat, j: nat): real {
    if i < |m| && j < |m[i]| then m[i][j] else 0.0
  }

  predicate Symmetric(m: Matrix) {
    forall i, j :: 0 <= i < 3 && 0 <= j < 3 ==> At(m, i, j) == At(m, j, i)
  }

  function Delta(i: nat, j: nat): real { if i == j then 1.0 else 0.0 }

  const Identity: Matrix := [[1.0, 0.0, 0.0], [0.0, 1.0, 0.0], [0.0, 0.0, 1.0]]

  /** Dot product of columns i and j of f: (F^T F)[i][j]. */
  function ColumnDot(f: Matrix, i: nat, j: nat): real {
    At(f, 0, i) * At(f, 0, j) + At(f, 1, i) * At(f, 1, j) + At(f, 2, i) * At(f, 2, j)
  }

  /** `Deformation.green_lagrange_strain`: E = (F^T F - I) / 2. */
  function GreenLagrange(f: Matrix): (e: Matrix)
    ensures IsSquare(e, 3)
  {
    seq(3, i requires 0 <= i < 3 =>
      seq(3, j requires 0 <= j < 3 => (ColumnDot(f, i, j) - Delta(i, j)) / 2.0))
  }

  /** The strain of every deformation gradient is a symmetric tensor. */
  lemma GreenLagrangeSymmetric(f: Matrix)
    ensures Symmetric(GreenLagrange(f))
  {
    var e := GreenLagrange(f);
    forall i, j | 0 <= i < 3 && 0 <= j < 3
      ensures At(e, i, j) == At(e, j, i)
    {
      assert ColumnDot(f, i, j) == ColumnDot(f, j, i);
    }
  }

  /** The undeformed lattice carries no strain. */
  lemma GreenLagrangeOfIdentity()
    ensures GreenLagrange(Identity) == [[0.0, 0.0, 0.0], [0.0, 0.0, 0.0], [0.0, 0.0, 0.0]]
  {
    var e := GreenLagrange(Identity);
    forall i | 0 <= i < 3
      ensures e[i] == [0.0, 0.0, 0.0]
    {
      assert e[i][0] == 0.0 && e[i][1] == 0.0 && e[i][2] == 0.0;
    }
  }

  /** A symmetry operation; only its rotation acts on tensors. */
  datatype SymmOp = SymmOp(rotation: Matrix, translation: seq<real>)

  /** One entry of R T R^T: sum over a, b of R[i][a] R[j][b] T[a][b]. */
  function Rotated(r: Matrix, t: Matrix, i: nat, j: nat): real {
    RotatedRow(r, t, i, j, 0) + RotatedRow(r, t, i, j, 1) + RotatedRow(r, t, i, j, 2)
  }

  function RotatedRow(r: Matrix, t: Matrix, i: nat, j: nat, a: nat): real {
    At(r, i, a) * (At(r, j, 0) * At(t, a, 0) + At(r, j, 1) * At(t, a, 1) + At(r, j, 2) * At(t, a, 2))
  }

  /** `Tensor.transform(symm_op)` for a second-rank tensor: T' = R T R^T. */
  function Transform(t: Matrix, op: SymmOp): (t': Matrix)
    ensures IsSquare(t', 3)
  {
    seq(3, i requires 0 <= i < 3 =>
      seq(3, j requires 0 <= j < 3 => Rotated(op.rotation, t, i, j)))
  }

  /** Rotating a symmetric tensor (a strain or a stress) keeps it symmetric, so
      the symmetry-expanded strains and stresses stay physical. */
  lemma TransformKeepsSymmetry(t: Matrix, op: SymmOp)
    requires Symmetric(t)
    ensures Symmetric(Transform(t, op))
  {
    var t' := Transform(t, op);
    forall i, j | 0 <= i < 3 && 0 <= j < 3
      ensures At(t', i, j) == At(t', j, i)
    {
      assert Rotated(op.rotation, t, i, j) == Rotated(op.rotation, t, j, i);
    }
  }

  /** The identity operation leaves every tensor unchanged. */
  lemma TransformByIdentity(t: Matrix, translation: seq<real>)
    requires IsSquare(t, 3)
    ensures Transform(t, SymmOp(Identity, translation)) == t
  {
    var t' := Transform(t, SymmOp(Identity, translation));
    forall i | 0 <= i < 3
      ensures t'[i] == t[i]
    {
      forall j | 0 <= j < 3
        ensures t'[i][j] == t[i][j]
      {
      }
    }
  }

  // ---------------------------------------------------------------------------
  // Rank-4 tensors and Voigt notation
  // ---------------------------------------------------------------------------

  /** A rank-4 tensor over indices 0..2. */
  datatype Tensor4 = Tensor4(at: (nat, nat, nat, nat) -> real)

  /** `c * tensor`. */
  function Scale4(t: Tensor4, c: real): Tensor4 {
    Tensor4((a: nat, b: nat, p: nat, q: nat) => c * t.at(a, b, p, q))
  }

  /** The full index pair a Voigt index is read from. pymatgen fills the Voigt
      matrix from a dictionary keyed by full indices, so which member of a
      symmetric pair ends up in the matrix follows the dictionary's iteration
      order; the model takes the later one in lexicographic order. For a
      tensor with the minor symmetries the choice makes no difference. */
  function VoigtPair(v: nat): (nat, nat)
    requires v < 6
  {
    if v == 0 then (0, 0)
    else if v == 1 then (1, 1)
    else if v == 2 then (2, 2)
    else if v == 3 then (2, 1)
    else if v == 4 then (2, 0)
    else (1, 0)
  }

  /** `tensor.voigt` for a rank-4 tensor: a 6x6 matrix. */
  function Voigt(t: Tensor4): (m: Matrix)
    ensures IsSquare(m, 6)
  {
    seq(6, i requires 0 <= i < 6 =>
      seq(6, j requires 0 <= j < 6 =>
        t.at(VoigtPair(i).0, VoigtPair(i).1, VoigtPair(j).0, VoigtPair(j).1)))
  }

  function ScaleMatrix(m: Matrix, c: real): (r: Matrix)
    ensures |r| == |m|
    ensures forall i :: 0 <= i < |m| ==> |r[i]| == |m[i]|
  {
    seq(|m|, i requires 0 <= i < |m| =>
      seq(|m[i]|, j requires 0 <= j < |m[i]| => c * m[i][j]))
  }

  /** Scaling commutes with the Voigt view: `(c * T).voigt == c * T.voigt`. */
  lemma VoigtOfScaled(t: Tensor4, c: real)
    ensures Voigt(Scale4(t, c)) == ScaleMatrix(Voigt(t), c)
  {
    var l := Voigt(Scale4(t, c));
    var r := ScaleMatrix(Voigt(t), c);
    forall i | 0 <= i < 6
      ensures l[i] == r[i]
    {
      forall j | 0 <= j < 6
        ensures l[i][j] == r[i][j]
      {
      }
    }
  }

  /** Major symmetry: swapping the first index pair with the second. */
  predicate MajorSymmetric(t: Tensor4) {
    forall a: nat, b: nat, p: nat, q: nat | a < 3 && b < 3 && p < 3 && q < 3 ::
      t.at(a, b, p, q) == t.at(p, q, a, b)
  }

  /** Minor symmetries: swapping within either index pair. */
  predicate MinorSymmetric(t: Tensor4) {
    forall a: nat, b: nat, p: nat, q: nat | a < 3 && b < 3 && p < 3 && q < 3 ::
      t.at(a, b, p, q) == t.at(b, a, p, q) && t.at(a, b, p, q) == t.at(a, b, q, p)
  }

  /** A stiffness tensor with major symmetry has a symmetric Voigt matrix. */
  lemma VoigtOfMajorSymmetric(t: Tensor4)
    requires MajorSymmetric(t)
    ensures forall i, j :: 0 <= i < 6 && 0 <= j < 6 ==> Voigt(t)[i][j] == Voigt(t)[j][i]
  {
    var m := Voigt(t);
    forall i, j | 0 <= i < 6 && 0 <= j < 6
      ensures m[i][j] == m[j][i]
    {
      var (a, b) := VoigtPair(i);
      var (p, q) := VoigtPair(j);
      assert m[i][j] == t.at(a, b, p, q);
      assert m[j][i] == t.at(p, q, a, b);
    }
  }

  /** With the minor symmetries the Voigt matrix does not depend on which
      member of each symmetric index pair is read. */
  lemma VoigtOfMinorSymmetric(t: Tensor4)
    requires MinorSymmetric(t)
    ensures forall i, j :: 0 <= i < 6 && 0 <= j < 6 ==>
      Voigt(t)[i][j] == t.at(VoigtPair(i).1, VoigtPair(i).0, VoigtPair(j).1, VoigtPair(j).0)
  {
    var m := Voigt(t);
    forall i, j | 0 <= i < 6 && 0 <= j < 6
      ensures m[i][j] == t.at(VoigtPair(i).1, VoigtPair(i).0, VoigtPair(j).1, VoigtPair(j).0)
    {
      var (a, b) := VoigtPair(i);
      var (p, q) := VoigtPair(j);
      assert t.at(a, b, p, q) == t.at(b, a, p, q);
      assert t.at(b, a, p, q) == t.at(b, a, q, p);
    }
  }
}
