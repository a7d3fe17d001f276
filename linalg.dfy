/** Fixed-size real vectors and matrices: the 3×3 rotation blocks, 4×4 homogeneous
    transforms and 3-vectors that the pose and projection code multiplies together.
    Matrices are row-major nested sequences, as `ndarray.tolist()` produces them. */
module LinAlg {

  type Vec3 = v: seq<real> | |v| == 3 witness [0.0, 0.0, 0.0]
  type Vec4 = v: seq<real> | |v| == 4 witness [0.0, 0.0, 0.0, 0.0]

  /** `m` is an n×n matrix stored row by row. */
  predicate IsSquare(m: seq<seq<real>>, n: nat) {
    |m| == n && forall i :: 0 <= i < n ==> |m[i]| == n
  }

  type Mat3 = m: seq<seq<real>> | IsSquare(m, 3)
    witness [[0.0, 0.0, 0.0], [0.0, 0.0, 0.0], [0.0, 0.0, 0.0]]
  type Mat4 = m: seq<seq<real>> | IsSquare(m, 4)
    witness [[0.0, 0.0, 0.0, 0.0], [0.0, 0.0, 0.0, 0.0], [0.0, 0.0, 0.0, 0.0], [0.0, 0.0, 0.0, 0.0]]

  const Identity3: Mat3 := [[1.0, 0.0, 0.0], [0.0, 1.0, 0.0], [0.0, 0.0, 1.0]]
  const Identity4: Mat4 :=
    [[1.0, 0.0, 0.0, 0.0], [0.0, 1.0, 0.0, 0.0], [0.0, 0.0, 1.0, 0.0], [0.0, 0.0, 0.0, 1.0]]

  /** The homogeneous bottom row of every rigid transform. */
  const AffineRow: seq<real> := [0.0, 0.0, 0.0, 1.0]

  function Mul3(a: Mat3, b: Mat3): Mat3 {
    seq(3, i requires 0 <= i < 3 => seq(3, j requires 0 <= j < 3 =>
      a[i][0] * b[0][j] + a[i][1] * b[1][j] + a[i][2] * b[2][j]))
  }

  function Mul4(a: Mat4, b: Mat4): Mat4 {
    seq(4, i requires 0 <= i < 4 => seq(4, j requires 0 <= j < 4 =>
      a[i][0] * b[0][j] + a[i][1] * b[1][j] + a[i][2] * b[2][j] + a[i][3] * b[3][j]))
  }

  /** Every entry multiplied by the scalar c. */
  function Scale3(a: Mat3, c: real): Mat3 {
    seq(3, i requires 0 <= i < 3 => seq(3, j requires 0 <= j < 3 => a[i][j] * c))
  }

  function Transpose3(a: Mat3): Mat3 {
    seq(3, i requires 0 <= i < 3 => seq(3, j requires 0 <= j < 3 => a[j][i]))
  }

  function MulVec3(a: Mat3, v: Vec3): Vec3 {
    seq(3, i requires 0 <= i < 3 => a[i][0] * v[0] + a[i][1] * v[1] + a[i][2] * v[2])
  }

  function MulVec4(a: Mat4, v: Vec4): Vec4 {
    seq(4, i requires 0 <= i < 4 =>
      a[i][0] * v[0] + a[i][1] * v[1] + a[i][2] * v[2] + a[i][3] * v[3])
  }

  function Add3(u: Vec3, v: Vec3): Vec3 {
    [u[0] + v[0], u[1] + v[1], u[2] + v[2]]
  }

  function Neg3(v: Vec3): Vec3 {
    [-v[0], -v[1], -v[2]]
  }

  /** The homogeneous form [p; 1] of a point. */
  function Homogeneous(p: Vec3): Vec4 {
    p + [1.0]
  }

  /** The first three components of a homogeneous vector (no division by the fourth). */
  function Xyz(v: Vec4): Vec3 {
    v[..3]
  }

  /** The upper-left 3×3 block of a 4×4 matrix. */
  function Block(m: Mat4): Mat3 {
    seq(3, i requires 0 <= i < 3 => seq(3, j requires 0 <= j < 3 => m[i][j]))
  }

  /** The upper three entries of the last column of a 4×4 matrix. */
  function TranslationOf(m: Mat4): Vec3 {
    [m[0][3], m[1][3], m[2][3]]
  }

  /** Column j of a 4×4 matrix, top to bottom. */
  function Column(m: Mat4, j: nat): Vec4
    requires j < 4
  {
    [m[0][j], m[1][j], m[2][j], m[3][j]]
  }

  /** The 4×4 homogeneous matrix [r t; 0 0 0 1]. */
  function Rigid(r: Mat3, t: Vec3): Mat4 {
    seq(4, i requires 0 <= i < 4 => seq(4, j requires 0 <= j < 4 =>
      if i == 3 then AffineRow[j] else if j == 3 then t[i] else r[i][j]))
  }

  /** [r t; 0 0 0 1] has block r, translation t and the affine bottom row. */
  lemma RigidLayout(r: Mat3, t: Vec3)
    ensures Block(Rigid(r, t)) == r && TranslationOf(Rigid(r, t)) == t && Rigid(r, t)[3] == AffineRow
  {
    var m := Rigid(r, t);
    forall i | 0 <= i < 3 ensures Block(m)[i] == r[i] {
    }
  }

  /** Applies a homogeneous transform to a point: the first three components of T·[p; 1]. */
  function Apply(m: Mat4, p: Vec3): Vec3 {
    Xyz(MulVec4(m, Homogeneous(p)))
  }

  /** R and its transpose are inverse to each other on both sides. */
  ghost predicate Orthonormal(r: Mat3) {
    Mul3(Transpose3(r), r) == Identity3 && Mul3(r, Transpose3(r)) == Identity3
  }

  /** Dot product of columns i and j: entry (i, j) of RᵀR. */
  function ColumnDot(r: Mat3, i: nat, j: nat): real
    requires i < 3 && j < 3
  {
    r[0][i] * r[0][j] + r[1][i] * r[1][j] + r[2][i] * r[2][j]
  }

  /** Dot product of rows i and j: entry (i, j) of RRᵀ. */
  function RowDot(r: Mat3, i: nat, j: nat): real
    requires i < 3 && j < 3
  {
    r[i][0] * r[j][0] + r[i][1] * r[j][1] + r[i][2] * r[j][2]
  }

  /** A matrix whose columns and rows are both orthonormal families is orthonormal. */
  lemma {:induction false} OrthonormalByDots(r: Mat3)
    requires forall i, j :: 0 <= i < 3 && 0 <= j < 3 ==> ColumnDot(r, i, j) == Identity3[i][j]
    requires forall i, j :: 0 <= i < 3 && 0 <= j < 3 ==> RowDot(r, i, j) == Identity3[i][j]
    ensures Orthonormal(r)
  {
    var rtr := Mul3(Transpose3(r), r);
    var rrt := Mul3(r, Transpose3(r));
    forall i | 0 <= i < 3 ensures rtr[i] == Identity3[i] && rrt[i] == Identity3[i] {
      forall j | 0 <= j < 3 ensures rtr[i][j] == Identity3[i][j] && rrt[i][j] == Identity3[i][j] {
        GramEntry(r, i, j);
        CoGramEntry(r, i, j);
      }
    }
  }

  lemma GramEntry(r: Mat3, i: nat, j: nat)
    requires i < 3 && j < 3
    ensures Mul3(Transpose3(r), r)[i][j] == ColumnDot(r, i, j)
  {
    var t := Transpose3(r);
    assert t[i][0] == r[0][i];
    assert t[i][1] == r[1][i];
    assert t[i][2] == r[2][i];
  }

  lemma CoGramEntry(r: Mat3, i: nat, j: nat)
    requires i < 3 && j < 3
    ensures Mul3(r, Transpose3(r))[i][j] == RowDot(r, i, j)
  {
    var t := Transpose3(r);
    assert t[0][j] == r[j][0];
    assert t[1][j] == r[j][1];
    assert t[2][j] == r[j][2];
  }

  /** Every matrix with bottom row [0, 0, 0, 1] is rebuilt from its block and translation. */
  lemma RigidOfParts(m: Mat4)
    requires m[3] == AffineRow
    ensures Rigid(Block(m), TranslationOf(m)) == m
  {
    var r := Rigid(Block(m), TranslationOf(m));
    forall i | 0 <= i < 4 ensures r[i] == m[i] {
      forall j | 0 <= j < 4 ensures r[i][j] == m[i][j] {
      }
    }
  }

  lemma MulRigidEntry(ra: Mat3, ta: Vec3, rb: Mat3, tb: Vec3, i: nat, j: nat)
    requires i < 4 && j < 4
    ensures Mul4(Rigid(ra, ta), Rigid(rb, tb))[i][j]
         == Rigid(Mul3(ra, rb), Add3(MulVec3(ra, tb), ta))[i][j]
  {
  }

  /** The product of two rigid transforms is rigid: blocks multiply and the
      right translation is rotated by the left block, then offset. */
  lemma MulRigid(ra: Mat3, ta: Vec3, rb: Mat3, tb: Vec3)
    ensures Mul4(Rigid(ra, ta), Rigid(rb, tb)) == Rigid(Mul3(ra, rb), Add3(MulVec3(ra, tb), ta))
  {
    var lhs := Mul4(Rigid(ra, ta), Rigid(rb, tb));
    var rhs := Rigid(Mul3(ra, rb), Add3(MulVec3(ra, tb), ta));
    forall i | 0 <= i < 4 ensures lhs[i] == rhs[i] {
      forall j | 0 <= j < 4 ensures lhs[i][j] == rhs[i][j] {
        MulRigidEntry(ra, ta, rb, tb, i, j);
      }
    }
  }

  /** A product of two matrices with bottom row [0, 0, 0, 1] has that bottom row. */
  lemma {:induction false} AffineRowClosed(a: Mat4, b: Mat4)
    requires a[3] == AffineRow && b[3] == AffineRow
    ensures Mul4(a, b)[3] == AffineRow
  {
    RigidOfParts(a);
    RigidOfParts(b);
    MulRigid(Block(a), TranslationOf(a), Block(b), TranslationOf(b));
  }

  lemma MulVecAssoc(a: Mat4, b: Mat4, v: Vec4)
    ensures MulVec4(Mul4(a, b), v) == MulVec4(a, MulVec4(b, v))
  {
    var lhs := MulVec4(Mul4(a, b), v);
    var rhs := MulVec4(a, MulVec4(b, v));
    forall i | 0 <= i < 4 ensures lhs[i] == rhs[i] {
      MulVecAssocEntry(a, b, v, i);
    }
  }

  lemma MulVecAssocEntry(a: Mat4, b: Mat4, v: Vec4, i: nat)
    requires i < 4
    ensures MulVec4(Mul4(a, b), v)[i] == MulVec4(a, MulVec4(b, v))[i]
  {
  }

  /** Transforming by a product applies the right factor first: (A·B)·[p;1] = A·(B·[p;1]),
      and when B is affine the intermediate point is again homogeneous with last entry 1. */
  lemma {:induction false} ApplyMul(a: Mat4, b: Mat4, p: Vec3)
    requires b[3] == AffineRow
    ensures Apply(Mul4(a, b), p) == Apply(a, Apply(b, p))
  {
    var q := MulVec4(b, Homogeneous(p));
    assert q[3] == 1.0;
    assert Homogeneous(Xyz(q)) == q;
    MulVecAssoc(a, b, Homogeneous(p));
  }

  /** Applying a rigid transform rotates the point by its block and adds its translation. */
  lemma {:induction false} ApplyRigid(r: Mat3, t: Vec3, p: Vec3)
    ensures Apply(Rigid(r, t), p) == Add3(MulVec3(r, p), t)
  {
    var h := MulVec4(Rigid(r, t), Homogeneous(p));
    var rhs := Add3(MulVec3(r, p), t);
    forall i | 0 <= i < 3 ensures h[i] == rhs[i] {
      ApplyRigidAt(r, t, p, i);
    }
    assert Xyz(h) == rhs;
  }

  lemma ApplyRigidAt(r: Mat3, t: Vec3, p: Vec3, i: nat)
    requires i < 3
    ensures MulVec4(Rigid(r, t), Homogeneous(p))[i] == Add3(MulVec3(r, p), t)[i]
  {
    var m, hp := Rigid(r, t), Homogeneous(p);
    assert hp[0] == p[0] && hp[1] == p[1] && hp[2] == p[2] && hp[3] == 1.0;
    assert m[i][0] == r[i][0] && m[i][1] == r[i][1] && m[i][2] == r[i][2] && m[i][3] == t[i];
    assert MulVec4(m, hp)[i] == m[i][0] * hp[0] + m[i][1] * hp[1] + m[i][2] * hp[2] + m[i][3] * hp[3];
    assert MulVec3(r, p)[i] == r[i][0] * p[0] + r[i][1] * p[1] + r[i][2] * p[2];
  }

  lemma MulVec3Identity(v: Vec3)
    ensures MulVec3(Identity3, v) == v
  {
    var w := MulVec3(Identity3, v);
    forall i | 0 <= i < 3 ensures w[i] == v[i] {
    }
  }

  lemma NegatedDot(a0: real, a1: real, a2: real, v0: real, v1: real, v2: real)
    ensures a0 * -v0 + a1 * -v1 + a2 * -v2 == -(a0 * v0 + a1 * v1 + a2 * v2)
  {
  }

  lemma MulVec3Neg(a: Mat3, v: Vec3)
    ensures MulVec3(a, Neg3(v)) == Neg3(MulVec3(a, v))
  {
    var lhs := MulVec3(a, Neg3(v));
    var rhs := Neg3(MulVec3(a, v));
    forall i | 0 <= i < 3 ensures lhs[i] == rhs[i] {
      MulVec3NegAt(a, v, i);
    }
  }

  lemma MulVec3NegAt(a: Mat3, v: Vec3, i: nat)
    requires i < 3
    ensures MulVec3(a, Neg3(v))[i] == -MulVec3(a, v)[i]
  {
    var w := Neg3(v);
    assert MulVec3(a, w)[i] == a[i][0] * w[0] + a[i][1] * w[1] + a[i][2] * w[2];
    NegatedDot(a[i][0], a[i][1], a[i][2], v[0], v[1], v[2]);
  }

  lemma Mul3AssocEntry(a: Mat3, b: Mat3, c: Mat3, i: nat, j: nat)
    requires i < 3 && j < 3
    ensures Mul3(Mul3(a, b), c)[i][j] == Mul3(a, Mul3(b, c))[i][j]
  {
  }

  lemma Mul3Assoc(a: Mat3, b: Mat3, c: Mat3)
    ensures Mul3(Mul3(a, b), c) == Mul3(a, Mul3(b, c))
  {
    var lhs := Mul3(Mul3(a, b), c);
    var rhs := Mul3(a, Mul3(b, c));
    forall i | 0 <= i < 3 ensures lhs[i] == rhs[i] {
      forall j | 0 <= j < 3 ensures lhs[i][j] == rhs[i][j] {
        Mul3AssocEntry(a, b, c, i, j);
      }
    }
  }

  lemma MulVec3Assoc(a: Mat3, b: Mat3, v: Vec3)
    ensures MulVec3(a, MulVec3(b, v)) == MulVec3(Mul3(a, b), v)
  {
    var lhs := MulVec3(a, MulVec3(b, v));
    var rhs := MulVec3(Mul3(a, b), v);
    forall i | 0 <= i < 3 ensures lhs[i] == rhs[i] {
    }
  }

  lemma TransposeMul(a: Mat3, b: Mat3)
    ensures Transpose3(Mul3(a, b)) == Mul3(Transpose3(b), Transpose3(a))
  {
    var lhs := Transpose3(Mul3(a, b));
    var rhs := Mul3(Transpose3(b), Transpose3(a));
    forall i | 0 <= i < 3 ensures lhs[i] == rhs[i] {
      forall j | 0 <= j < 3 ensures lhs[i][j] == rhs[i][j] {
      }
    }
  }

  lemma TransposeTwice(a: Mat3)
    ensures Transpose3(Transpose3(a)) == a
  {
    var t := Transpose3(Transpose3(a));
    forall i | 0 <= i < 3 ensures t[i] == a[i] {
      forall j | 0 <= j < 3 ensures t[i][j] == a[i][j] {
      }
    }
  }

  lemma MulIdentity3(a: Mat3)
    ensures Mul3(Identity3, a) == a && Mul3(a, Identity3) == a
  {
    var l := Mul3(Identity3, a);
    var r := Mul3(a, Identity3);
    forall i | 0 <= i < 3 ensures l[i] == a[i] && r[i] == a[i] {
      forall j | 0 <= j < 3 ensures l[i][j] == a[i][j] && r[i][j] == a[i][j] {
      }
    }
  }

  /** Rotations compose to rotations: the product of orthonormal blocks is orthonormal. */
  lemma {:induction false} OrthonormalMul(a: Mat3, b: Mat3)
    requires Orthonormal(a) && Orthonormal(b)
    ensures Orthonormal(Mul3(a, b))
  {
    var ab := Mul3(a, b);
    TransposeMul(a, b);
    var at, bt := Transpose3(a), Transpose3(b);
    calc {
      Mul3(Transpose3(ab), ab);
      Mul3(Mul3(bt, at), Mul3(a, b));
      { Mul3Assoc(bt, at, Mul3(a, b)); }
      Mul3(bt, Mul3(at, Mul3(a, b)));
      { Mul3Assoc(at, a, b); }
      Mul3(bt, Mul3(Mul3(at, a), b));
      { MulIdentity3(b); }
      Mul3(bt, b);
    }
    calc {
      Mul3(ab, Transpose3(ab));
      Mul3(Mul3(a, b), Mul3(bt, at));
      { Mul3Assoc(a, b, Mul3(bt, at)); }
      Mul3(a, Mul3(b, Mul3(bt, at)));
      { Mul3Assoc(b, bt, at); }
      Mul3(a, Mul3(Mul3(b, bt), at));
      { MulIdentity3(at); }
      Mul3(a, at);
    }
  }

  /** The rigid inverse [Rᵀ, -Rᵀt; 0 0 0 1] of a rigid transform [R t; 0 0 0 1]. */
  function RigidInverse(m: Mat4): Mat4 {
    var rt := Transpose3(Block(m));
    Rigid(rt, Neg3(MulVec3(rt, TranslationOf(m))))
  }

  /** For an orthonormal block the rigid inverse is a two-sided matrix inverse. */
  lemma {:induction false} RigidInverseIsInverse(m: Mat4)
    requires m[3] == AffineRow && Orthonormal(Block(m))
    ensures Mul4(RigidInverse(m), m) == Identity4
    ensures Mul4(m, RigidInverse(m)) == Identity4
  {
    var r, t := Block(m), TranslationOf(m);
    var rt := Transpose3(r);
    var u := Neg3(MulVec3(rt, t));
    RigidOfParts(m);
    MulRigid(rt, u, r, t);
    MulRigid(r, t, rt, u);
    assert Add3(MulVec3(rt, t), u) == [0.0, 0.0, 0.0];
    MulVec3Assoc(r, rt, t);
    MulVec3Identity(t);
    MulVec3Neg(r, MulVec3(rt, t));
    assert Add3(MulVec3(r, u), t) == [0.0, 0.0, 0.0];
    RigidIdentity();
  }

  lemma RigidIdentity()
    ensures Rigid(Identity3, [0.0, 0.0, 0.0]) == Identity4
  {
    var m := Rigid(Identity3, [0.0, 0.0, 0.0]);
    forall i | 0 <= i < 4 ensures m[i] == Identity4[i] {
      forall j | 0 <= j < 4 ensures m[i][j] == Identity4[i][j] {
      }
    }
  }

  /** Inverting twice gives back the transform, for orthonormal blocks. */
  lemma {:induction false} RigidInverseInvolutive(m: Mat4)
    requires m[3] == AffineRow && Orthonormal(Block(m))
    ensures RigidInverse(RigidInverse(m)) == m
  {
    var r, t := Block(m), TranslationOf(m);
    var rt := Transpose3(r);
    TransposeTwice(r);
    MulVec3Assoc(r, rt, t);
    MulVec3Identity(t);
    MulVec3Neg(r, MulVec3(rt, t));
    assert Neg3(MulVec3(r, Neg3(MulVec3(rt, t)))) == t;
    RigidLayout(rt, Neg3(MulVec3(rt, t)));
    RigidOfParts(m);
  }
}
