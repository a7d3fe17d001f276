/** nuScenes pose records to 4×4 homogeneous matrices (src/nuscenes_gs/poses.py). */
module Poses {
  import opened LinAlg

  /** A rotation quaternion in nuScenes' (w, x, y, z) order. */
  datatype Quaternion = Quaternion(w: real, x: real, y: real, z: real)

  /** The rigid part of an `ego_pose` or `calibrated_sensor` record: where the child frame's
      origin sits in the parent frame and how its axes are turned. */
  datatype Pose = Pose(translation: Vec3, rotation: Quaternion)

  function SquaredNorm(q: Quaternion): real {
    q.w * q.w + q.x * q.x + q.y * q.y + q.z * q.z
  }

  /** The product matrix q·v·q̄ on the vector part, before normalisation: every entry is a
      quadratic form in the components, and for a unit quaternion this is the rotation. */
  function RotationNumerator(q: Quaternion): Mat3 {
    [[Num00(q), Num01(q), Num02(q)],
     [Num10(q), Num11(q), Num12(q)],
     [Num20(q), Num21(q), Num22(q)]]
  }

  function Num00(q: Quaternion): real { q.w * q.w + q.x * q.x - q.y * q.y - q.z * q.z }
  function Num01(q: Quaternion): real { 2.0 * (q.x * q.y - q.w * q.z) }
  function Num02(q: Quaternion): real { 2.0 * (q.x * q.z + q.w * q.y) }
  function Num10(q: Quaternion): real { 2.0 * (q.x * q.y + q.w * q.z) }
  function Num11(q: Quaternion): real { q.w * q.w - q.x * q.x + q.y * q.y - q.z * q.z }
  function Num12(q: Quaternion): real { 2.0 * (q.y * q.z - q.w * q.x) }
  function Num20(q: Quaternion): real { 2.0 * (q.x * q.z - q.w * q.y) }
  function Num21(q: Quaternion): real { 2.0 * (q.y * q.z + q.w * q.x) }
  function Num22(q: Quaternion): real { q.w * q.w - q.x * q.x - q.y * q.y + q.z * q.z }

  /** The rotation matrix of a quaternion, after normalising it to unit length. Normalising
      by the norm divides each quadratic entry by the squared norm, so no square root is
      needed. A zero quaternion cannot be normalised and yields the zero matrix. */
  function RotationMatrix(q: Quaternion): Mat3 {
    var n := SquaredNorm(q);
    if n == 0.0 then ZeroMat3
    else
      Scale3(RotationNumerator(q), 1.0 / n)
  }

  const ZeroMat3: Mat3 := [[0.0, 0.0, 0.0], [0.0, 0.0, 0.0], [0.0, 0.0, 0.0]]

  /** The Hamilton product a ⊗ b. */
  function Hamilton(a: Quaternion, b: Quaternion): Quaternion {
    Quaternion(a.w * b.w - a.x * b.x - a.y * b.y - a.z * b.z,
               a.w * b.x + a.x * b.w + a.y * b.z - a.z * b.y,
               a.w * b.y - a.x * b.z + a.y * b.w + a.z * b.x,
               a.w * b.z + a.x * b.y - a.y * b.x + a.z * b.w)
  }

  function Conjugate(q: Quaternion): Quaternion {
    Quaternion(q.w, -q.x, -q.y, -q.z)
  }

  /** A vector as a quaternion with zero scalar part. */
  function Pure(v: Vec3): Quaternion {
    Quaternion(0.0, v[0], v[1], v[2])
  }

  /** q ⊗ (0, v) ⊗ q̄: v turned by q and scaled by ‖q‖², the way a quaternion acts on a vector. */
  function Conjugation(q: Quaternion, v: Vec3): Quaternion {
    Hamilton(Hamilton(q, Pure(v)), Conjugate(q))
  }

  /** The matrix turns vectors the way q does, not the way its conjugate does: for a nonzero q,
      R·v is the vector part of q ⊗ (0, v) ⊗ q̄ divided by ‖q‖², whose scalar part is zero. The
      zero quaternion sends every vector to zero. */
  lemma RotationIsConjugation(q: Quaternion, v: Vec3)
    ensures Conjugation(q, v).w == 0.0
    ensures var p := Conjugation(q, v);
      var n := SquaredNorm(q);
      n != 0.0 ==> MulVec3(RotationMatrix(q), v) == [p.x / n, p.y / n, p.z / n]
    ensures SquaredNorm(q) == 0.0 ==> MulVec3(RotationMatrix(q), v) == [0.0, 0.0, 0.0]
  {
    ConjugationScalar(q, v, Hamilton(q, Pure(v)));
    if SquaredNorm(q) != 0.0 {
      NormalisedConjugation(q, v);
    } else {
      var r := MulVec3(RotationMatrix(q), v);
      assert r[0] == 0.0 && r[1] == 0.0 && r[2] == 0.0;
    }
  }

  lemma NormalisedConjugation(q: Quaternion, v: Vec3)
    requires SquaredNorm(q) != 0.0
    ensures var p := Conjugation(q, v);
      var n := SquaredNorm(q);
      MulVec3(RotationMatrix(q), v) == [p.x / n, p.y / n, p.z / n]
  {
    var n := SquaredNorm(q);
    ConjugationParts(q, v);
    var p := Conjugation(q, v);
    assert RotationMatrix(q) == Scale3(RotationNumerator(q), 1.0 / n);
    ScaledApply(RotationNumerator(q), v, n, p.x, p.y, p.z);
  }

  /** The parts of q ⊗ (0, v) ⊗ q̄: zero scalar part, and the numerator matrix applied to v. */
  lemma ConjugationParts(q: Quaternion, v: Vec3)
    ensures var p := Conjugation(q, v);
      && p.w == 0.0
      && p.x == Num00(q) * v[0] + Num01(q) * v[1] + Num02(q) * v[2]
      && p.y == Num10(q) * v[0] + Num11(q) * v[1] + Num12(q) * v[2]
      && p.z == Num20(q) * v[0] + Num21(q) * v[1] + Num22(q) * v[2]
  {
    var t := Hamilton(q, Pure(v));
    ConjugationScalar(q, v, t);
    ConjugationX(q, v, t);
    ConjugationY(q, v, t);
    ConjugationZ(q, v, t);
  }

  lemma ConjugationScalar(q: Quaternion, v: Vec3, t: Quaternion)
    requires t == Hamilton(q, Pure(v))
    ensures Hamilton(t, Conjugate(q)).w == 0.0
  {
    ScalarPartIdentity(q.w, q.x, q.y, q.z, v[0], v[1], v[2], t.w, t.x, t.y, t.z);
  }

  lemma ConjugationX(q: Quaternion, v: Vec3, t: Quaternion)
    requires t == Hamilton(q, Pure(v))
    ensures Hamilton(t, Conjugate(q)).x == Num00(q) * v[0] + Num01(q) * v[1] + Num02(q) * v[2]
  {
    XPartIdentity(q.w, q.x, q.y, q.z, v[0], v[1], v[2], t.w, t.x, t.y, t.z);
  }

  lemma ConjugationY(q: Quaternion, v: Vec3, t: Quaternion)
    requires t == Hamilton(q, Pure(v))
    ensures Hamilton(t, Conjugate(q)).y == Num10(q) * v[0] + Num11(q) * v[1] + Num12(q) * v[2]
  {
    YPartIdentity(q.w, q.x, q.y, q.z, v[0], v[1], v[2], t.w, t.x, t.y, t.z);
  }

  lemma ConjugationZ(q: Quaternion, v: Vec3, t: Quaternion)
    requires t == Hamilton(q, Pure(v))
    ensures Hamilton(t, Conjugate(q)).z == Num20(q) * v[0] + Num21(q) * v[1] + Num22(q) * v[2]
  {
    ZPartIdentity(q.w, q.x, q.y, q.z, v[0], v[1], v[2], t.w, t.x, t.y, t.z);
  }

  /** A matrix scaled by 1/n, applied to v, is the unscaled matrix applied to v, over n. */
  lemma ScaledApply(m: Mat3, v: Vec3, n: real, r0: real, r1: real, r2: real)
    requires n != 0.0
    requires r0 == m[0][0] * v[0] + m[0][1] * v[1] + m[0][2] * v[2]
    requires r1 == m[1][0] * v[0] + m[1][1] * v[1] + m[1][2] * v[2]
    requires r2 == m[2][0] * v[0] + m[2][1] * v[1] + m[2][2] * v[2]
    ensures MulVec3(Scale3(m, 1.0 / n), v) == [r0 / n, r1 / n, r2 / n]
  {
    var r := MulVec3(Scale3(m, 1.0 / n), v);
    ScaledEntry(m, v, n, 0, r0);
    ScaledEntry(m, v, n, 1, r1);
    ScaledEntry(m, v, n, 2, r2);
    assert r == [r0 / n, r1 / n, r2 / n];
  }

  /** Entry i of the scaled product is entry i of the unscaled one, over n. */
  lemma ScaledEntry(m: Mat3, v: Vec3, n: real, i: nat, ri: real)
    requires n != 0.0 && i < 3
    requires ri == m[i][0] * v[0] + m[i][1] * v[1] + m[i][2] * v[2]
    ensures MulVec3(Scale3(m, 1.0 / n), v)[i] == ri / n
  {
    var c := 1.0 / n;
    assert MulVec3(Scale3(m, c), v)[i] == (m[i][0] * c) * v[0] + (m[i][1] * c) * v[1] + (m[i][2] * c) * v[2];
    ScaledRow(m[i][0], m[i][1], m[i][2], v[0], v[1], v[2], c, ri);
    ReciprocalScale(ri, n);
  }

  lemma ScaledRow(a: real, b: real, d: real, v0: real, v1: real, v2: real, c: real, r: real)
    requires r == a * v0 + b * v1 + d * v2
    ensures (a * c) * v0 + (b * c) * v1 + (d * c) * v2 == r * c
  {
  }

  lemma ReciprocalScale(x: real, n: real)
    requires n != 0.0
    ensures x * (1.0 / n) == x / n
  {
  }

  /** Expanding q ⊗ (0, v) = t and then t ⊗ q̄: the scalar part vanishes and each component
      of the vector part is the matching row of the numerator matrix applied to v. */
  lemma ScalarPartIdentity(w: real, x: real, y: real, z: real, a: real, b: real, c: real,
                           tw: real, tx: real, ty: real, tz: real)
    requires tw == -x * a - y * b - z * c && tx == w * a + y * c - z * b
    requires ty == w * b - x * c + z * a && tz == w * c + x * b - y * a
    ensures tw * w - tx * -x - ty * -y - tz * -z == 0.0
  {
  }

  lemma XPartIdentity(w: real, x: real, y: real, z: real, a: real, b: real, c: real,
                      tw: real, tx: real, ty: real, tz: real)
    requires tw == -x * a - y * b - z * c && tx == w * a + y * c - z * b
    requires ty == w * b - x * c + z * a && tz == w * c + x * b - y * a
    ensures tw * -x + tx * w + ty * -z - tz * -y
         == (w * w + x * x - y * y - z * z) * a + 2.0 * (x * y - w * z) * b + 2.0 * (x * z + w * y) * c
  {
  }

  lemma YPartIdentity(w: real, x: real, y: real, z: real, a: real, b: real, c: real,
                      tw: real, tx: real, ty: real, tz: real)
    requires tw == -x * a - y * b - z * c && tx == w * a + y * c - z * b
    requires ty == w * b - x * c + z * a && tz == w * c + x * b - y * a
    ensures tw * -y - tx * -z + ty * w + tz * -x
         == 2.0 * (x * y + w * z) * a + (w * w - x * x + y * y - z * z) * b + 2.0 * (y * z - w * x) * c
  {
  }

  lemma ZPartIdentity(w: real, x: real, y: real, z: real, a: real, b: real, c: real,
                      tw: real, tx: real, ty: real, tz: real)
    requires tw == -x * a - y * b - z * c && tx == w * a + y * c - z * b
    requires ty == w * b - x * c + z * a && tz == w * c + x * b - y * a
    ensures tw * -z + tx * -y - ty * -x + tz * w
         == 2.0 * (x * z - w * y) * a + 2.0 * (y * z + w * x) * b + (w * w - x * x - y * y + z * z) * c
  {
  }



  /** Columns of the numerator are orthogonal with squared length n²: RᵀR = n²·I entrywise. */
  lemma NumeratorGram(q: Quaternion, i: nat, j: nat)
    requires i < 3 && j < 3
    ensures ColumnDot(RotationNumerator(q), i, j) == if i == j then SquaredNorm(q) * SquaredNorm(q) else 0.0
  {
    if i == 0 {
      if j == 0 { ColumnPair00(q);
      } else if j == 1 { ColumnPair01(q);
      } else { ColumnPair02(q);
      }
    } else if i == 1 {
      if j == 0 { ColumnPair10(q);
      } else if j == 1 { ColumnPair11(q);
      } else { ColumnPair12(q);
      }
    } else {
      if j == 0 { ColumnPair20(q);
      } else if j == 1 { ColumnPair21(q);
      } else { ColumnPair22(q);
      }
    }
  }

  /** Rows of the numerator are orthogonal with squared length n²: RRᵀ = n²·I entrywise. */
  lemma NumeratorCoGram(q: Quaternion, i: nat, j: nat)
    requires i < 3 && j < 3
    ensures RowDot(RotationNumerator(q), i, j) == if i == j then SquaredNorm(q) * SquaredNorm(q) else 0.0
  {
    if i == 0 {
      if j == 0 { RowPair00(q);
      } else if j == 1 { RowPair01(q);
      } else { RowPair02(q);
      }
    } else if i == 1 {
      if j == 0 { RowPair10(q);
      } else if j == 1 { RowPair11(q);
      } else { RowPair12(q);
      }
    } else {
      if j == 0 { RowPair20(q);
      } else if j == 1 { RowPair21(q);
      } else { RowPair22(q);
      }
    }
  }

  lemma ColumnPair00(q: Quaternion)
    ensures ColumnDot(RotationNumerator(q), 0, 0) == SquaredNorm(q) * SquaredNorm(q)
  {
    ColumnIdentity00(q.w, q.x, q.y, q.z, Num00(q), Num10(q), Num20(q), SquaredNorm(q));
    LiteralColumnDots(Num00(q), Num01(q), Num02(q), Num10(q), Num11(q), Num12(q), Num20(q), Num21(q), Num22(q));
  }

  lemma ColumnPair01(q: Quaternion)
    ensures ColumnDot(RotationNumerator(q), 0, 1) == 0.0
  {
    ColumnIdentity01(q.w, q.x, q.y, q.z, Num00(q), Num01(q), Num10(q), Num11(q), Num20(q), Num21(q));
    LiteralColumnDots(Num00(q), Num01(q), Num02(q), Num10(q), Num11(q), Num12(q), Num20(q), Num21(q), Num22(q));
  }

  lemma ColumnPair02(q: Quaternion)
    ensures ColumnDot(RotationNumerator(q), 0, 2) == 0.0
  {
    ColumnIdentity02(q.w, q.x, q.y, q.z, Num00(q), Num02(q), Num10(q), Num12(q), Num20(q), Num22(q));
    LiteralColumnDots(Num00(q), Num01(q), Num02(q), Num10(q), Num11(q), Num12(q), Num20(q), Num21(q), Num22(q));
  }

  lemma ColumnPair10(q: Quaternion)
    ensures ColumnDot(RotationNumerator(q), 1, 0) == 0.0
  {
    ColumnIdentity01(q.w, q.x, q.y, q.z, Num00(q), Num01(q), Num10(q), Num11(q), Num20(q), Num21(q));
    LiteralColumnDots(Num00(q), Num01(q), Num02(q), Num10(q), Num11(q), Num12(q), Num20(q), Num21(q), Num22(q));
  }

  lemma ColumnPair11(q: Quaternion)
    ensures ColumnDot(RotationNumerator(q), 1, 1) == SquaredNorm(q) * SquaredNorm(q)
  {
    ColumnIdentity11(q.w, q.x, q.y, q.z, Num01(q), Num11(q), Num21(q), SquaredNorm(q));
    LiteralColumnDots(Num00(q), Num01(q), Num02(q), Num10(q), Num11(q), Num12(q), Num20(q), Num21(q), Num22(q));
  }

  lemma ColumnPair12(q: Quaternion)
    ensures ColumnDot(RotationNumerator(q), 1, 2) == 0.0
  {
    ColumnIdentity12(q.w, q.x, q.y, q.z, Num01(q), Num02(q), Num11(q), Num12(q), Num21(q), Num22(q));
    LiteralColumnDots(Num00(q), Num01(q), Num02(q), Num10(q), Num11(q), Num12(q), Num20(q), Num21(q), Num22(q));
  }

  lemma ColumnPair20(q: Quaternion)
    ensures ColumnDot(RotationNumerator(q), 2, 0) == 0.0
  {
    ColumnIdentity02(q.w, q.x, q.y, q.z, Num00(q), Num02(q), Num10(q), Num12(q), Num20(q), Num22(q));
    LiteralColumnDots(Num00(q), Num01(q), Num02(q), Num10(q), Num11(q), Num12(q), Num20(q), Num21(q), Num22(q));
  }

  lemma ColumnPair21(q: Quaternion)
    ensures ColumnDot(RotationNumerator(q), 2, 1) == 0.0
  {
    ColumnIdentity12(q.w, q.x, q.y, q.z, Num01(q), Num02(q), Num11(q), Num12(q), Num21(q), Num22(q));
    LiteralColumnDots(Num00(q), Num01(q), Num02(q), Num10(q), Num11(q), Num12(q), Num20(q), Num21(q), Num22(q));
  }

  lemma ColumnPair22(q: Quaternion)
    ensures ColumnDot(RotationNumerator(q), 2, 2) == SquaredNorm(q) * SquaredNorm(q)
  {
    ColumnIdentity22(q.w, q.x, q.y, q.z, Num02(q), Num12(q), Num22(q), SquaredNorm(q));
    LiteralColumnDots(Num00(q), Num01(q), Num02(q), Num10(q), Num11(q), Num12(q), Num20(q), Num21(q), Num22(q));
  }

  lemma RowPair00(q: Quaternion)
    ensures RowDot(RotationNumerator(q), 0, 0) == SquaredNorm(q) * SquaredNorm(q)
  {
    RowIdentity00(q.w, q.x, q.y, q.z, Num00(q), Num01(q), Num02(q), SquaredNorm(q));
    LiteralRowDots(Num00(q), Num01(q), Num02(q), Num10(q), Num11(q), Num12(q), Num20(q), Num21(q), Num22(q));
  }

  lemma RowPair01(q: Quaternion)
    ensures RowDot(RotationNumerator(q), 0, 1) == 0.0
  {
    RowIdentity01(q.w, q.x, q.y, q.z, Num00(q), Num10(q), Num01(q), Num11(q), Num02(q), Num12(q));
    LiteralRowDots(Num00(q), Num01(q), Num02(q), Num10(q), Num11(q), Num12(q), Num20(q), Num21(q), Num22(q));
  }

  lemma RowPair02(q: Quaternion)
    ensures RowDot(RotationNumerator(q), 0, 2) == 0.0
  {
    RowIdentity02(q.w, q.x, q.y, q.z, Num00(q), Num20(q), Num01(q), Num21(q), Num02(q), Num22(q));
    LiteralRowDots(Num00(q), Num01(q), Num02(q), Num10(q), Num11(q), Num12(q), Num20(q), Num21(q), Num22(q));
  }

  lemma RowPair10(q: Quaternion)
    ensures RowDot(RotationNumerator(q), 1, 0) == 0.0
  {
    RowIdentity01(q.w, q.x, q.y, q.z, Num00(q), Num10(q), Num01(q), Num11(q), Num02(q), Num12(q));
    LiteralRowDots(Num00(q), Num01(q), Num02(q), Num10(q), Num11(q), Num12(q), Num20(q), Num21(q), Num22(q));
  }

  lemma RowPair11(q: Quaternion)
    ensures RowDot(RotationNumerator(q), 1, 1) == SquaredNorm(q) * SquaredNorm(q)
  {
    RowIdentity11(q.w, q.x, q.y, q.z, Num10(q), Num11(q), Num12(q), SquaredNorm(q));
    LiteralRowDots(Num00(q), Num01(q), Num02(q), Num10(q), Num11(q), Num12(q), Num20(q), Num21(q), Num22(q));
  }

  lemma RowPair12(q: Quaternion)
    ensures RowDot(RotationNumerator(q), 1, 2) == 0.0
  {
    RowIdentity12(q.w, q.x, q.y, q.z, Num10(q), Num20(q), Num11(q), Num21(q), Num12(q), Num22(q));
    LiteralRowDots(Num00(q), Num01(q), Num02(q), Num10(q), Num11(q), Num12(q), Num20(q), Num21(q), Num22(q));
  }

  lemma RowPair20(q: Quaternion)
    ensures RowDot(RotationNumerator(q), 2, 0) == 0.0
  {
    RowIdentity02(q.w, q.x, q.y, q.z, Num00(q), Num20(q), Num01(q), Num21(q), Num02(q), Num22(q));
    LiteralRowDots(Num00(q), Num01(q), Num02(q), Num10(q), Num11(q), Num12(q), Num20(q), Num21(q), Num22(q));
  }

  lemma RowPair21(q: Quaternion)
    ensures RowDot(RotationNumerator(q), 2, 1) == 0.0
  {
    RowIdentity12(q.w, q.x, q.y, q.z, Num10(q), Num20(q), Num11(q), Num21(q), Num12(q), Num22(q));
    LiteralRowDots(Num00(q), Num01(q), Num02(q), Num10(q), Num11(q), Num12(q), Num20(q), Num21(q), Num22(q));
  }

  lemma RowPair22(q: Quaternion)
    ensures RowDot(RotationNumerator(q), 2, 2) == SquaredNorm(q) * SquaredNorm(q)
  {
    RowIdentity22(q.w, q.x, q.y, q.z, Num20(q), Num21(q), Num22(q), SquaredNorm(q));
    LiteralRowDots(Num00(q), Num01(q), Num02(q), Num10(q), Num11(q), Num12(q), Num20(q), Num21(q), Num22(q));
  }

  /** The column dot products of a matrix written out entry by entry. */
  lemma LiteralColumnDots(a00: real, a01: real, a02: real, a10: real, a11: real, a12: real, a20: real, a21: real, a22: real)
    ensures var m: Mat3 := [[a00, a01, a02], [a10, a11, a12], [a20, a21, a22]];
      && ColumnDot(m, 0, 0) == a00 * a00 + a10 * a10 + a20 * a20
      && ColumnDot(m, 0, 1) == a00 * a01 + a10 * a11 + a20 * a21
      && ColumnDot(m, 0, 2) == a00 * a02 + a10 * a12 + a20 * a22
      && ColumnDot(m, 1, 0) == a01 * a00 + a11 * a10 + a21 * a20
      && ColumnDot(m, 1, 1) == a01 * a01 + a11 * a11 + a21 * a21
      && ColumnDot(m, 1, 2) == a01 * a02 + a11 * a12 + a21 * a22
      && ColumnDot(m, 2, 0) == a02 * a00 + a12 * a10 + a22 * a20
      && ColumnDot(m, 2, 1) == a02 * a01 + a12 * a11 + a22 * a21
      && ColumnDot(m, 2, 2) == a02 * a02 + a12 * a12 + a22 * a22
  {
  }

  /** The row dot products of a matrix written out entry by entry. */
  lemma LiteralRowDots(a00: real, a01: real, a02: real, a10: real, a11: real, a12: real, a20: real, a21: real, a22: real)
    ensures var m: Mat3 := [[a00, a01, a02], [a10, a11, a12], [a20, a21, a22]];
      && RowDot(m, 0, 0) == a00 * a00 + a01 * a01 + a02 * a02
      && RowDot(m, 0, 1) == a00 * a10 + a01 * a11 + a02 * a12
      && RowDot(m, 0, 2) == a00 * a20 + a01 * a21 + a02 * a22
      && RowDot(m, 1, 0) == a10 * a00 + a11 * a01 + a12 * a02
      && RowDot(m, 1, 1) == a10 * a10 + a11 * a11 + a12 * a12
      && RowDot(m, 1, 2) == a10 * a20 + a11 * a21 + a12 * a22
      && RowDot(m, 2, 0) == a20 * a00 + a21 * a01 + a22 * a02
      && RowDot(m, 2, 1) == a20 * a10 + a21 * a11 + a22 * a12
      && RowDot(m, 2, 2) == a20 * a20 + a21 * a21 + a22 * a22
  {
  }

  /** The quadratic identities behind NumeratorGram and NumeratorCoGram, stated over the four
      components with the entries passed in. */
  lemma ColumnIdentity00(w: real, x: real, y: real, z: real, a: real, b: real, c: real, n: real)
    requires a == w * w + x * x - y * y - z * z
    requires b == 2.0 * (x * y + w * z)
    requires c == 2.0 * (x * z - w * y)
    requires n == w * w + x * x + y * y + z * z
    ensures a * a + b * b + c * c == n * n
  {
  }

  lemma ColumnIdentity01(w: real, x: real, y: real, z: real,
                        a0: real, a1: real, b0: real, b1: real, c0: real, c1: real)
    requires a0 == w * w + x * x - y * y - z * z && a1 == 2.0 * (x * y - w * z)
    requires b0 == 2.0 * (x * y + w * z) && b1 == w * w - x * x + y * y - z * z
    requires c0 == 2.0 * (x * z - w * y) && c1 == 2.0 * (y * z + w * x)
    ensures a0 * a1 + b0 * b1 + c0 * c1 == 0.0
  {
  }

  lemma ColumnIdentity02(w: real, x: real, y: real, z: real,
                        a0: real, a1: real, b0: real, b1: real, c0: real, c1: real)
    requires a0 == w * w + x * x - y * y - z * z && a1 == 2.0 * (x * z + w * y)
    requires b0 == 2.0 * (x * y + w * z) && b1 == 2.0 * (y * z - w * x)
    requires c0 == 2.0 * (x * z - w * y) && c1 == w * w - x * x - y * y + z * z
    ensures a0 * a1 + b0 * b1 + c0 * c1 == 0.0
  {
  }

  lemma ColumnIdentity11(w: real, x: real, y: real, z: real, a: real, b: real, c: real, n: real)
    requires a == 2.0 * (x * y - w * z)
    requires b == w * w - x * x + y * y - z * z
    requires c == 2.0 * (y * z + w * x)
    requires n == w * w + x * x + y * y + z * z
    ensures a * a + b * b + c * c == n * n
  {
  }

  lemma ColumnIdentity12(w: real, x: real, y: real, z: real,
                        a0: real, a1: real, b0: real, b1: real, c0: real, c1: real)
    requires a0 == 2.0 * (x * y - w * z) && a1 == 2.0 * (x * z + w * y)
    requires b0 == w * w - x * x + y * y - z * z && b1 == 2.0 * (y * z - w * x)
    requires c0 == 2.0 * (y * z + w * x) && c1 == w * w - x * x - y * y + z * z
    ensures a0 * a1 + b0 * b1 + c0 * c1 == 0.0
  {
  }

  lemma ColumnIdentity22(w: real, x: real, y: real, z: real, a: real, b: real, c: real, n: real)
    requires a == 2.0 * (x * z + w * y)
    requires b == 2.0 * (y * z - w * x)
    requires c == w * w - x * x - y * y + z * z
    requires n == w * w + x * x + y * y + z * z
    ensures a * a + b * b + c * c == n * n
  {
  }

  lemma RowIdentity00(w: real, x: real, y: real, z: real, a: real, b: real, c: real, n: real)
    requires a == w * w + x * x - y * y - z * z
    requires b == 2.0 * (x * y - w * z)
    requires c == 2.0 * (x * z + w * y)
    requires n == w * w + x * x + y * y + z * z
    ensures a * a + b * b + c * c == n * n
  {
  }

  lemma RowIdentity01(w: real, x: real, y: real, z: real,
                        a0: real, a1: real, b0: real, b1: real, c0: real, c1: real)
    requires a0 == w * w + x * x - y * y - z * z && a1 == 2.0 * (x * y + w * z)
    requires b0 == 2.0 * (x * y - w * z) && b1 == w * w - x * x + y * y - z * z
    requires c0 == 2.0 * (x * z + w * y) && c1 == 2.0 * (y * z - w * x)
    ensures a0 * a1 + b0 * b1 + c0 * c1 == 0.0
  {
  }

  lemma RowIdentity02(w: real, x: real, y: real, z: real,
                        a0: real, a1: real, b0: real, b1: real, c0: real, c1: real)
    requires a0 == w * w + x * x - y * y - z * z && a1 == 2.0 * (x * z - w * y)
    requires b0 == 2.0 * (x * y - w * z) && b1 == 2.0 * (y * z + w * x)
    requires c0 == 2.0 * (x * z + w * y) && c1 == w * w - x * x - y * y + z * z
    ensures a0 * a1 + b0 * b1 + c0 * c1 == 0.0
  {
  }

  lemma RowIdentity11(w: real, x: real, y: real, z: real, a: real, b: real, c: real, n: real)
    requires a == 2.0 * (x * y + w * z)
    requires b == w * w - x * x + y * y - z * z
    requires c == 2.0 * (y * z - w * x)
    requires n == w * w + x * x + y * y + z * z
    ensures a * a + b * b + c * c == n * n
  {
  }

  lemma RowIdentity12(w: real, x: real, y: real, z: real,
                        a0: real, a1: real, b0: real, b1: real, c0: real, c1: real)
    requires a0 == 2.0 * (x * y + w * z) && a1 == 2.0 * (x * z - w * y)
    requires b0 == w * w - x * x + y * y - z * z && b1 == 2.0 * (y * z + w * x)
    requires c0 == 2.0 * (y * z - w * x) && c1 == w * w - x * x - y * y + z * z
    ensures a0 * a1 + b0 * b1 + c0 * c1 == 0.0
  {
  }

  lemma RowIdentity22(w: real, x: real, y: real, z: real, a: real, b: real, c: real, n: real)
    requires a == 2.0 * (x * z - w * y)
    requires b == 2.0 * (y * z + w * x)
    requires c == w * w - x * x - y * y + z * z
    requires n == w * w + x * x + y * y + z * z
    ensures a * a + b * b + c * c == n * n
  {
  }

  /** Scaling every entry by s = 1/n turns column dot products n²·δᵢⱼ into δᵢⱼ. */
  lemma ScaledColumnDot(num: Mat3, r: Mat3, n: real, s: real, i: nat, j: nat)
    requires i < 3 && j < 3
    requires r == Scale3(num, s)
    requires n * s == 1.0
    requires ColumnDot(num, i, j) == if i == j then n * n else 0.0
    ensures ColumnDot(r, i, j) == Identity3[i][j]
  {
    var p := n * s;
    assert r[0][i] * r[0][j] == (num[0][i] * num[0][j]) * (s * s);
    assert r[1][i] * r[1][j] == (num[1][i] * num[1][j]) * (s * s);
    assert r[2][i] * r[2][j] == (num[2][i] * num[2][j]) * (s * s);
    assert ColumnDot(r, i, j) == ColumnDot(num, i, j) * (s * s);
    if i == j {
      assert (n * n) * (s * s) == p * p;
      assert p * p == 1.0;
    }
  }

  /** Scaling every entry by s = 1/n turns row dot products n²·δᵢⱼ into δᵢⱼ. */
  lemma ScaledRowDot(num: Mat3, r: Mat3, n: real, s: real, i: nat, j: nat)
    requires i < 3 && j < 3
    requires r == Scale3(num, s)
    requires n * s == 1.0
    requires RowDot(num, i, j) == if i == j then n * n else 0.0
    ensures RowDot(r, i, j) == Identity3[i][j]
  {
    var p := n * s;
    assert r[i][0] * r[j][0] == (num[i][0] * num[j][0]) * (s * s);
    assert r[i][1] * r[j][1] == (num[i][1] * num[j][1]) * (s * s);
    assert r[i][2] * r[j][2] == (num[i][2] * num[j][2]) * (s * s);
    assert RowDot(r, i, j) == RowDot(num, i, j) * (s * s);
    if i == j {
      assert (n * n) * (s * s) == p * p;
      assert p * p == 1.0;
    }
  }

  /** Every nonzero quaternion yields an orthonormal rotation block. */
  lemma {:induction false} RotationOrthonormal(q: Quaternion)
    requires SquaredNorm(q) != 0.0
    ensures Orthonormal(RotationMatrix(q))
  {
    var r := RotationMatrix(q);
    forall i, j | 0 <= i < 3 && 0 <= j < 3
      ensures ColumnDot(r, i, j) == Identity3[i][j] && RowDot(r, i, j) == Identity3[i][j]
    {
      RotationColumnDot(q, i, j);
      RotationRowDot(q, i, j);
    }
    OrthonormalByDots(r);
  }

  /** Entry (i, j) of RᵀR for the normalised rotation. */
  lemma RotationColumnDot(q: Quaternion, i: nat, j: nat)
    requires SquaredNorm(q) != 0.0
    requires i < 3 && j < 3
    ensures ColumnDot(RotationMatrix(q), i, j) == Identity3[i][j]
  {
    var n := SquaredNorm(q);
    assert RotationMatrix(q) == Scale3(RotationNumerator(q), 1.0 / n);
    Reciprocal(n);
    NumeratorGram(q, i, j);
    ScaledColumnDot(RotationNumerator(q), RotationMatrix(q), n, 1.0 / n, i, j);
  }

  /** Entry (i, j) of RRᵀ for the normalised rotation. */
  lemma RotationRowDot(q: Quaternion, i: nat, j: nat)
    requires SquaredNorm(q) != 0.0
    requires i < 3 && j < 3
    ensures RowDot(RotationMatrix(q), i, j) == Identity3[i][j]
  {
    var n := SquaredNorm(q);
    assert RotationMatrix(q) == Scale3(RotationNumerator(q), 1.0 / n);
    Reciprocal(n);
    NumeratorCoGram(q, i, j);
    ScaledRowDot(RotationNumerator(q), RotationMatrix(q), n, 1.0 / n, i, j);
  }

  lemma Reciprocal(n: real)
    requires n != 0.0
    ensures n * (1.0 / n) == 1.0
  {
  }

  /** `make_transform`: the identity with the quaternion's rotation written into the upper-left
      block and the translation into the last column; the bottom row stays [0, 0, 0, 1].
      Applied to a point it rotates, then translates. */
  function MakeTransform(p: Pose): Mat4 {
    Rigid(RotationMatrix(p.rotation), p.translation)
  }

  /** The transform's block is the quaternion's rotation matrix, its last column the
      translation, and its bottom row [0, 0, 0, 1]. */
  lemma MakeTransformLayout(p: Pose)
    ensures var m := MakeTransform(p);
      && m[3] == AffineRow
      && Block(m) == RotationMatrix(p.rotation)
      && TranslationOf(m) == p.translation
  {
    RigidLayout(RotationMatrix(p.rotation), p.translation);
  }

  /** Applied to a point, the transform rotates it and then translates it. */
  lemma MakeTransformApply(p: Pose, v: Vec3)
    ensures Apply(MakeTransform(p), v) == Add3(MulVec3(RotationMatrix(p.rotation), v), p.translation)
  {
    ApplyRigid(RotationMatrix(p.rotation), p.translation, v);
  }

  /** `_CV2GL`: diag(1, -1, -1, 1), turning OpenCV camera axes (x right, y down, z forward)
      into OpenGL ones (x right, y up, z backward). */
  const CvToGl: Mat4 :=
    [[1.0, 0.0, 0.0, 0.0], [0.0, -1.0, 0.0, 0.0], [0.0, 0.0, -1.0, 0.0], [0.0, 0.0, 0.0, 1.0]]

  /** The axis flip undoes itself. */
  lemma CvToGlInvolution()
    ensures Mul4(CvToGl, CvToGl) == Identity4
  {
    var m := Mul4(CvToGl, CvToGl);
    forall i | 0 <= i < 4 ensures m[i] == Identity4[i] {
      forall j | 0 <= j < 4 ensures m[i][j] == Identity4[i][j] {
      }
    }
  }

  /** Right-multiplying by the flip negates columns 1 and 2 and keeps columns 0 and 3. */
  lemma FlipNegatesColumns(m: Mat4)
    ensures forall i :: 0 <= i < 4 ==> Mul4(m, CvToGl)[i] == [m[i][0], -m[i][1], -m[i][2], m[i][3]]
  {
    var f := Mul4(m, CvToGl);
    forall i | 0 <= i < 4 ensures f[i] == [m[i][0], -m[i][1], -m[i][2], m[i][3]] {
      var row := [m[i][0], -m[i][1], -m[i][2], m[i][3]];
      forall j | 0 <= j < 4 ensures f[i][j] == row[j] {
      }
    }
  }

  /** The OpenCV camera-to-world chain camera → ego → world, T_world_ego·T_ego_cam. For column
      vectors the camera→ego transform applies first. */
  function CameraToWorldCv(egoPose: Pose, sensor: Pose): Mat4 {
    Mul4(MakeTransform(egoPose), MakeTransform(sensor))
  }

  /** The chain keeps the bottom row [0, 0, 0, 1]. */
  lemma CameraToWorldAffine(egoPose: Pose, sensor: Pose)
    ensures CameraToWorldCv(egoPose, sensor)[3] == AffineRow
  {
    MakeTransformLayout(egoPose);
    MakeTransformLayout(sensor);
    AffineRowClosed(MakeTransform(egoPose), MakeTransform(sensor));
  }

  /** Applied to a point, the chain is camera→ego followed by ego→world. */
  lemma CameraToWorldApply(egoPose: Pose, sensor: Pose, v: Vec3)
    ensures Apply(CameraToWorldCv(egoPose, sensor), v)
         == Apply(MakeTransform(egoPose), Apply(MakeTransform(sensor), v))
  {
    MakeTransformLayout(sensor);
    ApplyMul(MakeTransform(egoPose), MakeTransform(sensor), v);
  }

  /** `compute_c2w`: the OpenCV camera-to-world chain followed by the axis flip. */
  function ComputeC2W(egoPose: Pose, sensor: Pose): Mat4 {
    Mul4(CameraToWorldCv(egoPose, sensor), CvToGl)
  }

  /** What `compute_c2w` returns: column 0 and the camera position are those of the OpenCV
      chain, columns 1 and 2 are negated (so the OpenCV forward axis is minus column 2), and the
      bottom row stays [0, 0, 0, 1]. */
  lemma {:induction false} ComputeC2WLayout(egoPose: Pose, sensor: Pose)
    ensures var c2w := ComputeC2W(egoPose, sensor); var cv := CameraToWorldCv(egoPose, sensor);
      && (forall i :: 0 <= i < 4 ==> c2w[i] == [cv[i][0], -cv[i][1], -cv[i][2], cv[i][3]])
      && c2w[3] == AffineRow
      && TranslationOf(c2w) == Apply(MakeTransform(egoPose), sensor.translation)
  {
    var cv := CameraToWorldCv(egoPose, sensor);
    FlipNegatesColumns(cv);
    CameraPosition(egoPose, sensor);
  }

  /** The camera centre in world coordinates is the ego pose applied to the sensor's mount
      position: the chain maps the camera origin there. */
  lemma {:induction false} CameraPosition(egoPose: Pose, sensor: Pose)
    ensures TranslationOf(CameraToWorldCv(egoPose, sensor))
         == Apply(MakeTransform(egoPose), sensor.translation)
  {
    var cv := CameraToWorldCv(egoPose, sensor);
    var origin: Vec3 := [0.0, 0.0, 0.0];
    assert Apply(cv, origin) == TranslationOf(cv);
    CameraToWorldApply(egoPose, sensor, origin);
    MakeTransformApply(sensor, origin);
    assert MulVec3(RotationMatrix(sensor.rotation), origin) == origin;
  }

  /** The OpenGL camera looks along minus its z axis: the negated column 2 of the output is the
      OpenCV forward axis, i.e. where the chain sends the camera's +z direction. */
  lemma {:induction false} ForwardAxis(egoPose: Pose, sensor: Pose)
    ensures var c2w := ComputeC2W(egoPose, sensor); var cv := CameraToWorldCv(egoPose, sensor);
      [-c2w[0][2], -c2w[1][2], -c2w[2][2]] == [cv[0][2], cv[1][2], cv[2][2]]
  {
    ComputeC2WLayout(egoPose, sensor);
  }

  /** The rotation block of the OpenCV chain is the product of the two rotation blocks. */
  lemma {:induction false} CameraBlock(egoPose: Pose, sensor: Pose)
    ensures Block(CameraToWorldCv(egoPose, sensor))
         == Mul3(RotationMatrix(egoPose.rotation), RotationMatrix(sensor.rotation))
  {
    var re, rs := RotationMatrix(egoPose.rotation), RotationMatrix(sensor.rotation);
    MulRigid(re, egoPose.translation, rs, sensor.translation);
    RigidLayout(Mul3(re, rs), Add3(MulVec3(re, sensor.translation), egoPose.translation));
  }

  /** With two nonzero quaternions the OpenCV chain is a rigid motion: its block is orthonormal. */
  lemma {:induction false} CameraBlockOrthonormal(egoPose: Pose, sensor: Pose)
    requires SquaredNorm(egoPose.rotation) != 0.0 && SquaredNorm(sensor.rotation) != 0.0
    ensures Orthonormal(Block(CameraToWorldCv(egoPose, sensor)))
  {
    CameraBlock(egoPose, sensor);
    RotationOrthonormal(egoPose.rotation);
    RotationOrthonormal(sensor.rotation);
    OrthonormalMul(RotationMatrix(egoPose.rotation), RotationMatrix(sensor.rotation));
  }

  /** With a zero quaternion on either side the chain sends the camera x axis to nothing: its
      column 0 is zero. */
  lemma {:induction false} CameraBlockDegenerate(egoPose: Pose, sensor: Pose)
    requires SquaredNorm(egoPose.rotation) == 0.0 || SquaredNorm(sensor.rotation) == 0.0
    ensures var cv := CameraToWorldCv(egoPose, sensor);
      cv[0][0] == 0.0 && cv[1][0] == 0.0 && cv[2][0] == 0.0 && cv[3][0] == 0.0
  {
    var cv := CameraToWorldCv(egoPose, sensor);
    var re, rs := RotationMatrix(egoPose.rotation), RotationMatrix(sensor.rotation);
    CameraBlock(egoPose, sensor);
    var b := Mul3(re, rs);
    assert b[0][0] == 0.0 && b[1][0] == 0.0 && b[2][0] == 0.0;
    assert cv[0][0] == b[0][0] && cv[1][0] == b[1][0] && cv[2][0] == b[2][0];
  }
}
