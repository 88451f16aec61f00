/**
 * The vector and matrix value types of the core maths header, over exact reals.
 *
 * The source has one struct per dimension (Vector2/3/4, Mat2/3/4) whose
 * operators are the same component-wise formulas written out per size. Here a
 * vector is a sequence of reals and a matrix a sequence of rows, so every
 * operation is defined once for all sizes; the subset types Vector2 ... Mat4
 * pin the sizes the source uses. Float rounding is not modelled.
 */
module VecMath {

  type Vec = seq<real>

  type Vector2 = v: Vec | |v| == 2 witness [0.0, 0.0]
  type Vector3 = v: Vec | |v| == 3 witness [0.0, 0.0, 0.0]
  type Vector4 = v: Vec | |v| == 4 witness [0.0, 0.0, 0.0, 0.0]

  /** The default tolerance of `normalized`, 1e-8. */
  const DefaultEpsilon: real := 0.00000001

  // ---------------------------------------------------------------------------
  // Vectors
  // ---------------------------------------------------------------------------

  /** `vector2()`, `vector3()`, `vector4()`: the zero vector of size n. */
  function Zero(n: nat): (r: Vec)
    ensures |r| == n
    ensures forall i :: 0 <= i < n ==> r[i] == 0.0
  {
    seq(n, _ => 0.0)
  }

  /** `vectorN_up()`: (0, 1, 0, ...). */
  function Up(n: nat): (r: Vec)
    requires n >= 2
    ensures |r| == n
  {
    seq(n, i => if i == 1 then 1.0 else 0.0)
  }

  /** `vectorN_down()`: (0, -1, 0, ...). */
  function Down(n: nat): (r: Vec)
    requires n >= 2
    ensures |r| == n
  {
    seq(n, i => if i == 1 then -1.0 else 0.0)
  }

  /** `operator+`: component-wise sum. */
  function Add(a: Vec, b: Vec): (r: Vec)
    requires |a| == |b|
    ensures |r| == |a|
    ensures forall i :: 0 <= i < |a| ==> r[i] == a[i] + b[i]
  {
    seq(|a|, i requires 0 <= i < |a| => a[i] + b[i])
  }

  /** Binary `operator-`: component-wise difference. */
  function Sub(a: Vec, b: Vec): (r: Vec)
    requires |a| == |b|
    ensures |r| == |a|
    ensures forall i :: 0 <= i < |a| ==> r[i] == a[i] - b[i]
  {
    seq(|a|, i requires 0 <= i < |a| => a[i] - b[i])
  }

  /** `operator*(float)`: every component times s. */
  function Scale(a: Vec, s: real): (r: Vec)
    ensures |r| == |a|
    ensures forall i :: 0 <= i < |a| ==> r[i] == a[i] * s
  {
    seq(|a|, i requires 0 <= i < |a| => a[i] * s)
  }

  /** `operator/(float)`: every component divided by s. */
  function Div(a: Vec, s: real): (r: Vec)
    requires s != 0.0
    ensures |r| == |a|
    ensures forall i :: 0 <= i < |a| ==> r[i] == a[i] / s
  {
    seq(|a|, i requires 0 <= i < |a| => a[i] / s)
  }

  /** Unary `operator-`: every component negated. */
  function Neg(a: Vec): (r: Vec)
    ensures |r| == |a|
    ensures forall i :: 0 <= i < |a| ==> r[i] == -a[i]
  {
    seq(|a|, i requires 0 <= i < |a| => -a[i])
  }

  /** `dot`: the sum of the component products, added left to right; never negative on (v, v). */
  function Dot(a: Vec, b: Vec): (d: real)
    requires |a| == |b|
    decreases |a|
  {
    if |a| == 0 then 0.0
    else Dot(a[..|a| - 1], b[..|b| - 1]) + a[|a| - 1] * b[|b| - 1]
  }

  /** The squared length `ls` that `normalized` compares with eps * eps. */
  function LengthSquared(a: Vec): (ls: real)
    ensures ls >= 0.0
  {
    SelfDotNonnegative(a);
    Dot(a, a)
  }

  /** A sum of squares is never negative. */
  lemma {:induction false} SelfDotNonnegative(a: Vec)
    ensures Dot(a, a) >= 0.0
    decreases |a|
  {
    if |a| > 0 {
      var n := |a|;
      SelfDotNonnegative(a[..n - 1]);
      SquareNonnegative(Dot(a[..n - 1], a[..n - 1]), a[n - 1]);
    }
  }

  /** Adding a square to a non-negative number keeps it non-negative. */
  lemma SquareNonnegative(p: real, x: real)
    requires p >= 0.0
    ensures p + x * x >= 0.0
  {
  }

  /** `k` is 1 / sqrt(x): the factor `normalized` multiplies by. */
  ghost predicate IsInverseSqrt(k: real, x: real) {
    k > 0.0 && k * k * x == 1.0
  }

  /**
   * `normalized(eps)`. The square root is not computed: the caller passes the
   * inverse length, characterised by its defining equation, and it is only
   * needed on the branch that uses it.
   */
  function Normalized(v: Vec, eps: real, inverseLength: real): (r: Vec)
    requires LengthSquared(v) > eps * eps ==> IsInverseSqrt(inverseLength, LengthSquared(v))
    ensures |r| == |v|
    ensures LengthSquared(v) <= eps * eps ==> r == Zero(|v|)
    ensures LengthSquared(v) > eps * eps ==> LengthSquared(r) == 1.0
  {
    if LengthSquared(v) <= eps * eps then Zero(|v|)
    else
      LengthSquaredOfScale(v, inverseLength);
      Scale(v, inverseLength)
  }

  /**
   * `normalized()` with its default tolerance: a unit vector comes back
   * unchanged, and a vector whose length is exactly the tolerance already
   * counts as zero, since the comparison is `ls <= eps * eps`.
   */
  lemma NormalizedDefault(n: nat)
    requires n >= 2
    ensures LengthSquared(Up(n)) == 1.0 && Normalized(Up(n), DefaultEpsilon, 1.0) == Up(n)
    ensures LengthSquared(Scale(Up(n), DefaultEpsilon)) == DefaultEpsilon * DefaultEpsilon
         && Normalized(Scale(Up(n), DefaultEpsilon), DefaultEpsilon, 1.0) == Zero(n)
  {
    UpDown(n);
    LengthSquaredOfScale(Up(n), DefaultEpsilon);
    assert Scale(Up(n), 1.0) == Up(n);
  }

  /** `cross` on three-dimensional vectors; a vector crossed with itself is zero. */
  function Cross(a: Vector3, b: Vector3): (c: Vector3)
    ensures a == b ==> c[0] == 0.0 && c[1] == 0.0 && c[2] == 0.0
  {
    [a[1] * b[2] - b[1] * a[2],
     a[2] * b[0] - b[2] * a[0],
     a[0] * b[1] - b[0] * a[1]]
  }

  // ---------------------------------------------------------------------------
  // Facts about vectors
  // ---------------------------------------------------------------------------

  /**
   * Lagrange's identity for three components: with c = a x b written out,
   * c . c == (a . a)(b . b) - (a . b)^2.
   */
  lemma Lagrange(a0: real, a1: real, a2: real, b0: real, b1: real, b2: real,
                 c0: real, c1: real, c2: real, aa: real, bb: real, ab: real)
    requires c0 == a1 * b2 - b1 * a2 && c1 == a2 * b0 - b2 * a0 && c2 == a0 * b1 - b0 * a1
    requires aa == a0 * a0 + a1 * a1 + a2 * a2 && bb == b0 * b0 + b1 * b1 + b2 * b2
    requires ab == a0 * b0 + a1 * b1 + a2 * b2
    ensures c0 * c0 + c1 * c1 + c2 * c2 == aa * bb - ab * ab
  {
  }

  /** The dot product written out for three components, as the source writes it. */
  lemma Dot3(a: Vec, b: Vec)
    requires |a| == |b| == 3
    ensures Dot(a, b) == a[0] * b[0] + a[1] * b[1] + a[2] * b[2]
  {
    Dot2(a[..2], b[..2]);
  }

  /** The dot product written out for two components. */
  lemma Dot2(a: Vec, b: Vec)
    requires |a| == |b| == 2
    ensures Dot(a, b) == a[0] * b[0] + a[1] * b[1]
  {
    var a1, b1 := a[..1], b[..1];
    assert Dot(a1[..0], b1[..0]) == 0.0;
    assert Dot(a1, b1) == a[0] * b[0];
  }

  /** The dot product written out for four components. */
  lemma Dot4(a: Vec, b: Vec)
    requires |a| == |b| == 4
    ensures Dot(a, b) == a[0] * b[0] + a[1] * b[1] + a[2] * b[2] + a[3] * b[3]
  {
    Dot3(a[..3], b[..3]);
  }

  /** Scaling a vector by k scales its squared length by k * k. */
  lemma LengthSquaredOfScale(a: Vec, k: real)
    ensures LengthSquared(Scale(a, k)) == k * k * LengthSquared(a)
  {
    var sa := Scale(a, k);
    DotOfScale(a, sa, k);
    DotCommutative(a, sa);
    DotOfScale(a, a, k);
    Associate(LengthSquared(sa), Dot(a, sa), LengthSquared(a), k);
  }

  /** `k * (k * x) == k * k * x`, with the two dot products it links named. */
  lemma Associate(whole: real, half: real, original: real, k: real)
    requires whole == k * half && half == k * original
    ensures whole == k * k * original
  {
  }

  /** Scaling the left factor by k scales the dot product by k. */
  lemma {:induction false} DotOfScale(a: Vec, b: Vec, k: real)
    requires |a| == |b|
    ensures Dot(Scale(a, k), b) == k * Dot(a, b)
    decreases |a|
  {
    if |a| > 0 {
      var n := |a|;
      DotOfScale(a[..n - 1], b[..n - 1], k);
      ScaleFront(a, k);
      ScaledDotStep(Dot(Scale(a, k), b), Dot(a, b), Dot(Scale(a[..n - 1], k), b[..n - 1]),
                    Dot(a[..n - 1], b[..n - 1]), a[n - 1], b[n - 1], k);
    } else {
      assert Dot(Scale(a, k), b) == 0.0 == Dot(a, b);
    }
  }

  /** Scaling commutes with dropping the last component, and scales that component. */
  lemma ScaleFront(a: Vec, k: real)
    requires |a| > 0
    ensures Scale(a, k)[..|a| - 1] == Scale(a[..|a| - 1], k)
    ensures Scale(a, k)[|a| - 1] == a[|a| - 1] * k
  {
    var n, sa, front := |a|, Scale(a, k), Scale(a[..|a| - 1], k);
    assert forall i :: 0 <= i < n - 1 ==> sa[..n - 1][i] == front[i];
  }

  /** The arithmetic of one induction step of `DotOfScale`. */
  lemma ScaledDotStep(whole: real, original: real, scaled: real, p: real, x: real, y: real, k: real)
    requires scaled == k * p
    requires whole == scaled + (x * k) * y && original == p + x * y
    ensures whole == k * original
  {
  }

  /** `(a + b) - b == a`. */
  lemma AddSubCancel(a: Vec, b: Vec)
    requires |a| == |b|
    ensures Sub(Add(a, b), b) == a
  {
  }

  /** `a - b == a + (-b)`. */
  lemma SubIsAddNeg(a: Vec, b: Vec)
    requires |a| == |b|
    ensures Sub(a, b) == Add(a, Neg(b))
  {
  }

  /** `vectorN_down()` is the negation of `vectorN_up()`, and the up vector has unit length. */
  lemma UpDown(n: nat)
    requires n >= 2
    ensures Down(n) == Neg(Up(n))
    ensures LengthSquared(Up(n)) == 1.0
  {
    UnitIsUp(n);
    DotUnitLeft(n, 1, Up(n));
  }

  /** `a.cross(b)` is orthogonal to `a` and to `b`. */
  lemma CrossOrthogonal(a: Vector3, b: Vector3)
    ensures Dot(Cross(a, b), a) == 0.0
    ensures Dot(Cross(a, b), b) == 0.0
  {
    var c := Cross(a, b);
    Dot3(c, a);
    Dot3(c, b);
    CrossTerms(a[0], a[1], a[2], b[0], b[1], b[2], c[0], c[1], c[2]);
  }

  /** Lagrange's identity: the squared length of a x b is |a|^2 |b|^2 - (a . b)^2. */
  lemma CrossLagrange(a: Vector3, b: Vector3)
    ensures LengthSquared(Cross(a, b)) == LengthSquared(a) * LengthSquared(b) - Dot(a, b) * Dot(a, b)
  {
    var c := Cross(a, b);
    Dot3(a, b);
    Dot3(a, a);
    Dot3(b, b);
    Dot3(c, c);
    Lagrange(a[0], a[1], a[2], b[0], b[1], b[2], c[0], c[1], c[2], LengthSquared(a), LengthSquared(b), Dot(a, b));
  }

  /** The cross product written out is orthogonal to both factors, as a polynomial identity. */
  lemma CrossTerms(a0: real, a1: real, a2: real, b0: real, b1: real, b2: real, c0: real, c1: real, c2: real)
    requires c0 == a1 * b2 - b1 * a2 && c1 == a2 * b0 - b2 * a0 && c2 == a0 * b1 - b0 * a1
    ensures c0 * a0 + c1 * a1 + c2 * a2 == 0.0
    ensures c0 * b0 + c1 * b1 + c2 * b2 == 0.0
  {
  }

  /** `cross` is anticommutative, and a vector crossed with itself is zero. */
  lemma CrossAnticommutative(a: Vector3, b: Vector3)
    ensures Cross(a, b) == Neg(Cross(b, a))
    ensures Cross(a, a) == Zero(3)
  {
  }

  // ---------------------------------------------------------------------------
  // Matrices
  // ---------------------------------------------------------------------------

  /** A matrix as its rows; `entries[r][c]` is `m[r][c]`. */
  type Mat = seq<seq<real>>

  /** m has n rows of n entries each. */
  predicate IsSquare(m: Mat, n: nat) {
    |m| == n && forall r :: 0 <= r < n ==> |m[r]| == n
  }

  type Mat2 = m: Mat | IsSquare(m, 2) witness [[0.0, 0.0], [0.0, 0.0]]
  type Mat3 = m: Mat | IsSquare(m, 3) witness [[0.0, 0.0, 0.0], [0.0, 0.0, 0.0], [0.0, 0.0, 0.0]]
  type Mat4 = m: Mat | IsSquare(m, 4)
    witness [[0.0, 0.0, 0.0, 0.0], [0.0, 0.0, 0.0, 0.0], [0.0, 0.0, 0.0, 0.0], [0.0, 0.0, 0.0, 0.0]]

  /** `Mat out{}`: the n-by-n zero matrix. */
  function ZeroMatrix(n: nat): (m: Mat)
    ensures IsSquare(m, n)
  {
    seq(n, _ => Zero(n))
  }

  /** Row k of the identity of size n. */
  function Unit(n: nat, k: nat): (r: Vec)
    ensures |r| == n
  {
    seq(n, i => if i == k then 1.0 else 0.0)
  }

  /** `mat2_identity()`, `mat3_identity()`, `mat4_identity()`. */
  function Identity(n: nat): (m: Mat)
    ensures IsSquare(m, n)
    ensures forall r, c :: 0 <= r < n && 0 <= c < n ==> m[r][c] == if r == c then 1.0 else 0.0
  {
    seq(n, r requires 0 <= r < n => Unit(n, r))
  }

  /** `operator+(Mat)`: entry-wise sum. */
  function MatAdd(a: Mat, b: Mat): (m: Mat)
    requires IsSquare(a, |a|) && IsSquare(b, |a|)
    ensures IsSquare(m, |a|)
    ensures forall r, c :: 0 <= r < |a| && 0 <= c < |a| ==> m[r][c] == a[r][c] + b[r][c]
  {
    seq(|a|, r requires 0 <= r < |a| => Add(a[r], b[r]))
  }

  /** `operator-(Mat)`: entry-wise difference. */
  function MatSub(a: Mat, b: Mat): (m: Mat)
    requires IsSquare(a, |a|) && IsSquare(b, |a|)
    ensures IsSquare(m, |a|)
    ensures forall r, c :: 0 <= r < |a| && 0 <= c < |a| ==> m[r][c] == a[r][c] - b[r][c]
  {
    seq(|a|, r requires 0 <= r < |a| => Sub(a[r], b[r]))
  }

  /** `operator*(float)` on matrices: every entry times s. */
  function MatScale(a: Mat, s: real): (m: Mat)
    requires IsSquare(a, |a|)
    ensures IsSquare(m, |a|)
    ensures forall r, c :: 0 <= r < |a| && 0 <= c < |a| ==> m[r][c] == a[r][c] * s
  {
    seq(|a|, r requires 0 <= r < |a| => Scale(a[r], s))
  }

  /** Column c of m. */
  function Column(m: Mat, c: nat): (v: Vec)
    requires IsSquare(m, |m|) && c < |m|
    ensures |v| == |m|
  {
    seq(|m|, r requires 0 <= r < |m| => m[r][c])
  }

  /** `transpose()`: row r of the result is column r of m. */
  function Transpose(m: Mat): (t: Mat)
    requires IsSquare(m, |m|)
    ensures IsSquare(t, |m|)
    ensures forall r, c :: 0 <= r < |m| && 0 <= c < |m| ==> t[r][c] == m[c][r]
  {
    seq(|m|, r requires 0 <= r < |m| => Column(m, r))
  }

  /** Entry (r, c) of the product a * b: row r of a dotted with column c of b. */
  function ProductEntry(a: Mat, b: Mat, r: nat, c: nat): (e: real)
    requires IsSquare(a, |a|) && IsSquare(b, |a|) && r < |a| && c < |a|
  {
    Dot(a[r], Column(b, c))
  }

  /** The matrix product that `operator*(Mat)` computes. */
  function Product(a: Mat, b: Mat): (m: Mat)
    requires IsSquare(a, |a|) && IsSquare(b, |a|)
    ensures IsSquare(m, |a|)
    ensures forall r, c :: 0 <= r < |a| && 0 <= c < |a| ==> m[r][c] == Dot(a[r], Column(b, c))
  {
    seq(|a|, r requires 0 <= r < |a| =>
      seq(|a|, c requires 0 <= c < |a| => ProductEntry(a, b, r, c)))
  }

  /** `operator*(Vector)`: entry r is row r of m dotted with v. */
  function Apply(m: Mat, v: Vec): (w: Vec)
    requires IsSquare(m, |m|) && |v| == |m|
    ensures |w| == |v|
    ensures forall r :: 0 <= r < |m| ==> w[r] == Dot(m[r], v)
  {
    seq(|m|, r requires 0 <= r < |m| => Dot(m[r], v))
  }

  /** `Mat2::operator*(Mat2)`: the nested loops filling a local zero matrix. */
  method Mat2Mul(a: Mat2, b: Mat2) returns (out: Mat2)
    ensures out == Product(a, b)
  {
    out := ZeroMatrix(2);
    for r := 0 to 2
      invariant forall i, j :: 0 <= i < r && 0 <= j < 2 ==> out[i][j] == ProductEntry(a, b, i, j)
    {
      for c := 0 to 2
        invariant forall i, j :: 0 <= i < r && 0 <= j < 2 ==> out[i][j] == ProductEntry(a, b, i, j)
        invariant forall j :: 0 <= j < c ==> out[r][j] == ProductEntry(a, b, r, j)
      {
        Dot2(a[r], Column(b, c));
        out := out[r := out[r][c := a[r][0] * b[0][c] + a[r][1] * b[1][c]]];
      }
    }
    assert forall i :: 0 <= i < 2 ==> out[i] == Product(a, b)[i];
  }

  /** `Mat3::operator*(Mat3)`. */
  method Mat3Mul(a: Mat3, b: Mat3) returns (out: Mat3)
    ensures out == Product(a, b)
  {
    out := ZeroMatrix(3);
    for r := 0 to 3
      invariant forall i, j :: 0 <= i < r && 0 <= j < 3 ==> out[i][j] == ProductEntry(a, b, i, j)
    {
      for c := 0 to 3
        invariant forall i, j :: 0 <= i < r && 0 <= j < 3 ==> out[i][j] == ProductEntry(a, b, i, j)
        invariant forall j :: 0 <= j < c ==> out[r][j] == ProductEntry(a, b, r, j)
      {
        Dot3(a[r], Column(b, c));
        out := out[r := out[r][c := a[r][0] * b[0][c] + a[r][1] * b[1][c] + a[r][2] * b[2][c]]];
      }
    }
    assert forall i :: 0 <= i < 3 ==> out[i] == Product(a, b)[i];
  }

  /** `Mat4::operator*(Mat4)`. */
  method Mat4Mul(a: Mat4, b: Mat4) returns (out: Mat4)
    ensures out == Product(a, b)
  {
    out := ZeroMatrix(4);
    for r := 0 to 4
      invariant forall i, j :: 0 <= i < r && 0 <= j < 4 ==> out[i][j] == ProductEntry(a, b, i, j)
    {
      for c := 0 to 4
        invariant forall i, j :: 0 <= i < r && 0 <= j < 4 ==> out[i][j] == ProductEntry(a, b, i, j)
        invariant forall j :: 0 <= j < c ==> out[r][j] == ProductEntry(a, b, r, j)
      {
        Dot4(a[r], Column(b, c));
        out := out[r := out[r][c := a[r][0] * b[0][c] + a[r][1] * b[1][c]
                                  + a[r][2] * b[2][c] + a[r][3] * b[3][c]]];
      }
    }
    assert forall i :: 0 <= i < 4 ==> out[i] == Product(a, b)[i];
  }

  // ---------------------------------------------------------------------------
  // Facts about matrices (for every size, so for Mat2, Mat3 and Mat4 alike)
  // ---------------------------------------------------------------------------

  /** The dot product is symmetric. */
  lemma {:induction false} DotCommutative(a: Vec, b: Vec)
    requires |a| == |b|
    ensures Dot(a, b) == Dot(b, a)
    decreases |a|
  {
    if |a| > 0 {
      DotCommutative(a[..|a| - 1], b[..|b| - 1]);
    }
  }

  /** Dotting with the zero vector gives 0. */
  lemma {:induction false} DotZero(n: nat, v: Vec)
    requires |v| == n
    ensures Dot(Zero(n), v) == 0.0
  {
    if n > 0 {
      assert Zero(n)[..n - 1] == Zero(n - 1);
      DotZero(n - 1, v[..n - 1]);
    }
  }

  /** Dotting with the k-th unit row picks out component k. */
  lemma {:induction false} DotUnitLeft(n: nat, k: nat, v: Vec)
    requires |v| == n && k < n
    ensures Dot(Unit(n, k), v) == v[k]
  {
    assert Unit(n, k)[..n - 1] == (if k < n - 1 then Unit(n - 1, k) else Zero(n - 1));
    if k < n - 1 {
      DotUnitLeft(n - 1, k, v[..n - 1]);
    } else {
      DotZero(n - 1, v[..n - 1]);
    }
  }

  /** Row 1 of the identity is the up vector. */
  lemma UnitIsUp(n: nat)
    requires n >= 2
    ensures Unit(n, 1) == Up(n)
  {
  }

  /** The columns of the identity are its rows. */
  lemma IdentityColumn(n: nat, c: nat)
    requires c < n
    ensures Column(Identity(n), c) == Unit(n, c)
  {
  }

  /** `transpose` is an involution. */
  lemma TransposeInvolution(m: Mat)
    requires IsSquare(m, |m|)
    ensures Transpose(Transpose(m)) == m
  {
    var t := Transpose(Transpose(m));
    forall r | 0 <= r < |m|
      ensures t[r] == m[r]
    {
      assert forall c :: 0 <= c < |m| ==> t[r][c] == Transpose(m)[c][r] == m[r][c];
    }
  }

  /** The identity is fixed by `transpose`. */
  lemma IdentitySymmetric(n: nat)
    ensures Transpose(Identity(n)) == Identity(n)
  {
    forall r | 0 <= r < n
      ensures Transpose(Identity(n))[r] == Identity(n)[r]
    {
      IdentityColumn(n, r);
    }
  }

  /** The identity is a two-sided unit of the matrix product. */
  lemma IdentityUnit(a: Mat)
    requires IsSquare(a, |a|)
    ensures Product(Identity(|a|), a) == a
    ensures Product(a, Identity(|a|)) == a
  {
    var n := |a|;
    var left, right := Product(Identity(n), a), Product(a, Identity(n));
    forall r, c | 0 <= r < n && 0 <= c < n
      ensures left[r][c] == a[r][c] && right[r][c] == a[r][c]
    {
      DotUnitLeft(n, r, Column(a, c));
      IdentityColumn(n, c);
      DotCommutative(a[r], Unit(n, c));
      DotUnitLeft(n, c, a[r]);
    }
    assert forall r :: 0 <= r < n ==> left[r] == a[r] && right[r] == a[r];
  }

  /** The identity times a vector is that vector. */
  lemma IdentityApply(v: Vec)
    ensures Apply(Identity(|v|), v) == v
  {
    forall r | 0 <= r < |v|
      ensures Apply(Identity(|v|), v)[r] == v[r]
    {
      DotUnitLeft(|v|, r, v);
    }
  }

  /** Entry-wise `(a + b) - b == a` for matrices. */
  lemma MatAddSubCancel(a: Mat, b: Mat)
    requires IsSquare(a, |a|) && IsSquare(b, |a|)
    ensures MatSub(MatAdd(a, b), b) == a
  {
    forall r | 0 <= r < |a|
      ensures MatSub(MatAdd(a, b), b)[r] == a[r]
    {
      AddSubCancel(a[r], b[r]);
    }
  }

  /** `transpose` distributes over the entry-wise sum and commutes with scaling. */
  lemma TransposeLinear(a: Mat, b: Mat, s: real)
    requires IsSquare(a, |a|) && IsSquare(b, |a|)
    ensures Transpose(MatAdd(a, b)) == MatAdd(Transpose(a), Transpose(b))
    ensures Transpose(MatScale(a, s)) == MatScale(Transpose(a), s)
  {
    var n := |a|;
    forall r | 0 <= r < n
      ensures Transpose(MatAdd(a, b))[r] == MatAdd(Transpose(a), Transpose(b))[r]
      ensures Transpose(MatScale(a, s))[r] == MatScale(Transpose(a), s)[r]
    {
      assert forall c :: 0 <= c < n ==> Transpose(MatAdd(a, b))[r][c] == a[c][r] + b[c][r];
      var lhs, rhs := Transpose(MatScale(a, s))[r], MatScale(Transpose(a), s)[r];
      assert |lhs| == |rhs| == n;
      forall c | 0 <= c < n
        ensures lhs[c] == rhs[c]
      {
        assert lhs[c] == MatScale(a, s)[c][r] == a[c][r] * s;
        assert rhs[c] == Transpose(a)[r][c] * s == a[c][r] * s;
      }
    }
  }

  /** Dividing by s undoes scaling by s, and dividing is scaling by 1 / s. */
  lemma ScaleDiv(a: Vec, s: real)
    requires s != 0.0
    ensures Div(Scale(a, s), s) == a
    ensures Div(a, s) == Scale(a, 1.0 / s)
  {
    forall i | 0 <= i < |a|
      ensures Div(Scale(a, s), s)[i] == a[i] && Div(a, s)[i] == Scale(a, 1.0 / s)[i]
    {
      assert a[i] * s / s == a[i];
      assert a[i] / s == a[i] * (1.0 / s);
    }
  }
}
