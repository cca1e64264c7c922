/** Dense vectors and matrices over the reals, with the products that the
    firing-path reduction composes, and the algebraic laws it relies on. */
module LinAlg {

  type Vector = seq<real>
  type Matrix = seq<seq<real>>

  /** `m` has `rows` rows, each of length `cols`. */
  predicate IsMatrix(m: Matrix, rows: nat, cols: nat) {
    |m| == rows && forall i :: 0 <= i < rows ==> |m[i]| == cols
  }

  function Zeros(n: nat): Vector {
    seq(n, _ => 0.0)
  }

  /** Inner product over the common prefix of `u` and `v`. */
  function Dot(u: Vector, v: Vector): real
    decreases |u|
  {
    if u == [] || v == [] then 0.0 else u[0] * v[0] + Dot(u[1..], v[1..])
  }

  function VecAdd(u: Vector, v: Vector): Vector
    requires |u| == |v|
  {
    seq(|u|, i requires 0 <= i < |u| => u[i] + v[i])
  }

  function Scale(a: real, u: Vector): Vector {
    seq(|u|, i requires 0 <= i < |u| => a * u[i])
  }

  /** Matrix-vector product: entry `i` is the inner product of row `i` with `v`. */
  function MatVec(w: Matrix, v: Vector): Vector {
    seq(|w|, i requires 0 <= i < |w| => Dot(w[i], v))
  }

  /** Column `j` of `a` (rows too short to have one contribute 0). */
  function Column(a: Matrix, j: nat): Vector {
    seq(|a|, k requires 0 <= k < |a| => if j < |a[k]| then a[k][j] else 0.0)
  }

  /** Row vector `w` times matrix `a`, keeping `cols` columns. */
  function VecMat(w: Vector, a: Matrix, cols: nat): Vector {
    seq(cols, j requires 0 <= j < cols => Dot(w, Column(a, j)))
  }

  /** Matrix product `w · a`, where `a` has `cols` columns. */
  function MatMul(w: Matrix, a: Matrix, cols: nat): Matrix {
    seq(|w|, i requires 0 <= i < |w| => VecMat(w[i], a, cols))
  }

  /** Element-wise product of two matrices of the same shape. */
  function Hadamard(a: Matrix, b: Matrix): Matrix
    requires |b| == |a| && forall i :: 0 <= i < |a| ==> |b[i]| == |a[i]|
  {
    seq(|a|, i requires 0 <= i < |a| => seq(|a[i]|, j requires 0 <= j < |a[i]| => a[i][j] * b[i][j]))
  }

  lemma {:induction false} DotZerosLeft(n: nat, x: Vector)
    ensures Dot(Zeros(n), x) == 0.0
    decreases n
  {
    if n > 0 && x != [] {
      assert Zeros(n)[1..] == Zeros(n - 1);
      DotZerosLeft(n - 1, x[1..]);
    }
  }

  lemma {:induction false} DotAddLeft(u: Vector, v: Vector, x: Vector)
    requires |u| == |v| == |x|
    ensures Dot(VecAdd(u, v), x) == Dot(u, x) + Dot(v, x)
    decreases |u|
  {
    if u != [] {
      assert VecAdd(u, v)[1..] == VecAdd(u[1..], v[1..]);
      DotAddLeft(u[1..], v[1..], x[1..]);
    }
  }

  lemma {:induction false} DotAddRight(w: Vector, u: Vector, v: Vector)
    requires |w| == |u| == |v|
    ensures Dot(w, VecAdd(u, v)) == Dot(w, u) + Dot(w, v)
    decreases |w|
  {
    if w != [] {
      assert VecAdd(u, v)[1..] == VecAdd(u[1..], v[1..]);
      DotAddRight(w[1..], u[1..], v[1..]);
    }
  }

  lemma {:induction false} DotScaleLeft(a: real, u: Vector, x: Vector)
    requires |u| == |x|
    ensures Dot(Scale(a, u), x) == a * Dot(u, x)
    decreases |u|
  {
    if u != [] {
      ScaleTail(a, u);
      DotScaleLeft(a, u[1..], x[1..]);
    }
  }

  lemma {:induction false} ScaleTail(a: real, u: Vector)
    requires u != []
    ensures Scale(a, u)[1..] == Scale(a, u[1..])
  {
    forall i | 0 <= i < |u| - 1
      ensures Scale(a, u)[1..][i] == Scale(a, u[1..])[i]
    {
      assert Scale(a, u)[1..][i] == a * u[i + 1];
    }
  }

  /** Peeling the first row off `w · a`: it splits into `w[0]` times the
      first row of `a` plus the rest of `w` times the rest of `a`. */
  lemma {:induction false} VecMatSplit(w: Vector, a: Matrix, n: nat)
    requires w != [] && IsMatrix(a, |w|, n)
    ensures VecMat(w, a, n) == VecAdd(Scale(w[0], a[0]), VecMat(w[1..], a[1..], n))
  {
    forall j | 0 <= j < n
      ensures VecMat(w, a, n)[j] == VecAdd(Scale(w[0], a[0]), VecMat(w[1..], a[1..], n))[j]
    {
      assert Column(a, j)[1..] == Column(a[1..], j);
    }
  }

  /** Peeling the first row off `w · (a · x)`. */
  lemma {:induction false} DotMatVecHead(w: Vector, a: Matrix, x: Vector)
    requires w != [] && |a| == |w|
    ensures Dot(w, MatVec(a, x)) == w[0] * Dot(a[0], x) + Dot(w[1..], MatVec(a[1..], x))
  {
    assert MatVec(a, x)[1..] == MatVec(a[1..], x);
  }

  /** `(w · a) · x` splits into the first row's share and the rest's. */
  lemma {:induction false} DotVecMatSplit(w: Vector, a: Matrix, x: Vector)
    requires w != [] && IsMatrix(a, |w|, |x|)
    ensures Dot(VecMat(w, a, |x|), x) == Dot(Scale(w[0], a[0]), x) + Dot(VecMat(w[1..], a[1..], |x|), x)
  {
    VecMatSplit(w, a, |x|);
    DotAddLeft(Scale(w[0], a[0]), VecMat(w[1..], a[1..], |x|), x);
  }

  /** Peeling the first row off `(w · a) · x`. */
  lemma {:induction false} DotVecMatHead(w: Vector, a: Matrix, x: Vector)
    requires w != [] && IsMatrix(a, |w|, |x|)
    ensures Dot(VecMat(w, a, |x|), x) == w[0] * Dot(a[0], x) + Dot(VecMat(w[1..], a[1..], |x|), x)
  {
    DotVecMatSplit(w, a, x);
    DotScaleLeft(w[0], a[0], x);
  }

  /** Moving a row vector across a matrix-vector product:
      `w · (a · x) == (w · a) · x`, the exchange of the two sums. */
  lemma {:induction false} DotVecMat(w: Vector, a: Matrix, x: Vector)
    requires IsMatrix(a, |w|, |x|)
    ensures Dot(w, MatVec(a, x)) == Dot(VecMat(w, a, |x|), x)
    decreases |w|
  {
    if w == [] {
      assert VecMat(w, a, |x|) == Zeros(|x|);
      DotZerosLeft(|x|, x);
    } else {
      DotMatVecHead(w, a, x);
      DotVecMatHead(w, a, x);
      DotVecMat(w[1..], a[1..], x);
    }
  }

  /** Matrix products associate on a vector: `(w · a) · x == w · (a · x)`. */
  lemma {:induction false} MatVecMatMul(w: Matrix, a: Matrix, x: Vector)
    requires IsMatrix(a, |a|, |x|)
    requires forall i :: 0 <= i < |w| ==> |w[i]| == |a|
    ensures MatVec(MatMul(w, a, |x|), x) == MatVec(w, MatVec(a, x))
  {
    forall i | 0 <= i < |w|
      ensures MatVec(MatMul(w, a, |x|), x)[i] == MatVec(w, MatVec(a, x))[i]
    {
      DotVecMat(w[i], a, x);
    }
  }

  /** Matrix-vector products distribute over vector addition. */
  lemma {:induction false} MatVecAdd(w: Matrix, u: Vector, v: Vector)
    requires |u| == |v|
    requires forall i :: 0 <= i < |w| ==> |w[i]| == |u|
    ensures MatVec(w, VecAdd(u, v)) == VecAdd(MatVec(w, u), MatVec(w, v))
  {
    forall i | 0 <= i < |w|
      ensures MatVec(w, VecAdd(u, v))[i] == VecAdd(MatVec(w, u), MatVec(w, v))[i]
    {
      DotAddRight(w[i], u, v);
    }
  }
}
