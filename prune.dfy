/** Input pruning: the first child of a model, when it is a linear layer,
    loses every input column whose L2 norm is less than half the largest
    column norm. Norms are compared squared, so no square root is needed:
    column `j` is pruned iff `4 · ‖W[:,j]‖² < max_k ‖W[:,k]‖²`. */
module Prune {
  import opened LinAlg
  import opened Network

  function SumSquares(v: Vector): (s: real)
    ensures s >= 0.0
    decreases |v|
  {
    if v == [] then 0.0 else v[0] * v[0] + SumSquares(v[1..])
  }

  /** Squared L2 norm of column `j` of `w`. */
  function ColumnSqNorm(w: Matrix, j: nat): real {
    SumSquares(Column(w, j))
  }

  /** The largest squared column norm among the first `n` columns: an upper
      bound of all of them that one of them attains. */
  function MaxColumnSqNorm(w: Matrix, n: nat): (m: real)
    ensures m >= 0.0
    ensures forall j :: 0 <= j < n ==> ColumnSqNorm(w, j) <= m
    ensures n > 0 ==> exists j :: 0 <= j < n && ColumnSqNorm(w, j) == m
    decreases n
  {
    if n == 0 then 0.0
    else
      var rest := MaxColumnSqNorm(w, n - 1);
      var last := ColumnSqNorm(w, n - 1);
      if last > rest then last else rest
  }

  /** Column `j` of an `n`-column weight falls under the threshold. When all
      norms are zero this reads `0 < 0`: nothing is pruned. */
  predicate Pruned(w: Matrix, n: nat, j: nat) {
    4.0 * ColumnSqNorm(w, j) < MaxColumnSqNorm(w, n)
  }

  /** The mask the pruning attaches: 0 across pruned columns, 1 elsewhere. */
  function PruneMask(w: Matrix, n: nat): Matrix {
    seq(|w|, i => seq(n, j requires 0 <= j < n => if Pruned(w, n, j) then 0.0 else 1.0))
  }

  lemma {:induction false} MulLess(x: real, y: real, c: real)
    requires x < y && 0.0 < c
    ensures x * c < y * c
  {
  }

  lemma {:induction false} MulLessEq(x: real, y: real, c: real)
    requires x <= y && 0.0 <= c
    ensures x * c <= y * c
  {
  }

  lemma {:induction false} SquareLess(x: real, y: real)
    requires 0.0 <= x < y
    ensures x * x < y * y
  {
    calc {
      x * x;
    <= { MulLessEq(x, y, x); }
      y * x;
    < { MulLess(x, y, y); }
      y * y;
    }
  }

  lemma {:induction false} SquareLessEq(x: real, y: real)
    requires 0.0 <= x <= y
    ensures x * x <= y * y
  {
    calc {
      x * x;
    <= { MulLessEq(x, y, x); }
      y * x;
    <= { MulLessEq(x, y, y); }
      y * y;
    }
  }

  /** The ratio test on norms `a` (a column's) and `m` (the largest) agrees
      with the squared test, for every positive `m`. */
  lemma {:induction false} RatioTestIsSquaredTest(a: real, m: real)
    requires 0.0 <= a && 0.0 < m
    ensures (a / m < 0.5) <==> (4.0 * (a * a) < m * m)
  {
    var q, d := a / m, 2.0 * a;
    assert q * m == a;
    if q < 0.5 {
      MulLess(q, 0.5, m);
    } else {
      MulLessEq(0.5, q, m);
    }
    assert d * d == 4.0 * (a * a);
    if d < m {
      SquareLess(d, m);
    } else {
      SquareLessEq(m, d);
    }
  }

  /** The squared test is the ratio test of the source on actual norms:
      for `a` the norm of column `j` and `m` the largest norm, positive,
      `a / m < 0.5` holds exactly when column `j` is pruned. */
  lemma {:induction false} PrunedIsRatioTest(w: Matrix, n: nat, j: nat, a: real, m: real)
    requires 0.0 <= a && 0.0 < m
    requires a * a == ColumnSqNorm(w, j) && m * m == MaxColumnSqNorm(w, n)
    ensures (a / m < 0.5) <==> Pruned(w, n, j)
  {
    RatioTestIsSquaredTest(a, m);
  }

  /** Builds the mask in place: starts from all ones, then overwrites the
      pruned columns with zeros, one column at a time. */
  method BuildMask(l: Linear) returns (mask: Matrix)
    ensures IsMatrix(mask, OutFeatures(l), l.inFeatures)
    ensures forall i, j :: 0 <= i < |mask| && 0 <= j < l.inFeatures ==>
              mask[i][j] == if Pruned(l.weight, l.inFeatures, j) then 0.0 else 1.0
  {
    var rows, n := |l.weight|, l.inFeatures;
    mask := seq(rows, _ => seq(n, _ => 1.0));
    var prune := seq(n, j requires 0 <= j < n => Pruned(l.weight, n, j));
    for j := 0 to n
      invariant IsMatrix(mask, rows, n)
      invariant forall r, k :: 0 <= r < rows && 0 <= k < j ==> mask[r][k] == if prune[k] then 0.0 else 1.0
      invariant forall r, k :: 0 <= r < rows && j <= k < n ==> mask[r][k] == 1.0
    {
      if prune[j] {
        for i := 0 to rows
          invariant IsMatrix(mask, rows, n)
          invariant forall r, k :: 0 <= r < rows && 0 <= k < j ==> mask[r][k] == if prune[k] then 0.0 else 1.0
          invariant forall r, k :: 0 <= r < rows && j < k < n ==> mask[r][k] == 1.0
          invariant forall r :: 0 <= r < i ==> mask[r][j] == 0.0
          invariant forall r :: i <= r < rows ==> mask[r][j] == 1.0
        {
          mask := mask[i := mask[i][j := 0.0]];
        }
      }
    }
    assert forall k :: 0 <= k < n ==> prune[k] == Pruned(l.weight, n, k);
  }

  /** The layer after pruning: its weight multiplied by the mask, so pruned
      columns are zero and every other entry keeps its value. */
  function PruneLinear(l: Linear): (r: Linear)
    ensures r.inFeatures == l.inFeatures && r.bias == l.bias && |r.weight| == |l.weight|
    ensures forall i, j :: 0 <= i < |l.weight| && 0 <= j < l.inFeatures ==>
              r.weight[i][j] == if Pruned(l.weight, l.inFeatures, j) then 0.0 else l.weight[i][j]
  {
    LinearParams(l.inFeatures, Hadamard(l.weight, PruneMask(l.weight, l.inFeatures)), l.bias)
  }

  /** The children after pruning: only a linear first child changes. */
  function PrunedChildren(children: seq<Module>): seq<Module> {
    if children != [] && children[0].LinearModule? then
      [LinearModule(PruneLinear(children[0].linear))] + children[1..]
    else children
  }

  /** The norm computation has nothing to take a maximum of: a linear first
      child with no inputs. */
  predicate PruneFails(children: seq<Module>) {
    children != [] && children[0].LinearModule? && children[0].linear.inFeatures == 0
  }

  /** Prunes the inputs of `model` in place. The model is switched to
      evaluation mode for the computation and back to training mode at the
      end; when the maximum cannot be taken the call stops (`ok` false)
      with the model still in evaluation mode and its layers untouched. */
  method PruneFeatures(model: Sequential) returns (ok: bool)
    modifies model
    ensures ok == !PruneFails(old(model.children))
    ensures model.children == if ok then PrunedChildren(old(model.children)) else old(model.children)
    ensures model.training == ok
  {
    model.training := false;
    // The loop over the children ends in an unconditional `break`: only the
    // first child is ever examined.
    if model.children != [] {
      match model.children[0]
      case LinearModule(l) =>
        if l.inFeatures == 0 {
          return false;
        }
        var mask := BuildMask(l);
        forall i | 0 <= i < |mask|
          ensures mask[i] == PruneMask(l.weight, l.inFeatures)[i]
        {
        }
        var pruned := LinearParams(l.inFeatures, Hadamard(l.weight, mask), l.bias);
        assert pruned == PruneLinear(l);
        model.children := model.children[0 := LinearModule(pruned)];
        assert model.children == PrunedChildren(old(model.children));
      case Activation(_) =>
    }
    model.training := true;
    ok := true;
  }

  /** A column with the largest norm is never pruned, so a layer with at
      least one input keeps at least one. */
  lemma {:induction false} MaxColumnKept(w: Matrix, n: nat)
    requires n > 0
    ensures forall j :: 0 <= j < n && ColumnSqNorm(w, j) == MaxColumnSqNorm(w, n) ==> !Pruned(w, n, j)
    ensures exists j :: 0 <= j < n && !Pruned(w, n, j)
  {
    var j :| 0 <= j < n && ColumnSqNorm(w, j) == MaxColumnSqNorm(w, n);
    assert !Pruned(w, n, j);
  }

  lemma {:induction false} SumSquaresZeros(v: Vector)
    requires forall k :: 0 <= k < |v| ==> v[k] == 0.0
    ensures SumSquares(v) == 0.0
    decreases |v|
  {
    if v != [] {
      SumSquaresZeros(v[1..]);
    }
  }

  /** An all-zero layer (every ratio is 0/0 in floating point) prunes nothing. */
  lemma {:induction false} ZeroLayerPrunesNothing(w: Matrix, n: nat)
    requires IsMatrix(w, |w|, n)
    requires forall i, j :: 0 <= i < |w| && 0 <= j < n ==> w[i][j] == 0.0
    ensures forall j :: 0 <= j < n ==> !Pruned(w, n, j)
  {
    forall j | 0 <= j < n
      ensures ColumnSqNorm(w, j) == 0.0
    {
      SumSquaresZeros(Column(w, j));
    }
    if n > 0 {
      var k :| 0 <= k < n && ColumnSqNorm(w, k) == MaxColumnSqNorm(w, n);
    }
  }

  /** After pruning, a pruned column has norm 0 and a kept one its old norm. */
  lemma {:induction false} PrunedColumnNorm(l: Linear, j: nat)
    requires j < l.inFeatures
    ensures ColumnSqNorm(PruneLinear(l).weight, j) ==
            if Pruned(l.weight, l.inFeatures, j) then 0.0 else ColumnSqNorm(l.weight, j)
  {
    var w, w' := l.weight, PruneLinear(l).weight;
    if Pruned(l.weight, l.inFeatures, j) {
      SumSquaresZeros(Column(w', j));
    } else {
      assert Column(w', j) == Column(w, j);
    }
  }

  /** Pruning keeps the largest column norm. */
  lemma {:induction false} PruneKeepsMax(l: Linear)
    ensures MaxColumnSqNorm(PruneLinear(l).weight, l.inFeatures) == MaxColumnSqNorm(l.weight, l.inFeatures)
  {
    var n, w, w' := l.inFeatures, l.weight, PruneLinear(l).weight;
    if n > 0 {
      var m, m' := MaxColumnSqNorm(w, n), MaxColumnSqNorm(w', n);
      var top :| 0 <= top < n && ColumnSqNorm(w, top) == m;
      MaxColumnKept(w, n);
      PrunedColumnNorm(l, top);
      var top' :| 0 <= top' < n && ColumnSqNorm(w', top') == m';
      PrunedColumnNorm(l, top');
    }
  }

  /** Pruning a pruned layer selects the same columns and changes nothing. */
  lemma {:induction false} PruneLinearIdempotent(l: Linear)
    ensures forall j :: 0 <= j < l.inFeatures ==>
              Pruned(PruneLinear(l).weight, l.inFeatures, j) == Pruned(l.weight, l.inFeatures, j)
    ensures PruneLinear(PruneLinear(l)) == l.(weight := PruneLinear(l).weight)
    ensures PruneLinear(PruneLinear(l)) == PruneLinear(l)
  {
    var n, w' := l.inFeatures, PruneLinear(l).weight;
    PruneKeepsMax(l);
    forall j | 0 <= j < n
      ensures Pruned(w', n, j) == Pruned(l.weight, n, j)
    {
      PrunedColumnNorm(l, j);
    }
    var r := PruneLinear(PruneLinear(l));
    forall i | 0 <= i < |w'|
      ensures r.weight[i] == w'[i]
    {
      forall j | 0 <= j < n
        ensures r.weight[i][j] == w'[i][j]
      {
      }
    }
  }

  /** Pruning the model twice leaves the same children as pruning it once. */
  lemma {:induction false} PrunedChildrenIdempotent(children: seq<Module>)
    ensures PruneFails(PrunedChildren(children)) == PruneFails(children)
    ensures PrunedChildren(PrunedChildren(children)) == PrunedChildren(children)
  {
    if children != [] && children[0].LinearModule? {
      PruneLinearIdempotent(children[0].linear);
      assert PrunedChildren(children)[1..] == children[1..];
    }
  }

  /** Three inputs whose column norms are 10, 1 and 0.1: the last two fall
      under half the largest norm and are pruned, the first is kept. */
  lemma {:induction false} PruneExample()
    ensures var w := [[10.0, 1.0, 0.1]];
            !Pruned(w, 3, 0) && Pruned(w, 3, 1) && Pruned(w, 3, 2)
  {
    var w := [[10.0, 1.0, 0.1]];
    assert Column(w, 0) == [10.0] && Column(w, 1) == [1.0] && Column(w, 2) == [0.1];
    assert ColumnSqNorm(w, 0) == 100.0;
    assert ColumnSqNorm(w, 1) == 1.0;
    assert ColumnSqNorm(w, 2) == 0.01;
    assert MaxColumnSqNorm(w, 3) == 100.0;
  }
}
