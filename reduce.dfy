/** Firing-path reduction: one sample is replayed through the linear stack,
    the units that do not fire are cut out of every layer but the last, and
    the masked layers are folded into one affine map that the reduced model
    follows with a sigmoid. */
module Reduce {
  import opened LinAlg
  import opened Network

  datatype ReduceError =
    | NoLinearLayer        // nothing to fold: the composition is never started
    | ShapeMismatch        // a layer is fed an input of the wrong size
    | FirstChildNotLinear  // the fold starts only at child 0; a later start multiplies by nothing

  datatype Result<T> = Ok(value: T) | Err(error: ReduceError)

  datatype Option<T> = None | Some(value: T)

  /** One linear layer followed by a sigmoid stage. */
  datatype ReducedModel = ReducedModel(linear: Linear)

  function MapVec(f: real -> real, v: Vector): Vector {
    seq(|v|, i requires 0 <= i < |v| => f(v[i]))
  }

  /** The reduced model's output on `x`, for a given sigmoid. */
  function Predict(m: ReducedModel, x: Vector, sigmoid: real -> real): Vector {
    MapVec(sigmoid, Apply(m.linear, x))
  }

  /** Copy of `l` whose rows and bias entries are zero for the units whose
      pre-activation `h` is not positive. */
  function MaskRows(l: Linear, h: Vector): Linear
    requires |h| == OutFeatures(l)
  {
    LinearParams(
      l.inFeatures,
      seq(|l.weight|, j requires 0 <= j < |l.weight| => if h[j] <= 0.0 then Zeros(l.inFeatures) else l.weight[j]),
      seq(|l.bias|, j requires 0 <= j < |l.bias| => if h[j] <= 0.0 then 0.0 else l.bias[j]))
  }

  /** Zeroes, in place on copies of a layer's weight and bias, the rows of
      the units whose pre-activation is not positive; other rows are kept. */
  method ZeroInactiveRows(weight: Matrix, bias: Vector, h: Vector) returns (w: Matrix, b: Vector)
    requires |weight| == |bias| == |h|
    ensures |w| == |weight| && |b| == |bias|
    ensures forall j :: 0 <= j < |h| && h[j] <= 0.0 ==> w[j] == Zeros(|weight[j]|) && b[j] == 0.0
    ensures forall j :: 0 <= j < |h| && h[j] > 0.0 ==> w[j] == weight[j] && b[j] == bias[j]
  {
    w, b := weight, bias;
    for j := 0 to |h|
      invariant |w| == |weight| && |b| == |bias|
      invariant forall k :: 0 <= k < j && h[k] <= 0.0 ==> w[k] == Zeros(|weight[k]|) && b[k] == 0.0
      invariant forall k :: 0 <= k < j && h[k] > 0.0 ==> w[k] == weight[k] && b[k] == bias[k]
      invariant forall k :: j <= k < |h| ==> w[k] == weight[k] && b[k] == bias[k]
    {
      if h[j] <= 0.0 {
        w := w[j := Zeros(|w[j]|)];
        b := b[j := 0.0];
      }
    }
  }

  /** Copies layer `l`, replays it on its input `x` and, unless it is the
      last linear layer, zeroes the rows of the units that do not fire. */
  method MaskedCopy(l: Linear, x: Vector, isLast: bool) returns (masked: Linear)
    requires |x| == l.inFeatures
    ensures masked == if isLast then l else MaskRows(l, Apply(l, x))
  {
    var weight, bias := l.weight, l.bias;
    var h := Apply(l, x);
    if !isLast {
      weight, bias := ZeroInactiveRows(weight, bias, h);
      assert weight == MaskRows(l, h).weight;
      assert bias == MaskRows(l, h).bias;
    }
    masked := LinearParams(l.inFeatures, weight, bias);
  }

  /** On the sample that produced `h`, the masked layer outputs exactly the
      ReLU of the unmasked one: dropping the rows of silent units loses
      nothing there. */
  lemma {:induction false} MaskRowsApply(l: Linear, y: Vector)
    requires |y| == l.inFeatures
    ensures Apply(MaskRows(l, Apply(l, y)), y) == Relu(Apply(l, y))
  {
    var h := Apply(l, y);
    var m := MaskRows(l, h);
    forall j | 0 <= j < |h|
      ensures Apply(m, y)[j] == Relu(h)[j]
    {
      if h[j] <= 0.0 {
        DotZerosLeft(l.inFeatures, y);
      }
    }
  }

  /** Layer `k` as the reduction uses it on sample `x`: masked by its own
      firing pattern, except the last layer, which is taken as it is. */
  function MaskedLayer(layers: seq<Linear>, x: Vector, k: nat): Linear
    requires k < |layers|
  {
    if k < |layers| - 1 then MaskRows(layers[k], PreActivation(layers, x, k)) else layers[k]
  }

  /** The first `k` masked layers. */
  function MaskedPrefix(layers: seq<Linear>, x: Vector, k: nat): seq<Linear>
    requires k <= |layers|
  {
    seq(k, i requires 0 <= i < k => MaskedLayer(layers, x, i))
  }

  /** One fold step: layer `l` after the running composition `acc`. */
  function ComposeStep(l: Linear, acc: Linear): Linear {
    LinearParams(acc.inFeatures, MatMul(l.weight, acc.weight, acc.inFeatures), VecAdd(MatVec(l.weight, acc.bias), l.bias))
  }

  /** The fold of a non-empty stack into one layer, first layer innermost.
      It reads the first layer's inputs and yields the last layer's outputs,
      whatever the number of layers in between. */
  function Compose(ms: seq<Linear>): (r: Linear)
    requires |ms| > 0
    ensures r.inFeatures == ms[0].inFeatures && OutFeatures(r) == OutFeatures(ms[|ms| - 1])
    decreases |ms|
  {
    if |ms| == 1 then ms[0] else ComposeStep(ms[|ms| - 1], Compose(ms[..|ms| - 1]))
  }

  /** A fold step is exact: applying the composed layer equals applying
      `acc` and then `l`. */
  lemma {:induction false} ComposeStepApply(l: Linear, acc: Linear, x: Vector)
    requires |x| == acc.inFeatures && l.inFeatures == OutFeatures(acc)
    ensures Apply(ComposeStep(l, acc), x) == Apply(l, Apply(acc, x))
  {
    var w, a, c := l.weight, acc.weight, acc.bias;
    MatVecMatMul(w, a, x);
    MatVecAdd(w, MatVec(a, x), c);
    assert Apply(ComposeStep(l, acc), x) == VecAdd(VecAdd(MatVec(w, MatVec(a, x)), MatVec(w, c)), l.bias);
  }

  /** Layer `k`, masked as the reduction masks it, turns the input the
      network feeds it into the input of the next layer, or, for the last
      layer, into the replay's last linear output. */
  lemma {:induction false} MaskedLayerApply(layers: seq<Linear>, x: Vector, k: nat)
    requires Chained(layers, |x|) && k < |layers|
    ensures Apply(MaskedLayer(layers, x, k), Input(layers, x, k)) ==
            if k == |layers| - 1 then Forward(layers, x) else Input(layers, x, k + 1)
  {
    InputFits(layers, x, k);
    if k < |layers| - 1 {
      MaskRowsApply(layers[k], Input(layers, x, k));
    }
  }

  /** Masking keeps a layer's shape. */
  lemma {:induction false} MaskedLayerShape(layers: seq<Linear>, x: Vector, k: nat)
    requires k < |layers|
    ensures MaskedLayer(layers, x, k).inFeatures == layers[k].inFeatures
    ensures OutFeatures(MaskedLayer(layers, x, k)) == OutFeatures(layers[k])
  {
  }

  /** The fold of the first `k` masked layers, applied to the sample, gives
      the input the network feeds layer `k`; the fold of all of them gives
      the replay's last linear output. */
  lemma {:induction false} ComposePrefixApply(layers: seq<Linear>, x: Vector, k: nat)
    requires Chained(layers, |x|) && 1 <= k <= |layers|
    ensures Apply(Compose(MaskedPrefix(layers, x, k)), x) ==
            if k == |layers| then Forward(layers, x) else Input(layers, x, k)
  {
    var ms := MaskedPrefix(layers, x, k);
    MaskedLayerApply(layers, x, k - 1);
    if k > 1 {
      var prev := MaskedPrefix(layers, x, k - 1);
      assert ms[..k - 1] == prev;
      ComposePrefixApply(layers, x, k - 1);
      assert layers[0].inFeatures == LayerInput(layers, |x|, 0);
      assert layers[k - 1].inFeatures == LayerInput(layers, |x|, k - 1);
      MaskedLayerShape(layers, x, 0);
      MaskedLayerShape(layers, x, k - 2);
      MaskedLayerShape(layers, x, k - 1);
      assert Compose(ms) == ComposeStep(ms[k - 1], Compose(prev));
      ComposeStepApply(ms[k - 1], Compose(prev), x);
    }
  }

  /** Folding one more masked layer is one more fold step. */
  lemma {:induction false} ComposePrefixStep(layers: seq<Linear>, x: Vector, k: nat)
    requires 1 <= k < |layers|
    ensures Compose(MaskedPrefix(layers, x, k + 1)) ==
            ComposeStep(MaskedLayer(layers, x, k), Compose(MaskedPrefix(layers, x, k)))
  {
    assert MaskedPrefix(layers, x, k + 1)[..k] == MaskedPrefix(layers, x, k);
  }

  /** The firing-path law: on the sample it was built from, the folded map
      reproduces the replay's last linear output. */
  lemma {:induction false} ComposeApply(layers: seq<Linear>, x: Vector)
    requires Chained(layers, |x|)
    ensures Apply(Compose(MaskedPrefix(layers, x, |layers|)), x) == Forward(layers, x)
  {
    ComposePrefixApply(layers, x, |layers|);
  }

  /** A network of one layer reduces to that layer, unmasked. */
  lemma {:induction false} SingleLayerUnchanged(l: Linear, x: Vector)
    ensures Compose(MaskedPrefix([l], x, 1)) == l
  {
    assert MaskedPrefix([l], x, 1) == [l];
  }

  /** The reduced model predicts what the network predicts on its own
      sample, whatever sigmoid both apply to their last linear output. */
  lemma {:induction false} ReducedPredictsNetwork(layers: seq<Linear>, x: Vector, sigmoid: real -> real)
    requires Chained(layers, |x|)
    ensures Predict(ReducedModel(Compose(MaskedPrefix(layers, x, |layers|))), x, sigmoid) ==
            MapVec(sigmoid, Forward(layers, x))
  {
    ComposeApply(layers, x);
  }

  /** The reduction holds for one firing pattern only: a network whose
      reduced model, built on one sample, is wrong on another. */
  lemma {:induction false} ReductionIsLocal()
    ensures exists layers: seq<Linear>, x: Vector, y: Vector ::
              Chained(layers, 1) && |x| == |y| == 1 &&
              Apply(Compose(MaskedPrefix(layers, x, |layers|)), y) != Forward(layers, y)
  {
    var id: Linear := LinearParams(1, [[1.0]], [0.0]);
    var zero: Linear := LinearParams(1, [[0.0]], [0.0]);
    var layers := [id, id];
    var x, y := [-1.0], [1.0];
    assert Chained(layers, 1) by {
      assert LayerInput(layers, 1, 0) == 1 && LayerInput(layers, 1, 1) == 1;
    }
    assert Apply(Compose(MaskedPrefix(layers, x, 2)), y) == [0.0] by {
      assert Apply(id, x) == [-1.0];
      assert Zeros(1) == [0.0];
      assert MaskedLayer(layers, x, 0) == zero;
      assert MaskedPrefix(layers, x, 2) == [zero, id];
      assert Compose([zero, id]) == ComposeStep(id, zero);
      ComposeStepApply(id, zero, y);
      assert Apply(zero, y) == [0.0];
      assert Apply(id, [0.0]) == [0.0];
    }
    assert Forward(layers, y) == [1.0] by {
      assert Apply(id, y) == [1.0];
      assert Input(layers, y, 1) == [1.0];
    }
  }

  /** The error the replay raises on `children` fed an input of size
    `inDim`, if any: no linear layer at all; a first linear layer that is
    not the first child and accepts the sample; a layer fed an input of the
    wrong size. */
  function ExpectedError(children: seq<Module>, inDim: nat): Option<ReduceError> {
    var layers := Linears(children);
    if layers == [] then Some(NoLinearLayer)
    else if !children[0].LinearModule? && layers[0].inFeatures == inDim then Some(FirstChildNotLinear)
    else if !Chained(layers, inDim) then Some(ShapeMismatch)
    else None
  }

  /** What the replay returns on `children` and sample `x`: the error it
      raises, or the fold of the masked linear layers. */
  function ReduceSpec(children: seq<Module>, x: Vector): Result<ReducedModel> {
    match ExpectedError(children, |x|)
    case Some(e) => Err(e)
    case None =>
      var layers := Linears(children);
      Ok(ReducedModel(Compose(MaskedPrefix(layers, x, |layers|))))
  }

  /** The replay succeeds exactly when child 0 is a linear layer and the
      linear layers chain from the sample's size. */
  lemma {:induction false} ReduceSpecOk(children: seq<Module>, x: Vector)
    ensures ReduceSpec(children, x).Ok? <==>
            |children| > 0 && children[0].LinearModule? && Chained(Linears(children), |x|)
  {
    var layers := Linears(children);
    if Chained(layers, |x|) {
      assert layers[0].inFeatures == LayerInput(layers, |x|, 0);
    }
    if |children| > 0 && children[0].LinearModule? {
      LinearsStep(children, 0);
      assert children[..0] == [];
      LinearsPrefix(children, 1);
    }
  }

  /** A successful replay yields one layer that reads the sample's size,
      yields the last layer's outputs and, on the sample, reproduces the
      replay's last linear output. */
  lemma {:induction false} ReduceSpecSound(children: seq<Module>, x: Vector)
    ensures ReduceSpec(children, x).Ok? ==>
              var layers := Linears(children);
              var m := ReduceSpec(children, x).value.linear;
              && m.inFeatures == |x|
              && OutFeatures(m) == OutFeatures(layers[|layers| - 1])
              && Apply(m, x) == Forward(layers, x)
  {
    var layers := Linears(children);
    if ReduceSpec(children, x).Ok? {
      assert layers[0].inFeatures == LayerInput(layers, |x|, 0);
      ComposeApply(layers, x);
    }
  }

  /** A model whose only child is a linear layer fed a sample of its input
      size reduces to that very layer. */
  lemma {:induction false} SingleLayerReduces(l: Linear, x: Vector)
    requires |x| == l.inFeatures
    ensures ReduceSpec([LinearModule(l)], x) == Ok(ReducedModel(l))
  {
    var children := [LinearModule(l)];
    assert children[..0] == [];
    assert Linears(children) == [l];
    assert LayerInput([l], |x|, 0) == |x|;
    assert Chained([l], |x|);
    SingleLayerUnchanged(l, x);
  }

  /** Bookkeeping of the replay: when child `i` is the layer number `count`
      among the linear ones, the linear layers up to and including it are
      the first `count + 1`. */
  lemma {:induction false} NextLinear(children: seq<Module>, i: nat, count: nat)
    requires i < |children| && children[i].LinearModule?
    requires count <= |Linears(children)| && Linears(children[..i]) == Linears(children)[..count]
    ensures count < |Linears(children)| && Linears(children)[count] == children[i].linear
    ensures Linears(children[..i + 1]) == Linears(children)[..count + 1]
  {
    LinearsStep(children, i);
    LinearsPrefix(children, i + 1);
  }

  lemma {:induction false} NextActivation(children: seq<Module>, i: nat, count: nat)
    requires i < |children| && children[i].Activation?
    requires count <= |Linears(children)| && Linears(children[..i]) == Linears(children)[..count]
    ensures Linears(children[..i + 1]) == Linears(children)[..count]
  {
    LinearsStep(children, i);
  }

  /** A layer fed an input of the wrong size, after a chained prefix: the
      replay reports a shape mismatch. */
  lemma {:induction false} ShapeMismatchExpected(children: seq<Module>, inDim: nat, count: nat)
    requires count < |Linears(children)|
    requires count > 0 ==> children[0].LinearModule?
    requires ChainedUpTo(Linears(children), inDim, count)
    requires Linears(children)[count].inFeatures != LayerInput(Linears(children), inDim, count)
    ensures ExpectedError(children, inDim) == Some(ShapeMismatch)
  {
  }

  /** The first linear layer is child `i > 0` and accepts the sample: the
      replay cannot start the fold. */
  lemma {:induction false} FirstChildExpected(children: seq<Module>, inDim: nat, i: nat)
    requires 0 < i < |children| && children[i].LinearModule? && children[i].linear.inFeatures == inDim
    requires Linears(children[..i]) == []
    ensures ExpectedError(children, inDim) == Some(FirstChildNotLinear)
  {
    LinearsStep(children, i);
    LinearsPrefix(children, i + 1);
    LinearsEmpty(children[..i]);
    assert children[..i][0] == children[0];
  }

  /** Counts the linear children. */
  method CountLinear(children: seq<Module>) returns (n: nat)
    ensures n == |Linears(children)|
  {
    n := 0;
    for i := 0 to |children|
      invariant n == |Linears(children[..i])|
    {
      LinearsStep(children, i);
      if children[i].LinearModule? {
        n := n + 1;
      }
    }
    assert children[..|children|] == children;
  }

  /** The state of the replay after its first `i` children: `count` linear
      layers met so far, all of them fed inputs of the sizes they expect,
      starting at child 0; `x` is what the next linear layer receives and
      `reduced` the fold of the masked layers met so far. */
  ghost predicate Replayed(children: seq<Module>, xSample: Vector, i: nat, count: nat, x: Vector, reduced: Option<Linear>) {
    var layers := Linears(children);
    && i <= |children| && count <= |layers| && Linears(children[..i]) == layers[..count]
    && (reduced.Some? <==> count > 0)
    && (count > 0 ==> children[0].LinearModule?)
    && ChainedUpTo(layers, |xSample|, count)
    && (count > 0 ==> reduced.value == Compose(MaskedPrefix(layers, xSample, count)))
    && x == Input(layers, xSample, count)
  }

  /** Stepping over an activation child changes nothing but the position. */
  lemma {:induction false} ReplayActivation(children: seq<Module>, xSample: Vector, i: nat, count: nat, x: Vector, reduced: Option<Linear>)
    requires i < |children| && children[i].Activation?
    requires Replayed(children, xSample, i, count, x, reduced)
    ensures Replayed(children, xSample, i + 1, count, x, reduced)
  {
    NextActivation(children, i, count);
  }

  /** A linear child fed an input of the wrong size: the replay reports a
      shape mismatch. */
  lemma {:induction false} ReplayMismatch(children: seq<Module>, xSample: Vector, i: nat, count: nat, x: Vector, reduced: Option<Linear>)
    requires i < |children| && children[i].LinearModule? && |x| != children[i].linear.inFeatures
    requires Replayed(children, xSample, i, count, x, reduced)
    ensures ReduceSpec(children, xSample) == Err(ShapeMismatch)
  {
    NextLinear(children, i, count);
    ShapeMismatchExpected(children, |xSample|, count);
  }

  /** The first linear child comes after child 0 and accepts the sample: the
      replay cannot start the fold. */
  lemma {:induction false} ReplayLateStart(children: seq<Module>, xSample: Vector, i: nat, x: Vector)
    requires 0 < i < |children| && children[i].LinearModule? && |x| == children[i].linear.inFeatures
    requires Replayed(children, xSample, i, 0, x, None)
    ensures ReduceSpec(children, xSample) == Err(FirstChildNotLinear)
  {
    FirstChildExpected(children, |xSample|, i);
  }

  /** The facts about a linear child fed an input of the right size that
      both fold steps share: the layer count and the chained prefix grow by
      one, and the input moves on to the ReLU of the layer's output. */
  lemma {:induction false} ReplayLinearCommon(children: seq<Module>, xSample: Vector, i: nat, count: nat, x: Vector, reduced: Option<Linear>,
                           masked: Linear, a: Vector)
    requires i < |children| && children[i].LinearModule? && |x| == children[i].linear.inFeatures
    requires Replayed(children, xSample, i, count, x, reduced)
    requires var l := children[i].linear;
             masked == if count == |Linears(children)| - 1 then l else MaskRows(l, Apply(l, x))
    requires a == Relu(Apply(children[i].linear, x))
    ensures var layers := Linears(children);
            && count < |layers| && Linears(children[..i + 1]) == layers[..count + 1]
            && ChainedUpTo(layers, |xSample|, count + 1)
            && a == Input(layers, xSample, count + 1)
            && masked == MaskedLayer(layers, xSample, count)
  {
    var layers := Linears(children);
    NextLinear(children, i, count);
    assert layers[count].inFeatures == LayerInput(layers, |xSample|, count);
  }

  /** Child 0 is a linear layer fed the sample: its masked copy starts the fold. */
  lemma {:induction false} ReplayStart(children: seq<Module>, xSample: Vector, count: nat, x: Vector, masked: Linear, a: Vector)
    requires 0 < |children| && children[0].LinearModule? && |x| == children[0].linear.inFeatures
    requires Replayed(children, xSample, 0, count, x, None)
    requires var l := children[0].linear;
             masked == if count == |Linears(children)| - 1 then l else MaskRows(l, Apply(l, x))
    requires a == Relu(Apply(children[0].linear, x))
    ensures Replayed(children, xSample, 1, count + 1, a, Some(masked))
  {
    var layers := Linears(children);
    ReplayLinearCommon(children, xSample, 0, count, x, None, masked, a);
    assert count == 0;
    assert MaskedPrefix(layers, xSample, 1) == [masked];
  }

  /** A later linear layer fed an input of the right size: its masked copy
      is folded after the running composition. */
  lemma {:induction false} ReplayExtend(children: seq<Module>, xSample: Vector, i: nat, count: nat, x: Vector, acc: Linear,
                     masked: Linear, a: Vector)
    requires i < |children| && children[i].LinearModule? && |x| == children[i].linear.inFeatures
    requires Replayed(children, xSample, i, count, x, Some(acc))
    requires var l := children[i].linear;
             masked == if count == |Linears(children)| - 1 then l else MaskRows(l, Apply(l, x))
    requires a == Relu(Apply(children[i].linear, x))
    ensures Replayed(children, xSample, i + 1, count + 1, a, Some(ComposeStep(masked, acc)))
  {
    var layers := Linears(children);
    ReplayLinearCommon(children, xSample, i, count, x, Some(acc), masked, a);
    ComposePrefixStep(layers, xSample, count);
  }

  /** The replay ran through all the children: the fold is the reduced model,
      unless there was no linear layer to start it. */
  lemma {:induction false} ReplayDone(children: seq<Module>, xSample: Vector, count: nat, x: Vector, reduced: Option<Linear>)
    requires Replayed(children, xSample, |children|, count, x, reduced)
    ensures ReduceSpec(children, xSample) == if reduced.None? then Err(NoLinearLayer) else Ok(ReducedModel(reduced.value))
  {
    var layers := Linears(children);
    assert children[..|children|] == children;
    if reduced.Some? {
      assert Chained(layers, |xSample|);
    }
  }

  /** Replays child `i`: steps over an activation; replays a linear layer
      on the running input, masks it and folds it in; or reports the error
      the child raises. */
  method ReplayChild(children: seq<Module>, xSample: Vector, nLinear: nat,
                     i: nat, count: nat, x: Vector, reduced: Option<Linear>)
    returns (err: Option<ReduceError>, nextCount: nat, nextX: Vector, nextReduced: Option<Linear>)
    requires i < |children| && nLinear == |Linears(children)|
    requires Replayed(children, xSample, i, count, x, reduced)
    ensures err.Some? ==> ReduceSpec(children, xSample) == Err(err.value)
    ensures err.None? ==> Replayed(children, xSample, i + 1, nextCount, nextX, nextReduced)
  {
    nextCount, nextX, nextReduced := count, x, reduced;
    match children[i]
    case Activation(_) =>
      ReplayActivation(children, xSample, i, count, x, reduced);
      err := None;
    case LinearModule(l) =>
      if |x| != l.inFeatures {
        ReplayMismatch(children, xSample, i, count, x, reduced);
        return Some(ShapeMismatch), count, x, reduced;
      }
      if i != 0 && reduced.None? {
        ReplayLateStart(children, xSample, i, x);
        return Some(FirstChildNotLinear), count, x, reduced;
      }
      var masked := MaskedCopy(l, x, count == nLinear - 1);
      var a := Relu(Apply(l, x));
      if reduced.None? {
        ReplayStart(children, xSample, count, x, masked, a);
        nextReduced := Some(masked);
      } else {
        ReplayExtend(children, xSample, i, count, x, reduced.value, masked, a);
        nextReduced := Some(ComposeStep(masked, reduced.value));
      }
      err, nextCount, nextX := None, count + 1, a;
  }

  /** Builds the one-layer model of the firing path of `model` on
      `xSample`. The model and the sample are only read; the result is a
      fresh value. */
  method GetReducedModel(model: Sequential, xSample: Vector) returns (r: Result<ReducedModel>)
    ensures r == ReduceSpec(model.children, xSample)
  {
    var children := model.children;
    var x := xSample;
    var nLinear := CountLinear(children);
    var count := 0;
    var reduced: Option<Linear> := None;
    for i := 0 to |children|
      invariant Replayed(children, xSample, i, count, x, reduced)
    {
      var err;
      err, count, x, reduced := ReplayChild(children, xSample, nLinear, i, count, x, reduced);
      if err.Some? {
        return Err(err.value);
      }
    }
    ReplayDone(children, xSample, count, x, reduced);
    if reduced.None? {
      return Err(NoLinearLayer);
    }
    r := Ok(ReducedModel(reduced.value));
  }
}
