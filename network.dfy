/** A feed-forward network as the two transforms see it: the ordered
    children of a sequential container, of which only the linear layers take
    part, with a ReLU implied between consecutive linear layers. */
module Network {
  import opened LinAlg

  datatype LinearParams = LinearParams(inFeatures: nat, weight: Matrix, bias: Vector)

  /** A linear layer `y = weight · x + bias`; its weight always has one row
      per output (one per bias entry) and `inFeatures` columns. */
  type Linear = l: LinearParams | IsMatrix(l.weight, |l.bias|, l.inFeatures)
    witness LinearParams(0, [], [])

  /** A child module: a linear layer, or any other stage, identified only by
      its name. The reduction steps over such a stage and replays a ReLU in
      its place; the pruning stops at it when it is the first child. */
  datatype Module = LinearModule(linear: Linear) | Activation(name: string)

  /** A sequential model: its children in declaration order and its
      training/evaluation mode. */
  class Sequential {
    var children: seq<Module>
    var training: bool

    /** A freshly built model starts in training mode. */
    constructor (children: seq<Module>)
      ensures this.children == children && training
    {
      this.children := children;
      training := true;
    }
  }

  function OutFeatures(l: Linear): nat {
    |l.bias|
  }

  /** The layer's affine map applied to `y`. */
  function Apply(l: Linear, y: Vector): Vector {
    VecAdd(MatVec(l.weight, y), l.bias)
  }

  function Relu(v: Vector): Vector {
    seq(|v|, i requires 0 <= i < |v| => if v[i] > 0.0 then v[i] else 0.0)
  }

  /** The linear layers among `children`, in order. */
  function Linears(children: seq<Module>): (ls: seq<Linear>)
    ensures |ls| <= |children|
    decreases |children|
  {
    if children == [] then []
    else
      var last := children[|children| - 1];
      Linears(children[..|children| - 1]) + (if last.LinearModule? then [last.linear] else [])
  }

  /** There is no linear layer exactly when every child is an activation. */
  lemma {:induction false} LinearsEmpty(children: seq<Module>)
    ensures Linears(children) == [] <==> forall i :: 0 <= i < |children| ==> children[i].Activation?
    decreases |children|
  {
    if children != [] {
      var init := children[..|children| - 1];
      LinearsEmpty(init);
      assert forall i :: 0 <= i < |init| ==> init[i] == children[i];
    }
  }

  /** Filtering linear layers distributes over concatenation of children. */
  lemma {:induction false} LinearsAppend(a: seq<Module>, b: seq<Module>)
    ensures Linears(a + b) == Linears(a) + Linears(b)
    decreases |b|
  {
    if b == [] {
      assert a + b == a;
    } else {
      var b', last := b[..|b| - 1], b[|b| - 1];
      var tail := if last.LinearModule? then [last.linear] else [];
      assert (a + b)[..|a + b| - 1] == a + b' && (a + b)[|a + b| - 1] == last;
      LinearsAppend(a, b');
      calc {
        Linears(a + b);
        Linears(a + b') + tail;
        Linears(a) + Linears(b') + tail;
        Linears(a) + Linears(b);
      }
    }
  }

  /** The linear layers of a prefix of the children are a prefix of all the
      linear layers. */
  lemma {:induction false} LinearsPrefix(children: seq<Module>, i: nat)
    requires i <= |children|
    ensures Linears(children[..i]) <= Linears(children)
  {
    assert children == children[..i] + children[i..];
    LinearsAppend(children[..i], children[i..]);
  }

  /** One more child adds its layer, if it is a linear one. */
  lemma {:induction false} LinearsStep(children: seq<Module>, i: nat)
    requires i < |children|
    ensures Linears(children[..i + 1]) ==
            Linears(children[..i]) + (if children[i].LinearModule? then [children[i].linear] else [])
  {
    assert children[..i + 1][..i] == children[..i];
  }

  /** The size of the input that layer `k` expects in a stack fed `inDim` inputs. */
  function LayerInput(layers: seq<Linear>, inDim: nat, k: nat): nat
    requires k < |layers|
  {
    if k == 0 then inDim else OutFeatures(layers[k - 1])
  }

  /** The first `n` layers of the stack read inputs of the sizes they are
      fed: the first reads `inDim` inputs and each later one the previous
      layer's outputs. */
  predicate ChainedUpTo(layers: seq<Linear>, inDim: nat, n: nat)
    requires n <= |layers|
  {
    forall k {:trigger LayerInput(layers, inDim, k)} :: 0 <= k < n ==> layers[k].inFeatures == LayerInput(layers, inDim, k)
  }

  /** A non-empty stack whose dimensions chain all the way through. */
  predicate Chained(layers: seq<Linear>, inDim: nat) {
    |layers| > 0 && ChainedUpTo(layers, inDim, |layers|)
  }

  /** The input that layer `k` receives when `x` is fed to the stack: `x`
      itself for the first layer, else the ReLU of the previous layer's
      output. */
  function Input(layers: seq<Linear>, x: Vector, k: nat): (y: Vector)
    requires k <= |layers|
    ensures k > 0 ==> |y| == OutFeatures(layers[k - 1])
  {
    if k == 0 then x else Relu(Apply(layers[k - 1], Input(layers, x, k - 1)))
  }

  /** Pre-activation of layer `k` on sample `x`. */
  function PreActivation(layers: seq<Linear>, x: Vector, k: nat): Vector
    requires k < |layers|
  {
    Apply(layers[k], Input(layers, x, k))
  }

  /** The last linear output of the ReLU replay on `x`: the network's own
      output before its final stage when a ReLU separates every two
      consecutive linear layers. */
  function Forward(layers: seq<Linear>, x: Vector): Vector
    requires |layers| > 0
  {
    PreActivation(layers, x, |layers| - 1)
  }

  /** Along a chained stack, every layer receives an input of the size it expects. */
  lemma {:induction false} InputFits(layers: seq<Linear>, x: Vector, k: nat)
    requires Chained(layers, |x|) && k < |layers|
    ensures |Input(layers, x, k)| == layers[k].inFeatures
  {
    assert layers[k].inFeatures == LayerInput(layers, |x|, k);
  }
}
