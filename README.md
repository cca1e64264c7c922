# Firing-path reduction of a ReLU network, in Dafny

This project models the two transforms in `deep_logic/utils/relunn.py`. They
work on a feed-forward network: a sequential container whose children are
linear layers with a ReLU between each consecutive pair.

- **Input pruning** (`prune_features`) looks only at the model's first child.
  When that child is a linear layer, it zeroes every input column of its
  weight whose L2 norm is less than half the largest column norm. The model
  is put in evaluation mode for the computation and back in training mode at
  the end.
- **Firing-path reduction** (`get_reduced_model`) replays one sample through
  the linear layers. Every layer except the last is copied with zeros in the
  weight rows and bias entries of the units whose pre-activation is `<= 0`.
  The copies are folded into one affine map: `A = W·A`, `c = W·c + b`. That map
  is returned, followed by a sigmoid.

`Network.Forward` is the replay the reduction performs: each linear layer is
fed the ReLU of the previous linear layer's output, whatever stages sit
between them. The central law: on the sample the reduction was built from,
the folded map gives exactly the last linear output of that replay
(`Reduce.ComposeApply`). The reduced model's prediction on that sample is the
sigmoid of that output (`Reduce.ReducedPredictsNetwork`). On another sample
it can be wrong (`Reduce.ReductionIsLocal`). The replay is the network's own
forward pass only when every two consecutive linear children are separated by
a ReLU and no module instance occurs twice among the children.

Layout:

- `linalg.dfy` (module `LinAlg`): vectors and matrices over `real`, with
  inner, matrix-vector and matrix-matrix products. It proves the algebra the
  fold relies on: associativity on a vector and distributivity.
- `network.dfy` (module `Network`): `Linear` layers, whose weight always has
  `|bias|` rows of `inFeatures` entries. A `Module` child is a linear layer or
  an activation stage. `Sequential` is a class with a `children` field and a
  `training` flag. `Forward` is the ReLU replay of the linear layers on one
  sample.
- `prune.dfy` (module `Prune`): the squared-norm threshold, the mask built in
  place (`BuildMask`) and `PruneFeatures`, which updates the model in place.
- `reduce.dfy` (module `Reduce`): row masking in place (`ZeroInactiveRows`),
  the fold (`Compose`), the specification of the whole call with its errors
  (`ReduceSpec`), and the replay loop (`GetReducedModel`).

Design choices:

- Norms are compared squared: column `j` is pruned iff
  `4·‖W[:,j]‖² < max_k ‖W[:,k]‖²`. `Prune.RatioTestIsSquaredTest` shows that
  this agrees with the ratio test `‖W[:,j]‖ / max < 0.5` whenever the maximum is
  positive. When every norm is zero, the code divides `0/0`, gets NaN, and NaN
  compares false, so nothing is pruned. The squared test reads `0 < 0` and also
  prunes nothing (`Prune.ZeroLayerPrunesNothing`).
- The pruning loop ends in an unconditional `break`, so only the first child is
  ever looked at. If that child is not a linear layer, nothing changes, even
  when a later child is linear.
- A first linear layer with no inputs makes `torch.max` of an empty tensor
  raise. `PruneFeatures` then returns `false` and leaves the model in
  evaluation mode with its layers untouched.
- The reduction starts its fold only at child index 0, not at the first linear
  layer. When the first linear layer is a later child and accepts the sample,
  the code multiplies by `None` and raises. The model reports this as
  `FirstChildNotLinear`. The other errors are `ShapeMismatch`, for a layer fed
  an input of the wrong size, and `NoLinearLayer`, when there is nothing to
  fold. `Reduce.ReduceSpecOk` shows that the call succeeds exactly when child 0
  is linear and the layer sizes chain from the sample's size.
- The reduction steps over every child that is not a linear layer, as its
  loops do, and never checks which stage it is: it assumes a ReLU between
  consecutive linear layers. The pruning never steps over a child: a first
  child that is not linear ends its loop at the `break`, and nothing changes.
- The sigmoid is a parameter of `Predict` and `ReducedPredictsNetwork`, so
  the results hold for any sigmoid.
- Arithmetic is exact `real` arithmetic.

## Model

| member | source | states |
|---|---|---|
| `LinAlg.MatVecMatMul` | deep_logic/utils/relunn.py:77 | Multiplying the running weight by a layer's weight associates on a vector: `(W·A)·x == W·(A·x)` |
| `LinAlg.MatVecAdd` | deep_logic/utils/relunn.py:78 | A layer's weight distributes over the running bias plus the folded input: `W·(u+v) == W·u + W·v` |
| `Network.InputFits` | deep_logic/utils/relunn.py:62-64 | Along a stack whose sizes chain, every layer is fed an input of exactly its `inFeatures` |
| `Prune.MaxColumnSqNorm` | deep_logic/utils/relunn.py:22-23 | The maximum squared column norm is non-negative, bounds every column's squared norm, and is attained by some column when there is one |
| `Prune.RatioTestIsSquaredTest` | deep_logic/utils/relunn.py:24 | For a column norm `a >= 0` and a largest norm `m > 0`, `a/m < 0.5` holds iff `4a² < m²` |
| `Prune.PrunedIsRatioTest` | deep_logic/utils/relunn.py:22-24 | For `a` the norm of column `j` and `m > 0` the largest norm, `a / m < 0.5` holds iff column `j` is pruned |
| `Prune.BuildMask` | deep_logic/utils/relunn.py:19-25 | The mask has the weight's shape; entry `(i, j)` is 0 iff column `j` is pruned and 1 otherwise |
| `Prune.PruneLinear` | deep_logic/utils/relunn.py:25-28 | The pruned layer has zero entries in the pruned columns and the original value in every other entry; its bias and input size are unchanged |
| `Prune.PruneFeatures` | deep_logic/utils/relunn.py:7-33 | Only a linear first child is replaced, by its pruned copy, and nothing else changes. It fails iff that child has no inputs, and then leaves the children as they were. The model ends in training mode iff the call succeeded |
| `Prune.MaxColumnKept` | deep_logic/utils/relunn.py:23-25 | A column of largest norm is never pruned, so a layer with at least one input keeps at least one |
| `Prune.ZeroLayerPrunesNothing` | deep_logic/utils/relunn.py:23-25 | When every weight is zero, no column is pruned |
| `Prune.PrunedColumnNorm` | deep_logic/utils/relunn.py:25-28 | After pruning, a pruned column has norm 0 and a kept column keeps its norm |
| `Prune.PruneKeepsMax` | deep_logic/utils/relunn.py:22-28 | Pruning keeps the largest column norm |
| `Prune.PruneLinearIdempotent` | deep_logic/utils/relunn.py:19-28 | Pruning a pruned layer again selects the same columns and changes nothing |
| `Prune.PrunedChildrenIdempotent` | deep_logic/utils/relunn.py:15-30 | Pruning the model's children twice gives the same children as pruning once, and the second call fails iff the first did |
| `Prune.PruneExample` | deep_logic/utils/relunn.py:22-25 | For column norms 10, 1 and 0.1, the first column is kept and the other two are pruned |
| `Reduce.ZeroInactiveRows` | deep_logic/utils/relunn.py:69-70 | Row `j` of the weight and entry `j` of the bias are zero when `h[j] <= 0`, and keep their values otherwise |
| `Reduce.MaskedCopy` | deep_logic/utils/relunn.py:58-70 | The copy of the last layer is unmasked. Any other layer's copy is masked by its own pre-activation on its input |
| `Reduce.MaskRowsApply` | deep_logic/utils/relunn.py:62-70 | On its own input, the masked layer outputs exactly the ReLU of the unmasked layer's output |
| `Reduce.MaskedLayerApply` | deep_logic/utils/relunn.py:62-81 | The masked layer `k` maps the input the replay feeds it to the next layer's input. For the last layer, it gives the replay's last linear output |
| `Reduce.Compose` | deep_logic/utils/relunn.py:73-78 | The fold of the masked layers reads the first layer's input size and yields the last layer's output size |
| `Reduce.ComposeStepApply` | deep_logic/utils/relunn.py:77-78 | One fold step is exact: applying `(W·A, W·c + b)` equals applying `(A, c)` and then `(W, b)` |
| `Reduce.ComposePrefixApply` | deep_logic/utils/relunn.py:56-82 | The fold of the first `k` masked layers, applied to the sample, gives the input of layer `k`. The fold of all of them gives the last linear output |
| `Reduce.ComposePrefixStep` | deep_logic/utils/relunn.py:76-78 | Folding one more layer is one fold step after the fold so far |
| `Reduce.ComposeApply` | deep_logic/utils/relunn.py:56-82 | Round trip: on the sample, the folded map equals the replay's last linear output |
| `Reduce.SingleLayerUnchanged` | deep_logic/utils/relunn.py:73-75 | A network with one linear layer reduces to that layer, unmasked |
| `Reduce.SingleLayerReduces` | deep_logic/utils/relunn.py:36-96 | A model whose only child is a linear layer, fed a sample of its input size, reduces to that very layer |
| `Reduce.ReducedPredictsNetwork` | deep_logic/utils/relunn.py:91-94 | For every sigmoid, the reduced model's prediction on the sample is the sigmoid of the replay's last linear output |
| `Reduce.ReductionIsLocal` | deep_logic/utils/relunn.py:62-70 | Some chained network and two samples exist where the model reduced on one sample gives a different output from the network on the other |
| `Reduce.ReduceSpecOk` | deep_logic/utils/relunn.py:56-86 | The reduction succeeds iff child 0 is a linear layer and the linear layers' sizes chain from the sample's size |
| `Reduce.ReduceSpecSound` | deep_logic/utils/relunn.py:56-86 | A successful reduction reads the sample's size and yields the last layer's output size. On the sample it reproduces the replay's last linear output |
| `Reduce.ShapeMismatchExpected` | deep_logic/utils/relunn.py:62 | A layer fed an input of the wrong size after a chained prefix gives a shape-mismatch error |
| `Reduce.FirstChildExpected` | deep_logic/utils/relunn.py:73-78 | A first linear layer at a later child index that accepts the sample gives the first-child error |
| `Reduce.CountLinear` | deep_logic/utils/relunn.py:47-50 | The count equals the number of linear children |
| `Reduce.ReplayChild` | deep_logic/utils/relunn.py:57-82 | Replaying one child either reports the error the whole call returns, or advances the replay state by that child |
| `Reduce.GetReducedModel` | deep_logic/utils/relunn.py:36-96 | The result equals `ReduceSpec`: the error the code raises, or the fold of the masked linear layers. The model is only read |

## Left out

- The pruning hook: `custom_from_mask` keeps `weight_orig` and `weight_mask`
  and re-applies the mask on every forward pass. The model keeps only the
  resulting masked weight, so the mask's persistence across later weight
  updates is not modelled.
- Floating point: float32 rounding, the square root inside `torch.norm`, and
  NaN in general. Only the two NaN and empty cases that decide behaviour are
  modelled: the all-zero layer and the layer with no inputs.
- The sigmoid's value: it is a parameter of `Predict`.
- `model_reduced.eval()` and the random initial weights of the new
  `torch.nn.Linear`, which are overwritten right away. `ReducedModel` holds the
  folded layer, and the sigmoid stage is implicit in `Predict`.
- Networks whose stage between two linear layers is not a ReLU (Tanh, Sigmoid,
  nothing at all): the reduction ignores the stage and replays a ReLU, so
  `Forward`, `ComposeApply`, `ReduceSpecSound` and `ReducedPredictsNetwork`
  describe that replay, not such a network's output.
- Shared module instances: `children()` lists a reused layer once, while
  `Sequential.children` holds values, so a layer used twice is not
  represented.
- Batched samples: the sample is one vector. Nested or non-sequential models:
  the children are a flat sequence.
- Linear layers without a bias: every `Linear` carries one.
- Exception types: the three `ReduceError` values and `ok == false` stand for
  the exceptions the code raises. Their Python types and messages are not
  modelled.
- `deep_logic/models/tree.py` and `experiments/experiment_12_celldiff_mi.py`
  are not part of this model. They wrap library classifiers and do file I/O,
  random splits and training loops.
