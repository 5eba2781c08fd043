# MicroAutograd in Dafny

A model of MicroAutograd, a small reverse-mode automatic differentiation
engine, and of the neural network built on it. The model covers:

- the scalar `Value` class of `value.py`: its operators and `backward`;
- the `Neuron`, `Layer` and `MultiLayerPerceptron` classes of `nn.py`: the
  call of each, `parameters`, construction, and one epoch of `train`.

## How the model is laid out

Every `Value` lives in an append-only arena (`Arena.Graph`, a `seq<Node>`).
A node records its forward `data` and the operation that made it (`Op`).
The operation names its operands by arena index. An operator can only refer
to nodes that already exist, so every operand index is below its consumer's
index and the graph is acyclic by construction (`Arena.Acyclic`). The
`.gradient` fields are a `seq<real>` beside the arena, one slot per node.

| file | module | what it models |
|---|---|---|
| arena.dfy | `Arena` | nodes, operand sets (`_prev`), errors, reachability, exact integer powers |
| operators.dfy | `Operators` | `+`, `__radd__`, `*`, `__rmul__`, `**`, `/`, `-`, `tanh`: the forward node each one appends |
| toposort.dfy | `TopoSort` | `build_topo`: the depth-first walk with its `visited` set |
| backprop.dfy | `Backprop` | each node's `_backward` step, the reverse loop, and `backward` |
| rules.dfy | `Rules` | the chain-rule step of each operator, one lemma per operator |
| gradients.dfy | `Gradients` | uniqueness of the gradients: independent of set order, local to what the root reaches |
| derivatives.dfy | `Derivatives` | end-to-end derivatives of small expressions (`/`, `-`, `x*x`, `x+x`, `x**2`, `tanh`, a repeated `backward`) |
| network.dfy | `Network` | neurons, layers, perceptrons: construction, parameters, calls, and the same network read as a function on reals |
| training.dfy | `Training` | one epoch of `train`: predictions, loss, `zero_grad`, `backward`, update |
| confinement.dfy | `Confinement` | an epoch does not depend on gradients left over from earlier epochs |

Some things are parameters rather than code:

- The exact hyperbolic tangent is a function `tanh: real -> real`. The
  source computes it through `exp` in floating point.
- Python iterates a `set` in an order it does not specify. `build_topo`
  walks `v._prev` in that order, so the walk takes `flip: nat -> bool`. It
  chooses, for each binary node, which of two distinct operands comes first.
  Every property holds for every `flip`, and
  `Gradients.BackwardOrderIndependent` shows that the gradients do not
  depend on it.
- `random.uniform(-1, 1)` is `draw: nat -> real`, indexed by the arena slot
  of the parameter it initialises.

The errors the code raises on exact values are `Result.Err` values, under
the same conditions as in the code. Errors that come from Python's limits
are not modelled: RecursionError from the recursive `build_topo` on a deep
graph, and the float overflow of `exp` and `**` (see "## Left out"). The
modelled errors are:

- a `Value` as the exponent of `**` (the `assert` at value.py:49);
- zero raised to a negative power, in the forward pass or in a Pow step of
  `backward`;
- `Value - Value`, because `Value` has no unary minus;
- a layer given the bare `Value` that a one-neuron layer returns;
- a list of outputs minus a target number in the loss;
- a loss over no pairs at all, which is the integer `0` and has no
  `backward`.

### A second `backward` without zeroing

`backward` sets the root's gradient to 1.0 (value.py:103). Each step then
adds onto whatever gradients the other nodes already hold (value.py:104-105).
So a second pass without zeroing does not simply double the gradients. In
`(x * 2) * 3`, the first pass gives `x` the gradient 6 and the second gives it
18, because the gradient 3 left on `x * 2` is added to again
(`Derivatives.SecondBackward`).

## Model

| member | source | states |
|---|---|---|
| Arena.Zeros | value.py:10 | a fresh node's gradient is 0: every slot of the result is 0 and there is one per node |
| Arena.Reach | value.py:7 | the nodes reachable through `_prev` include the node itself and lie at or below its index |
| Arena.ReachOperand | value.py:7 | an operand lies below its consumer, and everything it reaches the consumer reaches too |
| Arena.Operands | value.py:5-7 | `_prev = set(_children)`: empty exactly for a leaf, the one operand of `**` or `tanh`, and for `+` or `*` a single element exactly when both sides are the same value |
| Arena.RealPow | value.py:50 | `self.data ** other` for an integer exponent: a nonzero base gives a nonzero power, and a positive base a positive one |
| Arena.RealPowSquare | value.py:50 | `x ** 2` is `x * x` |
| Arena.RealPowInverse | value.py:61 | `x ** -1` is `1 / x` and `x ** -2` is `1 / (x * x)`, for a nonzero `x` |
| Operators.Lift | value.py:17 | a bare number becomes a fresh leaf holding it, appended at the end; a `Value` operand is used as it is |
| Operators.Add | value.py:16-27 | `self + other` appends one node with both operands recorded, holding `self.data + other.data`; nothing earlier changes |
| Operators.RAdd | value.py:29-30 | `x + self` for a number gives the node of `self + x`: the number is the lifted right operand and the value is `x + self.data` |
| Operators.Mul | value.py:35-43 | `self * other` appends one node holding `self.data * other.data` with both operands recorded |
| Operators.RMul | value.py:45-46 | `x * self` for a number gives the node of `self * x`, holding `x * self.data` |
| Operators.Pow | value.py:48-57 | `**` fails exactly for a `Value` exponent (the assert), a non-integer exponent, or a zero base with a negative exponent; otherwise it appends one node holding the exact power |
| Operators.Div | value.py:59-61 | `a / b` fails exactly when `b` is 0; otherwise it is `a * b ** -1`, two new nodes with no division rule of their own, holding `a / b` |
| Operators.DivNumber | value.py:59-61 | for a number divisor the inverse is computed on numbers and lifted to a leaf `1/x`, then multiplied |
| Operators.DivNode | value.py:59-61 | for a `Value` divisor a `** -1` node is appended, then the product; fails exactly on a zero divisor |
| Operators.Sub | value.py:32-33 | `self - other` fails exactly when `other` is a `Value` (no unary minus); for a number it is `self + (-other)` holding `self.data - other` |
| Operators.Tanh | value.py:63-66 | `tanh` appends one node holding `tanh(self.data)` with `self` as its only operand |
| TopoSort.Pair | value.py:7 | a two-element operand set is iterated once per distinct element, in one of its two orders |
| TopoSort.Visit | value.py:91-98 | after `build_topo(v)`, `v` is visited, no mark is ever removed, and the list has only grown at its end |
| TopoSort.Children | value.py:7 | `v._prev` as iterated: exactly the node's operands, each once, all below `v` |
| TopoSort.VisitSound | value.py:91-98 | one call of `build_topo(v)` keeps the list duplicate-free and operands-first, appends `v` if it was new, and adds only nodes reachable from `v` |
| TopoSort.EnterSound | value.py:92-98 | the same for a node not yet visited: it is marked, its children walked, and it is appended last |
| TopoSort.ChildSound | value.py:95-96 | walking an operand while its consumer is on the stack keeps the invariant and lists the operand |
| TopoSort.FinishSound | value.py:98 | appending `v` once all its operands are listed gives the postcondition of `build_topo(v)` |
| TopoSort.AppendSound | value.py:98 | appending a node whose operands are listed keeps the list duplicate-free and operands-first |
| TopoSort.ReachClosed | value.py:95-96 | everything reachable from a listed node is listed |
| TopoSort.Topo | value.py:89-100 | the topological list holds every node reachable from the root exactly once, each after all its operands, with the root last |
| Backprop.PlusEq | value.py:22-23 | one `operand.gradient += factor * out.gradient`: the operand's slot grows by factor times the output gradient, and no other slot changes |
| Backprop.Accumulate | value.py:38-40 | running a step's `+=` statements in order: every slot grows by exactly the sum of what the statements aimed at it add |
| Backprop.AddedShare | value.py:38-40 | what a step's statements add to a slot is the slot's total local derivative times the output gradient, so `a * a` adds both terms to `a` |
| Backprop.LocalDerivs | value.py:20-23 | each `+=` of a step targets an operand of the node, below it |
| Backprop.Step | value.py:20-23 | a `_backward` step only adds local derivative times the node's own gradient into each slot, and never changes the node's own slot |
| Backprop.Propagate | value.py:104-105 | the reverse loop over a list: a slot that no listed node has as an operand keeps its gradient |
| Backprop.PropagateSums | value.py:104-105 | after the reverse loop, every slot holds its start value plus, over the listed consumers, local derivative times the consumer's final gradient |
| Backprop.TopoConsumersLast | value.py:104-105 | in the reverse of an operands-first list, every consumer's step runs before its operands' steps |
| Backprop.InflowConsumerSum | value.py:104-105 | the chain-rule sum over the topological list is the sum over the reachable set, whatever the list order |
| Backprop.DefinedOnReach | value.py:53 | every step of the list can run exactly when every reachable Pow step avoids `0 ** negative` |
| Backprop.BackwardSums | value.py:103-105 | the root's gradient is 1, every other gradient is its start value plus its consumers' sum, and nodes the root does not reach keep their gradients |
| Backprop.Backward | value.py:86-105 | `backward` fails exactly when a reachable Pow step raises ZeroDivisionError; otherwise the root holds 1.0, each reached node its old gradient plus the chain-rule sum over its consumers, and every other node its old gradient |
| Backprop.ConsumerSumSingle | value.py:104-105 | when only one reachable node uses `k`, `k`'s sum is that node's single contribution |
| Backprop.ConsumerSumNone | value.py:104-105 | when no reachable node uses `k`, `k`'s sum is zero |
| Rules.LeafRule | value.py:11 | a leaf's `_backward` is the no-op lambda: no gradient changes |
| Rules.AddRule | value.py:20-23 | the `+` step adds `out.gradient` to each operand; in `a + a` it adds it twice to `a` |
| Rules.MulRule | value.py:38-40 | the `*` step adds `other.data * out.gradient` to `self` and `self.data * out.gradient` to `other`; in `a * a` it adds `2 * a.data * out.gradient` |
| Rules.PowRule | value.py:52-53 | the `** n` step adds `n * x ** (n - 1) * out.gradient` to the base |
| Rules.TanhRule | value.py:68-69 | the `tanh` step adds `(1 - t * t) * out.gradient` to the argument, with `t` the forward output |
| Rules.StepFrame | value.py:20-23 | a step leaves every slot that is not one of the node's operands unchanged |
| Rules.AddGain | value.py:22-23 | the local derivative of a sum is 1 per operand, 2 for `a + a` |
| Rules.MulGain | value.py:39-40 | the local derivative of a product with respect to one operand is the other's value, `2a` for `a * a` |
| Rules.PowGain | value.py:53 | the local derivative of `x ** n` is `n * x ** (n - 1)` |
| Rules.TanhGain | value.py:69 | the local derivative of `tanh` is `1 - t * t` |
| Gradients.SolutionUnique | value.py:103-105 | the equations `backward` satisfies have only one solution |
| Gradients.BackwardOrderIndependent | value.py:95-96 | the order in which `_prev` sets are iterated changes neither whether `backward` fails nor any gradient |
| Gradients.BackwardLocal | value.py:103-105 | the gradients `backward` leaves on the reached nodes depend only on what those nodes held before; failure does not depend on gradients |
| Gradients.AgreeFrom | value.py:104-105 | two solutions of the gradient equations agree from any index up |
| Gradients.AgreeOnReachFrom | value.py:104-105 | solutions from start gradients that agree on the reached nodes agree on the reached nodes |
| Gradients.ConsumerSumAgree | value.py:104-105 | a node's chain-rule sum reads only the gradients of its reached consumers above it |
| Derivatives.SoleConsumer | value.py:104-105 | a node with one reachable consumer ends with its start gradient plus that consumer's local derivative times the consumer's final gradient |
| Derivatives.RootOperand | value.py:103-105 | an operand used only by the root gains the root's local derivative, since the root's gradient is 1 |
| Derivatives.QuotientBuilt | value.py:59-61 | `x / y` on two leaves builds `y ** -1` and then `x * (y ** -1)` |
| Derivatives.DivGradients | value.py:59-61 | for `x / y`, d/dx = 1/y and d/dy = -x/y², from the Mul and Pow rules alone |
| Derivatives.QuotientNumerator | value.py:59-61 | the gradient of `x` in `x / y` is `1/y` |
| Derivatives.QuotientDenominator | value.py:59-61 | the gradient of `y` in `x / y` is `-x/y²` |
| Derivatives.QuotientInverse | value.py:59-61 | the gradient of `y ** -1` in `x / y` is `x` |
| Derivatives.InverseSlope | value.py:53 | the Pow rule at exponent -1 sends `-out / y²` to the base |
| Derivatives.SquareGradient | value.py:48-57 | for `x ** 2`, d/dx = 2x |
| Derivatives.SelfProductGradient | value.py:35-43 | for `x * x` the operand set has one element, yet both `+=` land on `x`: d/dx = 2x |
| Derivatives.SelfSumGradient | value.py:16-27 | for `x + x`, d/dx = 2 |
| Derivatives.DifferenceBuilt | value.py:32-33 | `x - y` for a number `y` is `x + (-y)`, with `-y` a fresh leaf |
| Derivatives.SubGradient | value.py:32-33 | `x - y` has derivative 1 for `x` and for the lifted `-y`, from the Add rule alone |
| Derivatives.TanhGradient | value.py:63-73 | for `tanh(x)`, d/dx = 1 - t² with `t` the forward output |
| Derivatives.ChainBuilt | value.py:35-43 | `x * 2` and then `* 3` on a lone leaf build exactly the five-node arena that the chain lemmas differentiate |
| Derivatives.ChainGradients | value.py:103-105 | for `(x * 2) * 3`, whatever the gradients held before, `x * 2` gains 3 and `x` gains twice the final gradient of `x * 2` |
| Derivatives.SecondBackward | value.py:103-105 | a second `backward` without zeroing gives `x` 18 after 6, three times and not twice the first result |
| Network.NewNeuron | nn.py:6-8 | a neuron gets `num_inputs` weights and a bias, all fresh leaves holding their draws; its parameters are exactly those new slots, weights first |
| Network.NewLayer | nn.py:22-23 | a layer gets `num_output` neurons of `num_input` weights each; its parameters are the new slots in neuron order, `num_output * (num_input + 1)` of them |
| Network.NewMlp | nn.py:41-43 | layer `i` maps `sizes[i]` inputs to `sizes[i + 1]` outputs, with `sizes = [num_input] + num_outputs`; the parameters are the new slots in layer order |
| Network.NewMlpParams | nn.py:41-51 | a fresh perceptron's parameter list has `sum (sizes[i] + 1) * sizes[i + 1]` entries, each a distinct new leaf holding its draw |
| Network.NeuronParams | nn.py:17-18 | one entry per weight plus one for the bias, and a value is listed exactly when it is a weight or the bias |
| Network.LayerParams | nn.py:37 | every parameter of every neuron of the layer is listed |
| Network.LayerParamsFrom | nn.py:37 | every listed value is a parameter of one of the layer's neurons |
| Network.MlpParams | nn.py:50-51 | every parameter of every layer is listed |
| Network.MlpParamsFrom | nn.py:50-51 | every listed value is a parameter of one of the layers |
| Network.WeightedSum | nn.py:12 | the fold over `zip(weights, x)` only appends nodes; with no pairs it is the bias itself |
| Network.WeightedSumValue | nn.py:12 | the fold's node holds the bias plus `sum wi * xi` over the pairs `zip` yields, truncated to the shorter list |
| Network.NeuronCall | nn.py:10-15 | a neuron's call appends nodes only, ending in a `tanh` node |
| Network.NeuronCallValue | nn.py:10-15 | the neuron's output node holds `tanh(b + sum wi * xi)` |
| Network.FireAll | nn.py:26 | `[n(x) for n in neurons]` gives one output node per neuron |
| Network.FireAllValues | nn.py:26 | output `j` holds what neuron `j` computes on the layer's input |
| Network.Unwrap | nn.py:27 | a single output is returned bare, and any other number of outputs as the list of references to them, in order |
| Network.LayerCall | nn.py:25-27 | a layer's call only appends nodes, and its output refers to nodes of the grown arena |
| Network.LayerCallSound | nn.py:25-27 | the layer's graph computes the layer's function on reals; both fail, with `NotIterable`, exactly when a bare value reaches a layer with neurons |
| Network.UnwrapReads | nn.py:27 | a one-neuron layer returns its single output bare, any other layer the list of outputs in neuron order |
| Network.MlpCall | nn.py:45-48 | a perceptron's call only appends nodes, and its output refers to nodes of the grown arena |
| Network.MlpCallSound | nn.py:45-48 | the perceptron's graph computes the composition of its layers' functions, and fails exactly when that does |
| Network.LayerEvalExtends | nn.py:25-27 | growing the arena with new nodes does not change what a layer computes |
| Network.MlpEvalExtends | nn.py:45-48 | growing the arena with new nodes does not change what a perceptron computes |
| Training.ParamsIn | nn.py:50-51 | every parameter a perceptron lists is a node of the arena |
| Training.Predict | nn.py:58 | one prediction per input, in order, each a value or list in the grown arena |
| Training.PredictFails | nn.py:58 | predicting fails, with `NotIterable`, exactly when the perceptron fails on some input |
| Training.PredictValues | nn.py:58 | prediction `i` reads as the perceptron's function on input `i` |
| Training.LossFrom | nn.py:59 | every further `+` of the running sum only appends nodes, and the sum is a node of the grown arena |
| Training.Loss | nn.py:59 | building the loss only appends nodes, and the loss is a node of the grown arena |
| Training.Forward | nn.py:58-59 | predictions and loss together only append nodes, and the loss is a node of the grown arena |
| Training.Residual | nn.py:59 | `(predic - actual) ** 2` fails exactly for a list prediction; otherwise its node holds the squared error |
| Training.LossFromFails | nn.py:59 | the running sum fails exactly when some prediction that `zip` pairs is a list |
| Training.LossFromValue | nn.py:59 | the running sum's node holds the start value plus the squared errors of the pairs `zip` yields |
| Training.LossFails | nn.py:59 | the loss fails exactly when `zip` yields no pair (a bare `0`) or a paired prediction is a list |
| Training.LossValue | nn.py:59 | the loss node holds the sum of squared errors, `sum` starting from 0 via `__radd__` |
| Training.SumSquaresNonNegative | nn.py:59 | the squared error is never negative |
| Training.ForwardFails | nn.py:58-59 | the forward part of an epoch fails exactly when an input breaks the perceptron, when there are no inputs or targets, or when a paired output is a list, with the matching error |
| Training.ForwardLoss | nn.py:58-59 | the loss node holds the squared error of the perceptron's outputs against the targets, and it is not negative |
| Training.ZeroGrad | nn.py:62-63 | `zero_grad` sets the listed slots to 0 and leaves every other slot as it was |
| Training.Cleared | nn.py:62-63 | `backward` starts from 0 for parameters and for nodes this epoch created, and the old slot for the rest |
| Training.Nudge | nn.py:70 | the update steps against the gradient: down for a positive gradient, up for a negative one, not at all for zero |
| Training.Descend | nn.py:69-70 | the update changes only `data`: a parameter moves by `-0.1 * gradient` once per time it is listed, and every other node stays |
| Training.OccurrencesCount | nn.py:69 | a slot not in the list is moved zero times; a slot of a duplicate-free list once |
| Training.Epoch | nn.py:57-70 | a successful epoch leaves a well-formed arena, at least as large as before, with a gradient slot per node; what it does to values and gradients is stated by `Training.EpochStep`, `Training.EpochFrame`, `Training.EpochUnreached` and `Confinement.EpochIgnoresStaleGradients` |
| Training.EpochFrame | nn.py:69-70 | an epoch changes nothing in the old arena but the parameters' `data`; every node keeps its operation |
| Training.EpochStep | nn.py:62-70 | with each parameter listed once, each parameter moves to `data - 0.1 * gradient`, with the gradient `backward` found |
| Training.EpochUnreached | nn.py:62-70 | a parameter the loss does not depend on ends with gradient 0 and keeps its value |
| Confinement.ForwardConfined | nn.py:58-59 | every node the forward pass creates uses only parameters and other new nodes |
| Confinement.ConfinedReach | nn.py:66 | what the loss reaches is parameters and this epoch's nodes only |
| Confinement.MlpAmongParams | nn.py:50-51 | every weight and bias of the perceptron is among its parameters |
| Confinement.StaleBackward | nn.py:62-66 | `backward` from the loss gives the same parameter and new-node gradients whatever stale gradients the old arena holds |
| Confinement.DescendReadsParams | nn.py:69-70 | the update reads only the parameters' gradients |
| Confinement.EpochIgnoresStaleGradients | nn.py:62-70 | gradients left over from earlier epochs change neither the outcome of an epoch nor the new parameters, nor any gradient of a parameter or new node |

## Left out

- `Value.exp` (value.py:75-84) is not modelled. Its step reads `self.grad` and `out.grad`, which do not exist (the field is `gradient`), so it fails whenever it runs. The exponential also has no exact counterpart on `real`.
- Floating point: the model computes on exact reals. It leaves out rounding, infinities, NaN and float overflow.
- RecursionError: `build_topo` (value.py:91-98) nests one call per node along the longest operand path. Each `+` of the loss sum (nn.py:59) and of a neuron's weighted sum (nn.py:12) adds a level, so a loss over about a thousand pairs, or a neuron with about a thousand inputs, exceeds Python's default recursion limit. The model has no call-depth limit.
- Backprop.Backward: fails only on `0 ** negative`; it never returns the RecursionError that `build_topo` raises on a deep graph.
- Training.ForwardFails: does not include the OverflowError that `exp(2 * x)` raises inside `tanh` (value.py:65) for a large activation, because `tanh` is an exact parameter here.
- Training.LossFails: does not include the OverflowError that a float `** 2` raises when the squared error is out of range (nn.py:59).
- Training.Epoch: an epoch that fails is `Err` with no resulting state. In Python, by then `zero_grad` (nn.py:62-63) has already reset the parameters' gradients, and a ZeroDivisionError in the middle of the reverse loop (value.py:104-105) leaves the earlier steps applied.
- Operators.Tanh: the node holds `tanh(x)` for the parameter `tanh`, not the `exp`-based formula of value.py:65.
- Operators.Pow: a non-integer real exponent returns `Err(NonIntegerExponent)`, whereas Python computes a float (or a complex number for a negative base).
- Network.NewNeuron: the random draws are the parameter `draw`, not `random.uniform(-1, 1)`.
- `label`, `_operation` and `__repr__` (value.py:8-9, 13-14) are diagnostics with no effect on values or gradients.
- The `print` of the loss (nn.py:72) and the loop over `epochs` (nn.py:55). `Training.Epoch` is one pass of the loop body. Several epochs are repeated calls that carry the `Session` along.
- `visualiser.py` (commented out, uses graphviz) and `main.py` (a driver script with literal data) are not part of this model.
- Python object identity: the model tracks nodes by arena index. The source's `visited` set and `_prev` hash objects the same way.
