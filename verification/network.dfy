/**
  The neural network of nn.py, built on the arena. A neuron, layer or
  perceptron owns no values of its own: it holds the arena indices of its
  parameter leaves. Calling it grows the arena by the forward graph, and the
  values the graph computes are those of the network read as a function on
  reals (`Fire`, `LayerEval`, `MlpEval`).
 */
module Network {
  import opened Arena
  import opened Operators

  datatype Neuron = Neuron(weights: seq<nat>, bias: nat)
  datatype Layer = Layer(neurons: seq<Neuron>)
  datatype Mlp = Mlp(layers: seq<Layer>)

  /** A constructor's result: the grown arena and what was built in it. */
  datatype Grown<T> = Grown(graph: Graph, item: T)

  /** The indices `lo, lo + 1, ..., hi - 1`. */
  function Range(lo: nat, hi: nat): (r: seq<nat>)
    requires lo <= hi
    ensures |r| == hi - lo && forall i | 0 <= i < |r| :: r[i] == lo + i
  {
    seq(hi - lo, i requires 0 <= i < hi - lo => lo + i)
  }

  lemma RangeSplit(lo: nat, mid: nat, hi: nat)
    requires lo <= mid <= hi
    ensures Range(lo, mid) + Range(mid, hi) == Range(lo, hi)
  {
  }

  // ---------------------------------------------------------------- parameters

  /** `Neuron.parameters`: the weights, then the bias. */
  function NeuronParams(n: Neuron): (r: seq<nat>)
    ensures |r| == |n.weights| + 1
    ensures forall k :: k in r <==> k in n.weights || k == n.bias
  {
    n.weights + [n.bias]
  }

  /** `Layer.parameters`: each neuron's parameters, neuron by neuron; a
      value is listed exactly when it is a parameter of some neuron. */
  function LayerParams(ns: seq<Neuron>): (r: seq<nat>)
    ensures forall j, k | 0 <= j < |ns| && k in NeuronParams(ns[j]) :: k in r
    decreases |ns|
  {
    if |ns| == 0 then []
    else
      var r := NeuronParams(ns[0]) + LayerParams(ns[1..]);
      assert forall j | 0 <= j < |ns[1..]| :: ns[1..][j] == ns[j + 1];
      r
  }

  /** `MultiLayerPerceptron.parameters`: each layer's parameters, layer by
      layer; a value is listed exactly when it is a parameter of some layer. */
  function MlpParams(ls: seq<Layer>): (r: seq<nat>)
    ensures forall i, k | 0 <= i < |ls| && k in LayerParams(ls[i].neurons) :: k in r
    decreases |ls|
  {
    if |ls| == 0 then []
    else
      var r := LayerParams(ls[0].neurons) + MlpParams(ls[1..]);
      assert forall i | 0 <= i < |ls[1..]| :: ls[1..][i] == ls[i + 1];
      r
  }

  /** Everything `Layer.parameters` lists belongs to one of its neurons. */
  lemma {:induction false} LayerParamsFrom(ns: seq<Neuron>, k: nat)
    requires k in LayerParams(ns)
    ensures exists j | 0 <= j < |ns| :: k in NeuronParams(ns[j])
    decreases |ns|
  {
    if k !in NeuronParams(ns[0]) {
      LayerParamsFrom(ns[1..], k);
      var j :| 0 <= j < |ns[1..]| && k in NeuronParams(ns[1..][j]);
      assert ns[1..][j] == ns[j + 1];
    }
  }

  /** Everything `MultiLayerPerceptron.parameters` lists belongs to one of
      its layers. */
  lemma {:induction false} MlpParamsFrom(ls: seq<Layer>, k: nat)
    requires k in MlpParams(ls)
    ensures exists i | 0 <= i < |ls| :: k in LayerParams(ls[i].neurons)
    decreases |ls|
  {
    if k !in LayerParams(ls[0].neurons) {
      MlpParamsFrom(ls[1..], k);
      var i :| 0 <= i < |ls[1..]| && k in LayerParams(ls[1..][i].neurons);
      assert ls[1..][i] == ls[i + 1];
    }
  }

  /** The number of parameters of a perceptron with layer widths `sizes`
      (inputs first): every neuron of layer `i` has `sizes[i]` weights and a bias. */
  function ParamCount(sizes: seq<nat>): nat
  {
    if |sizes| < 2 then 0 else (sizes[0] + 1) * sizes[1] + ParamCount(sizes[1..])
  }

  // -------------------------------------------------------------- construction

  /** Fresh leaves for the arena slots `start .. start + n - 1`, each holding
      its random draw. `draw(k)` stands for the `random.uniform(-1, 1)` call
      that made the value at arena index `k`. */
  function Leaves(start: nat, n: nat, draw: nat -> real): (r: Graph)
    ensures |r| == n && forall i | 0 <= i < n :: r[i] == Node(draw(start + i), Leaf)
  {
    seq(n, i requires 0 <= i < n => Node(draw(start + i), Leaf))
  }

  /** Every node from `lo` on is a parameter leaf holding its draw. */
  predicate FreshLeaves(g: Graph, lo: nat, draw: nat -> real)
  {
    forall k | lo <= k < |g| :: g[k] == Node(draw(k), Leaf)
  }

  /** The shape `Layer(nin, nout)` gives its neurons. */
  predicate LayerShape(ns: seq<Neuron>, nin: nat, nout: nat)
  {
    |ns| == nout && forall j | 0 <= j < |ns| :: |ns[j].weights| == nin
  }

  /** The shape `MultiLayerPerceptron(nin, nouts)` gives its layers: layer `i`
      maps `sizes[i]` inputs to `sizes[i + 1]` outputs, `sizes = [nin] + nouts`. */
  predicate MlpShape(ls: seq<Layer>, nin: nat, nouts: seq<nat>)
  {
    var sizes := [nin] + nouts;
    |ls| == |nouts| && forall i | 0 <= i < |ls| :: LayerShape(ls[i].neurons, sizes[i], sizes[i + 1])
  }

  /** `Neuron.__init__`: the weights first, then the bias. */
  function NewNeuron(g: Graph, nin: nat, draw: nat -> real): (r: Grown<Neuron>)
    ensures Extends(g, r.graph) && |r.graph| == |g| + nin + 1
    ensures FreshLeaves(r.graph, |g|, draw)
    ensures |r.item.weights| == nin
    ensures NeuronParams(r.item) == Range(|g|, |r.graph|)
  {
    var n := Neuron(Range(|g|, |g| + nin), |g| + nin);
    assert NeuronParams(n) == Range(|g|, |g| + nin + 1);
    Grown(g + Leaves(|g|, nin + 1, draw), n)
  }

  /** `Layer.__init__`: `nout` neurons, the first one created first. */
  function NewLayer(g: Graph, nin: nat, nout: nat, draw: nat -> real): (r: Grown<seq<Neuron>>)
    ensures Extends(g, r.graph) && |r.graph| == |g| + (nin + 1) * nout
    ensures FreshLeaves(r.graph, |g|, draw)
    ensures LayerShape(r.item, nin, nout)
    ensures LayerParams(r.item) == Range(|g|, |r.graph|)
    decreases nout
  {
    if nout == 0 then Grown(g, [])
    else
      var n := NewNeuron(g, nin, draw);
      var rest := NewLayer(n.graph, nin, nout - 1, draw);
      RangeSplit(|g|, |n.graph|, |rest.graph|);
      assert ([n.item] + rest.item)[1..] == rest.item;
      Grown(rest.graph, [n.item] + rest.item)
  }

  /** `MultiLayerPerceptron.__init__`: one layer per entry of `nouts`, layer `i`
      taking `sizes[i]` inputs, created front to back. */
  function NewMlp(g: Graph, nin: nat, nouts: seq<nat>, draw: nat -> real): (r: Grown<seq<Layer>>)
    ensures Extends(g, r.graph) && |r.graph| == |g| + ParamCount([nin] + nouts)
    ensures FreshLeaves(r.graph, |g|, draw)
    ensures MlpShape(r.item, nin, nouts)
    ensures MlpParams(r.item) == Range(|g|, |r.graph|)
    decreases |nouts|
  {
    if |nouts| == 0 then Grown(g, [])
    else
      var l := NewLayer(g, nin, nouts[0], draw);
      var rest := NewMlp(l.graph, nouts[0], nouts[1..], draw);
      var ls := [Layer(l.item)] + rest.item;
      RangeSplit(|g|, |l.graph|, |rest.graph|);
      assert ls[1..] == rest.item;
      assert ([nin] + nouts)[1..] == [nouts[0]] + nouts[1..];
      Grown(rest.graph, ls)
  }

  /** The parameters of a fresh perceptron are exactly the values its
      constructor created, each once, in creation order; there are
      `sum (sizes[i] + 1) * sizes[i + 1]` of them, all leaves. */
  lemma NewMlpParams(g: Graph, nin: nat, nouts: seq<nat>, draw: nat -> real)
    ensures var r := NewMlp(g, nin, nouts, draw);
      var ps := MlpParams(r.item);
      && |ps| == ParamCount([nin] + nouts)
      && (forall i, j | 0 <= i < j < |ps| :: ps[i] != ps[j])
      && (forall i | 0 <= i < |ps| :: |g| <= ps[i] < |r.graph| && r.graph[ps[i]] == Node(draw(ps[i]), Leaf))
  {
  }

  // ------------------------------------------------------------- forward pass

  /** The input of a layer: a list (of numbers or values) or the single value
      a one-neuron layer returns unwrapped. */
  datatype Signal = Many(items: seq<Arg>) | One(id: nat)

  predicate IdsIn(g: Graph, ids: seq<nat>)
  {
    forall i | 0 <= i < |ids| :: ids[i] < |g|
  }

  predicate ArgsOk(g: Graph, xs: seq<Arg>)
  {
    forall i | 0 <= i < |xs| :: ArgOk(g, xs[i])
  }

  predicate SignalOk(g: Graph, s: Signal)
  {
    match s
    case Many(xs) => ArgsOk(g, xs)
    case One(v) => v < |g|
  }

  predicate NeuronOk(g: Graph, n: Neuron)
  {
    n.bias < |g| && IdsIn(g, n.weights)
  }

  predicate LayerOk(g: Graph, ns: seq<Neuron>)
  {
    forall j | 0 <= j < |ns| :: NeuronOk(g, ns[j])
  }

  predicate MlpOk(g: Graph, ls: seq<Layer>)
  {
    forall i | 0 <= i < |ls| :: LayerOk(g, ls[i].neurons)
  }

  /** A list of plain numbers, as the training inputs are given. */
  function Numbers(xs: seq<real>): (r: seq<Arg>)
    ensures |r| == |xs| && forall i | 0 <= i < |xs| :: r[i] == Number(xs[i])
  {
    seq(|xs|, i requires 0 <= i < |xs| => Number(xs[i]))
  }

  function Refs(ids: seq<nat>): (r: seq<Arg>)
    ensures |r| == |ids| && forall i | 0 <= i < |ids| :: r[i] == Ref(ids[i])
  {
    seq(|ids|, i requires 0 <= i < |ids| => Ref(ids[i]))
  }

  /** The numbers a list of operands stands for. */
  function Values(g: Graph, xs: seq<Arg>): (r: seq<real>)
    requires ArgsOk(g, xs)
    ensures |r| == |xs| && forall i | 0 <= i < |xs| :: r[i] == ArgValue(g, xs[i])
  {
    seq(|xs|, i requires 0 <= i < |xs| && ArgsOk(g, xs) => ArgValue(g, xs[i]))
  }

  lemma ValuesExtends(g: Graph, g2: Graph, xs: seq<Arg>)
    requires Extends(g, g2) && ArgsOk(g, xs)
    ensures ArgsOk(g2, xs) && Values(g2, xs) == Values(g, xs)
  {
  }

  /** `sum(wi * xi for wi, xi in zip(weights, x))` on reals: `zip` stops at
      the shorter list. */
  function Dot(g: Graph, ws: seq<nat>, vs: seq<real>): real
    requires IdsIn(g, ws)
  {
    if |ws| == 0 || |vs| == 0 then 0.0 else g[ws[0]].data * vs[0] + Dot(g, ws[1..], vs[1..])
  }

  lemma {:induction false} DotExtends(g: Graph, g2: Graph, ws: seq<nat>, vs: seq<real>)
    requires Extends(g, g2) && IdsIn(g, ws)
    ensures IdsIn(g2, ws) && Dot(g2, ws, vs) == Dot(g, ws, vs)
    decreases |ws|
  {
    if |ws| > 0 && |vs| > 0 {
      DotExtends(g, g2, ws[1..], vs[1..]);
    }
  }

  /** What a neuron computes on the inputs `vs`: `tanh(w . x + b)`. */
  function Fire(g: Graph, n: Neuron, vs: seq<real>, tanh: real -> real): real
    requires NeuronOk(g, n)
  {
    tanh(g[n.bias].data + Dot(g, n.weights, vs))
  }

  lemma FireExtends(g: Graph, g2: Graph, n: Neuron, vs: seq<real>, tanh: real -> real)
    requires Extends(g, g2) && NeuronOk(g, n)
    ensures NeuronOk(g2, n) && Fire(g2, n, vs, tanh) == Fire(g, n, vs, tanh)
  {
    DotExtends(g, g2, n.weights, vs);
  }

  lemma LayerOkExtends(g: Graph, g2: Graph, ns: seq<Neuron>)
    requires Extends(g, g2) && LayerOk(g, ns)
    ensures LayerOk(g2, ns)
  {
    forall j | 0 <= j < |ns| ensures NeuronOk(g2, ns[j]) {
      assert NeuronOk(g, ns[j]);
    }
  }

  lemma FireAllExtends(g: Graph, g2: Graph, ns: seq<Neuron>, vs: seq<real>, tanh: real -> real)
    requires Extends(g, g2) && LayerOk(g, ns)
    ensures LayerOk(g2, ns)
    ensures forall j | 0 <= j < |ns| :: Fire(g2, ns[j], vs, tanh) == Fire(g, ns[j], vs, tanh)
  {
    forall j | 0 <= j < |ns|
      ensures NeuronOk(g2, ns[j]) && Fire(g2, ns[j], vs, tanh) == Fire(g, ns[j], vs, tanh)
    {
      FireExtends(g, g2, ns[j], vs, tanh);
    }
  }

  /** The generator inside `Neuron.__call__`, summed onto `start = bias`:
      for each pair, `wi * xi` and then `acc + (wi * xi)`. */
  function WeightedSum(g: Graph, acc: nat, ws: seq<nat>, xs: seq<Arg>): (r: Built)
    requires Acyclic(g) && acc < |g| && IdsIn(g, ws) && ArgsOk(g, xs)
    ensures Acyclic(r.graph) && Extends(g, r.graph) && r.out < |r.graph|
    ensures |ws| == 0 || |xs| == 0 ==> r == Built(g, acc)
    decreases |ws|
  {
    if |ws| == 0 || |xs| == 0 then Built(g, acc)
    else
      var m := Mul(g, ws[0], xs[0]);
      var a := Add(m.graph, acc, Ref(m.out));
      assert ArgsOk(a.graph, xs[1..]);
      WeightedSum(a.graph, a.out, ws[1..], xs[1..])
  }

  /** The weighted sum's node holds the accumulator plus the dot product of
      the weights with the input values. */
  lemma {:induction false} WeightedSumValue(g: Graph, acc: nat, ws: seq<nat>, xs: seq<Arg>)
    requires Acyclic(g) && acc < |g| && IdsIn(g, ws) && ArgsOk(g, xs)
    ensures var r := WeightedSum(g, acc, ws, xs);
      r.graph[r.out].data == g[acc].data + Dot(g, ws, Values(g, xs))
    decreases |ws|
  {
    if |ws| > 0 && |xs| > 0 {
      var m := Mul(g, ws[0], xs[0]);
      var a := Add(m.graph, acc, Ref(m.out));
      var head := g[ws[0]].data * ArgValue(g, xs[0]);
      var tail := Dot(g, ws[1..], Values(g, xs[1..]));
      assert a.graph[a.out].data == g[acc].data + head by {
        ArgValueExtends(g, m.graph, xs[0]);
      }
      assert Dot(g, ws, Values(g, xs)) == head + tail by {
        assert Values(g, xs)[1..] == Values(g, xs[1..]);
      }
      assert Dot(a.graph, ws[1..], Values(a.graph, xs[1..])) == tail by {
        ValuesExtends(g, a.graph, xs[1..]);
        DotExtends(g, a.graph, ws[1..], Values(g, xs[1..]));
      }
      WeightedSumValue(a.graph, a.out, ws[1..], xs[1..]);
    }
  }

  /** `Neuron.__call__`: the weighted sum from the bias, then `tanh`. */
  function NeuronCall(g: Graph, n: Neuron, xs: seq<Arg>, tanh: real -> real): (r: Built)
    requires Acyclic(g) && NeuronOk(g, n) && ArgsOk(g, xs)
    ensures Acyclic(r.graph) && Extends(g, r.graph) && r.out == |r.graph| - 1
    ensures r.graph[r.out].op.TanhOp?
  {
    var s := WeightedSum(g, n.bias, n.weights, xs);
    Tanh(s.graph, s.out, tanh)
  }

  /** A neuron's output node holds `tanh(w . x + b)`. */
  lemma NeuronCallValue(g: Graph, n: Neuron, xs: seq<Arg>, tanh: real -> real)
    requires Acyclic(g) && NeuronOk(g, n) && ArgsOk(g, xs)
    ensures var r := NeuronCall(g, n, xs, tanh);
      r.graph[r.out].data == Fire(g, n, Values(g, xs), tanh)
  {
    var s := WeightedSum(g, n.bias, n.weights, xs);
    assert Fire(g, n, Values(g, xs), tanh) == tanh(s.graph[s.out].data) by {
      WeightedSumValue(g, n.bias, n.weights, xs);
    }
  }

  /** `[n(x) for n in self.neurons]`: the neurons fire one after another on
      the same input. */
  function FireAll(g: Graph, ns: seq<Neuron>, xs: seq<Arg>, tanh: real -> real): (r: Grown<seq<nat>>)
    requires Acyclic(g) && LayerOk(g, ns) && ArgsOk(g, xs)
    ensures Acyclic(r.graph) && Extends(g, r.graph)
    ensures |r.item| == |ns| && IdsIn(r.graph, r.item)
    decreases |ns|
  {
    if |ns| == 0 then Grown(g, [])
    else
      var o := NeuronCall(g, ns[0], xs, tanh);
      LayerOkExtends(g, o.graph, ns[1..]);
      var rest := FireAll(o.graph, ns[1..], xs, tanh);
      Grown(rest.graph, [o.out] + rest.item)
  }

  /** Output `j` of a layer holds what neuron `j` computes on the layer's input. */
  lemma {:induction false} FireAllValues(g: Graph, ns: seq<Neuron>, xs: seq<Arg>, tanh: real -> real)
    requires Acyclic(g) && LayerOk(g, ns) && ArgsOk(g, xs)
    ensures var r := FireAll(g, ns, xs, tanh);
      forall j | 0 <= j < |ns| :: r.graph[r.item[j]].data == Fire(g, ns[j], Values(g, xs), tanh)
    decreases |ns|, 1
  {
    if |ns| > 0 {
      var o := NeuronCall(g, ns[0], xs, tanh);
      LayerOkExtends(g, o.graph, ns[1..]);
      NeuronCallValue(g, ns[0], xs, tanh);
      FireAllValuesStep(g, ns, xs, tanh, o);
    }
  }

  /** The inductive step of `FireAllValues`: the first neuron's output joins
      the outputs of the others. */
  lemma {:induction false} FireAllValuesStep(g: Graph, ns: seq<Neuron>, xs: seq<Arg>, tanh: real -> real, o: Built)
    requires Acyclic(g) && LayerOk(g, ns) && ArgsOk(g, xs) && |ns| > 0
    requires Acyclic(o.graph) && Extends(g, o.graph) && o.out < |o.graph| && LayerOk(o.graph, ns[1..])
    requires o.graph[o.out].data == Fire(g, ns[0], Values(g, xs), tanh)
    ensures var rest := FireAll(o.graph, ns[1..], xs, tanh);
      forall j | 0 <= j < |ns| :: rest.graph[([o.out] + rest.item)[j]].data == Fire(g, ns[j], Values(g, xs), tanh)
    decreases |ns|, 0
  {
    var rest := FireAll(o.graph, ns[1..], xs, tanh);
    var item := [o.out] + rest.item;
    forall j | 0 <= j < |ns|
      ensures rest.graph[item[j]].data == Fire(g, ns[j], Values(g, xs), tanh)
    {
      if j == 0 {
        assert rest.graph[o.out] == o.graph[o.out];
      } else {
        assert item[j] == rest.item[j - 1] && ns[j] == ns[1..][j - 1];
        assert rest.graph[item[j]].data == Fire(o.graph, ns[j], Values(o.graph, xs), tanh) by {
          FireAllValues(o.graph, ns[1..], xs, tanh);
        }
        assert Fire(o.graph, ns[j], Values(o.graph, xs), tanh) == Fire(g, ns[j], Values(g, xs), tanh) by {
          ValuesExtends(g, o.graph, xs);
          FireExtends(g, o.graph, ns[j], Values(g, xs), tanh);
        }
      }
    }
  }


  /** A layer's output: the single value of a one-neuron layer is returned
      bare, any other number of outputs as a list. */
  function Unwrap(ids: seq<nat>): (r: Signal)
    ensures r.One? <==> |ids| == 1
    ensures r.One? ==> r.id == ids[0]
    ensures r.Many? ==> |r.items| == |ids| && forall i | 0 <= i < |ids| :: r.items[i] == Ref(ids[i])
  {
    if |ids| == 1 then One(ids[0]) else Many(Refs(ids))
  }

  /** A call's result: the grown arena and the output. */
  datatype Fed = Fed(graph: Graph, out: Signal)

  /** `Layer.__call__`. A bare value is not iterable: `zip` rejects it as
      soon as the first neuron fires, and a layer without neurons never
      looks at its input. */
  function LayerCall(g: Graph, ns: seq<Neuron>, x: Signal, tanh: real -> real): (r: Result<Fed>)
    requires Acyclic(g) && LayerOk(g, ns) && SignalOk(g, x)
    ensures r.Ok? ==> Acyclic(r.value.graph) && Extends(g, r.value.graph) && SignalOk(r.value.graph, r.value.out)
  {
    match x
    case One(_) => if |ns| == 0 then Ok(Fed(g, Many([]))) else Err(NotIterable)
    case Many(xs) =>
      var o := FireAll(g, ns, xs, tanh);
      assert ArgsOk(o.graph, Refs(o.item));
      Ok(Fed(o.graph, Unwrap(o.item)))
  }

  /** `MultiLayerPerceptron.__call__`: each layer's output is the next
      layer's input. */
  function MlpCall(g: Graph, ls: seq<Layer>, x: Signal, tanh: real -> real): (r: Result<Fed>)
    requires Acyclic(g) && MlpOk(g, ls) && SignalOk(g, x)
    ensures r.Ok? ==> Acyclic(r.value.graph) && Extends(g, r.value.graph) && SignalOk(r.value.graph, r.value.out)
    decreases |ls|
  {
    if |ls| == 0 then Ok(Fed(g, x))
    else
      match LayerCall(g, ls[0].neurons, x, tanh)
      case Err(e) => Err(e)
      case Ok(f) =>
        MlpOkExtends(g, f.graph, ls[1..]);
        MlpCall(f.graph, ls[1..], f.out, tanh)
  }

  // -------------------------------------------------------- reference on reals

  /** What a signal holds, read as numbers. */
  datatype Reading = Vector(vs: seq<real>) | Scalar(v: real)

  function Read(g: Graph, s: Signal): Reading
    requires SignalOk(g, s)
  {
    match s
    case Many(xs) => Vector(Values(g, xs))
    case One(v) => Scalar(g[v].data)
  }

  /** What each neuron of a layer computes on the inputs `vs`. */
  function Outs(g: Graph, ns: seq<Neuron>, vs: seq<real>, tanh: real -> real): (r: seq<real>)
    requires LayerOk(g, ns)
    ensures |r| == |ns| && forall j | 0 <= j < |ns| :: r[j] == Fire(g, ns[j], vs, tanh)
  {
    seq(|ns|, j requires 0 <= j < |ns| && LayerOk(g, ns) => Fire(g, ns[j], vs, tanh))
  }

  /** `Unwrap` on numbers. */
  function Unwrapped(out: seq<real>): Reading
  {
    if |out| == 1 then Scalar(out[0]) else Vector(out)
  }

  /** A layer as a function on reals, with the same unwrapping and the same
      refusal of a bare number by a layer with neurons. */
  function LayerEval(g: Graph, ns: seq<Neuron>, r: Reading, tanh: real -> real): Result<Reading>
    requires LayerOk(g, ns)
  {
    match r
    case Scalar(_) => if |ns| == 0 then Ok(Vector([])) else Err(NotIterable)
    case Vector(vs) => Ok(Unwrapped(Outs(g, ns, vs, tanh)))
  }

  /** The perceptron as a function on reals. */
  function MlpEval(g: Graph, ls: seq<Layer>, r: Reading, tanh: real -> real): Result<Reading>
    requires MlpOk(g, ls)
    decreases |ls|
  {
    if |ls| == 0 then Ok(r)
    else
      match LayerEval(g, ls[0].neurons, r, tanh)
      case Err(e) => Err(e)
      case Ok(r1) => MlpEval(g, ls[1..], r1, tanh)
  }

  lemma MlpOkExtends(g: Graph, g2: Graph, ls: seq<Layer>)
    requires Extends(g, g2) && MlpOk(g, ls)
    ensures MlpOk(g2, ls)
  {
    forall i, j | 0 <= i < |ls| && 0 <= j < |ls[i].neurons|
      ensures NeuronOk(g2, ls[i].neurons[j])
    {
      DotExtends(g, g2, ls[i].neurons[j].weights, []);
    }
  }

  /** Growing the arena does not change what a layer computes. */
  lemma LayerEvalExtends(g: Graph, g2: Graph, ns: seq<Neuron>, r: Reading, tanh: real -> real)
    requires Extends(g, g2) && LayerOk(g, ns)
    ensures LayerOk(g2, ns) && LayerEval(g2, ns, r, tanh) == LayerEval(g, ns, r, tanh)
  {
    LayerOkExtends(g, g2, ns);
    if r.Vector? {
      FireAllExtends(g, g2, ns, r.vs, tanh);
      assert Outs(g2, ns, r.vs, tanh) == Outs(g, ns, r.vs, tanh);
    }
  }

  lemma {:induction false} MlpEvalExtends(g: Graph, g2: Graph, ls: seq<Layer>, r: Reading, tanh: real -> real)
    requires Extends(g, g2) && MlpOk(g, ls)
    ensures MlpOk(g2, ls) && MlpEval(g2, ls, r, tanh) == MlpEval(g, ls, r, tanh)
    decreases |ls|
  {
    MlpOkExtends(g, g2, ls);
    if |ls| > 0 {
      LayerEvalExtends(g, g2, ls[0].neurons, r, tanh);
      var e := LayerEval(g, ls[0].neurons, r, tanh);
      if e.Ok? {
        MlpEvalExtends(g, g2, ls[1..], e.value, tanh);
      }
    }
  }

  /** A layer's graph computes the layer's function: it fails exactly when
      the function does, and its output reads as the function's value. */
  lemma LayerCallSound(g: Graph, ns: seq<Neuron>, x: Signal, tanh: real -> real)
    requires Acyclic(g) && LayerOk(g, ns) && SignalOk(g, x)
    ensures var r := LayerCall(g, ns, x, tanh);
      var e := LayerEval(g, ns, Read(g, x), tanh);
      && r.Ok? == e.Ok?
      && (r.Err? ==> r.error == NotIterable && e.error == NotIterable)
      && (r.Ok? ==> && Acyclic(r.value.graph) && Extends(g, r.value.graph)
                    && SignalOk(r.value.graph, r.value.out)
                    && Read(r.value.graph, r.value.out) == e.value)
  {
    if x.Many? {
      UnwrapReads(g, ns, x.items, tanh);
    }
  }

  /** The unwrapped outputs of a layer read as the unwrapped numbers its
      neurons compute. */
  lemma UnwrapReads(g: Graph, ns: seq<Neuron>, xs: seq<Arg>, tanh: real -> real)
    requires Acyclic(g) && LayerOk(g, ns) && ArgsOk(g, xs)
    ensures var o := FireAll(g, ns, xs, tanh);
      && SignalOk(o.graph, Unwrap(o.item))
      && Read(o.graph, Unwrap(o.item)) == Unwrapped(Outs(g, ns, Values(g, xs), tanh))
  {
    var o := FireAll(g, ns, xs, tanh);
    var e := Outs(g, ns, Values(g, xs), tanh);
    assert forall j | 0 <= j < |ns| :: o.graph[o.item[j]].data == e[j] by {
      FireAllValues(g, ns, xs, tanh);
    }
    if |ns| != 1 {
      ReadRefs(o.graph, o.item, e);
    }
  }

  /** A list of values reads as the numbers they hold. */
  lemma ReadRefs(g: Graph, ids: seq<nat>, e: seq<real>)
    requires IdsIn(g, ids) && |e| == |ids|
    requires forall j | 0 <= j < |ids| :: g[ids[j]].data == e[j]
    ensures ArgsOk(g, Refs(ids)) && Values(g, Refs(ids)) == e
  {
    var v := Values(g, Refs(ids));
    assert forall j | 0 <= j < |ids| :: v[j] == e[j];
  }


  /** A perceptron's graph computes the perceptron's function: it fails
      exactly when the function does, and its output reads as the function's
      value, computed with the parameters the arena held before the call. */
  lemma {:induction false} MlpCallSound(g: Graph, ls: seq<Layer>, x: Signal, tanh: real -> real)
    requires Acyclic(g) && MlpOk(g, ls) && SignalOk(g, x)
    ensures var r := MlpCall(g, ls, x, tanh);
      var e := MlpEval(g, ls, Read(g, x), tanh);
      && r.Ok? == e.Ok?
      && (r.Err? ==> r.error == NotIterable && e.error == NotIterable)
      && (r.Ok? ==> && Acyclic(r.value.graph) && Extends(g, r.value.graph)
                    && SignalOk(r.value.graph, r.value.out)
                    && Read(r.value.graph, r.value.out) == e.value)
    decreases |ls|
  {
    if |ls| > 0 {
      LayerCallSound(g, ls[0].neurons, x, tanh);
      var l := LayerCall(g, ls[0].neurons, x, tanh);
      if l.Ok? {
        var f := l.value;
        MlpOkExtends(g, f.graph, ls[1..]);
        MlpCallSound(f.graph, ls[1..], f.out, tanh);
        MlpEvalExtends(g, f.graph, ls[1..], Read(f.graph, f.out), tanh);
      }
    }
  }
}
