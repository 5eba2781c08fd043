/**
  Why `train` zeroes the gradients before `backward`, and why that is enough.

  The forward pass of an epoch builds new values out of the parameters,
  the input numbers and each other, and of nothing else in the arena. So
  everything the loss reaches is a parameter or a value of this epoch, and
  `backward` (which only reads the slots of reachable values) sees only
  slots that were just set to 0: gradients left over from earlier epochs
  cannot leak into this epoch's update.
 */
module Confinement {
  import opened Arena
  import opened Operators
  import opened TopoSort
  import opened Backprop
  import opened Gradients
  import opened Network
  import opened Training

  /** A node an epoch's new values may use: a parameter, or a node created
      from `base` on. */
  predicate Within(a: nat, base: nat, ps: seq<nat>)
  {
    a in ps || base <= a
  }

  /** Every node created from `base` on uses only parameters and nodes
      created from `base` on. */
  predicate Confined(g: Graph, base: nat, ps: seq<nat>)
  {
    forall k, a | base <= k < |g| && a in Operands(g[k].op) :: Within(a, base, ps)
  }

  predicate ArgWithin(x: Arg, base: nat, ps: seq<nat>)
  {
    x.Ref? ==> Within(x.id, base, ps)
  }

  predicate ArgsWithin(xs: seq<Arg>, base: nat, ps: seq<nat>)
  {
    forall i | 0 <= i < |xs| :: ArgWithin(xs[i], base, ps)
  }

  predicate SignalWithin(s: Signal, base: nat, ps: seq<nat>)
  {
    match s
    case Many(xs) => ArgsWithin(xs, base, ps)
    case One(v) => Within(v, base, ps)
  }

  /** Every value of the network is among `ps`. */
  predicate NeuronAmong(n: Neuron, ps: seq<nat>)
  {
    n.bias in ps && forall i | 0 <= i < |n.weights| :: n.weights[i] in ps
  }

  predicate LayerAmong(ns: seq<Neuron>, ps: seq<nat>)
  {
    forall j | 0 <= j < |ns| :: NeuronAmong(ns[j], ps)
  }

  predicate MlpAmong(ls: seq<Layer>, ps: seq<nat>)
  {
    forall i | 0 <= i < |ls| :: LayerAmong(ls[i].neurons, ps)
  }

  /** The parameters are leaves of the arena, as the constructor makes them. */
  predicate ParamLeaves(g: Graph, ps: seq<nat>)
  {
    forall p | p in ps :: p < |g| && g[p].op == Leaf
  }

  // ----------------------------------------------------------- the operators

  /** A binary operator keeps the arena confined when both its operands are
      allowed. */
  lemma BinaryConfined(g: Graph, i: nat, other: Arg, r: Built, base: nat, ps: seq<nat>)
    requires Acyclic(g) && i < |g| && ArgOk(g, other) && BinaryShape(g, i, other, r)
    requires Operands(r.graph[r.out].op) == {i, OperandId(g, other)}
    requires Confined(g, base, ps) && base <= |g| && Within(i, base, ps) && ArgWithin(other, base, ps)
    ensures Confined(r.graph, base, ps)
  {
    forall k, a | base <= k < |r.graph| && a in Operands(r.graph[k].op)
      ensures Within(a, base, ps)
    {
      if k < |g| {
        assert r.graph[k] == g[k];
      }
    }
  }

  /** A one-operand node appended on an allowed operand keeps the arena confined. */
  lemma UnaryConfined(g: Graph, h: Graph, i: nat, base: nat, ps: seq<nat>)
    requires Extends(g, h) && |h| == |g| + 1 && Operands(h[|g|].op) == {i}
    requires Confined(g, base, ps) && base <= |g| && Within(i, base, ps)
    ensures Confined(h, base, ps)
  {
    forall k, a | base <= k < |h| && a in Operands(h[k].op)
      ensures Within(a, base, ps)
    {
      if k < |g| {
        assert h[k] == g[k];
      }
    }
  }

  // ------------------------------------------------------------ the network

  lemma {:induction false} WeightedSumConfined(g: Graph, acc: nat, ws: seq<nat>, xs: seq<Arg>, base: nat, ps: seq<nat>)
    requires Acyclic(g) && acc < |g| && IdsIn(g, ws) && ArgsOk(g, xs)
    requires Confined(g, base, ps) && base <= |g| && Within(acc, base, ps)
    requires (forall i | 0 <= i < |ws| :: ws[i] in ps) && ArgsWithin(xs, base, ps)
    ensures var r := WeightedSum(g, acc, ws, xs);
      Confined(r.graph, base, ps) && Within(r.out, base, ps)
    decreases |ws|
  {
    if |ws| > 0 && |xs| > 0 {
      var m := Mul(g, ws[0], xs[0]);
      BinaryConfined(g, ws[0], xs[0], m, base, ps);
      var a := Add(m.graph, acc, Ref(m.out));
      BinaryConfined(m.graph, acc, Ref(m.out), a, base, ps);
      assert ArgsOk(a.graph, xs[1..]);
      WeightedSumConfined(a.graph, a.out, ws[1..], xs[1..], base, ps);
    }
  }

  lemma NeuronCallConfined(g: Graph, n: Neuron, xs: seq<Arg>, tanh: real -> real, base: nat, ps: seq<nat>)
    requires Acyclic(g) && NeuronOk(g, n) && ArgsOk(g, xs)
    requires Confined(g, base, ps) && base <= |g| && NeuronAmong(n, ps) && ArgsWithin(xs, base, ps)
    ensures var r := NeuronCall(g, n, xs, tanh);
      Confined(r.graph, base, ps) && base <= r.out
  {
    WeightedSumConfined(g, n.bias, n.weights, xs, base, ps);
    var s := WeightedSum(g, n.bias, n.weights, xs);
    UnaryConfined(s.graph, Tanh(s.graph, s.out, tanh).graph, s.out, base, ps);
  }

  lemma {:induction false} FireAllConfined(g: Graph, ns: seq<Neuron>, xs: seq<Arg>, tanh: real -> real, base: nat, ps: seq<nat>)
    requires Acyclic(g) && LayerOk(g, ns) && ArgsOk(g, xs)
    requires Confined(g, base, ps) && base <= |g| && LayerAmong(ns, ps) && ArgsWithin(xs, base, ps)
    ensures var r := FireAll(g, ns, xs, tanh);
      Confined(r.graph, base, ps) && forall j | 0 <= j < |r.item| :: base <= r.item[j]
    decreases |ns|, 1
  {
    if |ns| > 0 {
      var o := NeuronCall(g, ns[0], xs, tanh);
      NeuronCallConfined(g, ns[0], xs, tanh, base, ps);
      LayerOkExtends(g, o.graph, ns[1..]);
      FireAllConfinedStep(g, ns, xs, tanh, o, base, ps);
    }
  }

  lemma {:induction false} FireAllConfinedStep(g: Graph, ns: seq<Neuron>, xs: seq<Arg>, tanh: real -> real, o: Built, base: nat, ps: seq<nat>)
    requires |ns| > 0 && ArgsOk(g, xs) && LayerAmong(ns, ps) && ArgsWithin(xs, base, ps)
    requires Acyclic(o.graph) && Extends(g, o.graph) && base <= o.out < |o.graph| && LayerOk(o.graph, ns[1..])
    requires Confined(o.graph, base, ps)
    ensures var rest := FireAll(o.graph, ns[1..], xs, tanh);
      Confined(rest.graph, base, ps) && forall j | 0 <= j < |ns| :: base <= ([o.out] + rest.item)[j]
    decreases |ns|, 0
  {
    assert ArgsOk(o.graph, xs);
    assert LayerAmong(ns[1..], ps);
    FireAllConfined(o.graph, ns[1..], xs, tanh, base, ps);
    var rest := FireAll(o.graph, ns[1..], xs, tanh);
    assert forall j | 0 < j < |ns| :: ([o.out] + rest.item)[j] == rest.item[j - 1];
  }


  lemma LayerCallConfined(g: Graph, ns: seq<Neuron>, x: Signal, tanh: real -> real, base: nat, ps: seq<nat>)
    requires Acyclic(g) && LayerOk(g, ns) && SignalOk(g, x)
    requires Confined(g, base, ps) && base <= |g| && LayerAmong(ns, ps) && SignalWithin(x, base, ps)
    ensures var r := LayerCall(g, ns, x, tanh);
      r.Ok? ==> Confined(r.value.graph, base, ps) && SignalWithin(r.value.out, base, ps)
  {
    if x.Many? {
      FireAllConfined(g, ns, x.items, tanh, base, ps);
    }
  }

  lemma {:induction false} MlpCallConfined(g: Graph, ls: seq<Layer>, x: Signal, tanh: real -> real, base: nat, ps: seq<nat>)
    requires Acyclic(g) && MlpOk(g, ls) && SignalOk(g, x)
    requires Confined(g, base, ps) && base <= |g| && MlpAmong(ls, ps) && SignalWithin(x, base, ps)
    ensures var r := MlpCall(g, ls, x, tanh);
      r.Ok? ==> Confined(r.value.graph, base, ps) && SignalWithin(r.value.out, base, ps)
    decreases |ls|
  {
    if |ls| > 0 {
      var c := LayerCall(g, ls[0].neurons, x, tanh);
      LayerCallConfined(g, ls[0].neurons, x, tanh, base, ps);
      if c.Ok? {
        LayerCallSound(g, ls[0].neurons, x, tanh);
        MlpOkExtends(g, c.value.graph, ls[1..]);
        MlpCallConfined(c.value.graph, ls[1..], c.value.out, tanh, base, ps);
      }
    }
  }

  // ------------------------------------------------------------- the epoch

  lemma {:induction false} PredictConfined(g: Graph, ls: seq<Layer>, inputs: seq<seq<real>>, tanh: real -> real, base: nat, ps: seq<nat>)
    requires Acyclic(g) && MlpOk(g, ls)
    requires Confined(g, base, ps) && base <= |g| && MlpAmong(ls, ps)
    ensures var r := Predict(g, ls, inputs, tanh);
      r.Ok? ==> Confined(r.value.graph, base, ps) && forall i | 0 <= i < |r.value.item| :: SignalWithin(r.value.item[i], base, ps)
    decreases |inputs|, 1
  {
    if |inputs| > 0 {
      var x := Many(Numbers(inputs[0]));
      assert ArgsOk(g, x.items);
      var c := MlpCall(g, ls, x, tanh);
      MlpCallConfined(g, ls, x, tanh, base, ps);
      if c.Ok? {
        MlpOkExtends(g, c.value.graph, ls);
        PredictUnfold(g, ls, inputs, tanh, c.value);
        PredictConfinedStep(g, ls, inputs, tanh, c.value, base, ps);
      }
    }
  }

  lemma {:induction false} PredictConfinedStep(g: Graph, ls: seq<Layer>, inputs: seq<seq<real>>, tanh: real -> real, f: Fed, base: nat, ps: seq<nat>)
    requires |inputs| > 0 && base <= |g| && Extends(g, f.graph)
    requires Acyclic(f.graph) && MlpOk(f.graph, ls) && SignalOk(f.graph, f.out)
    requires Confined(f.graph, base, ps) && MlpAmong(ls, ps) && SignalWithin(f.out, base, ps)
    ensures var p := Predict(f.graph, ls, inputs[1..], tanh);
      p.Ok? ==> Confined(p.value.graph, base, ps) && forall i | 0 <= i < |inputs| :: SignalWithin(([f.out] + p.value.item)[i], base, ps)
    decreases |inputs|, 0
  {
    PredictConfined(f.graph, ls, inputs[1..], tanh, base, ps);
    var p := Predict(f.graph, ls, inputs[1..], tanh);
    if p.Ok? {
      assert forall i | 0 < i < |inputs| :: ([f.out] + p.value.item)[i] == p.value.item[i - 1];
    }
  }


  lemma ResidualConfined(g: Graph, p: Signal, t: real, base: nat, ps: seq<nat>)
    requires Acyclic(g) && SignalOk(g, p)
    requires Confined(g, base, ps) && base <= |g| && SignalWithin(p, base, ps)
    ensures var r := Residual(g, p, t);
      r.Ok? ==> Confined(r.value.graph, base, ps) && base <= r.value.out
  {
    if p.One? {
      var d := Sub(g, p.id, Number(t)).value;
      BinaryConfined(g, p.id, Number(-t), d, base, ps);
      var q := Pow(d.graph, d.out, Number(2.0)).value;
      UnaryConfined(d.graph, q.graph, d.out, base, ps);
    }
  }

  lemma {:induction false} LossFromConfined(g: Graph, acc: nat, ps: seq<Signal>, ts: seq<real>, base: nat, params: seq<nat>)
    requires Acyclic(g) && acc < |g| && SignalsOk(g, ps)
    requires Confined(g, base, params) && base <= acc
    requires forall i | 0 <= i < |ps| :: SignalWithin(ps[i], base, params)
    ensures var r := LossFrom(g, acc, ps, ts);
      r.Ok? ==> Confined(r.value.graph, base, params) && base <= r.value.out
    decreases |ps|
  {
    if |ps| > 0 && |ts| > 0 {
      ResidualConfined(g, ps[0], ts[0], base, params);
      var q := Residual(g, ps[0], ts[0]);
      if q.Ok? {
        var a := Add(q.value.graph, acc, Ref(q.value.out));
        BinaryConfined(q.value.graph, acc, Ref(q.value.out), a, base, params);
        SignalsExtend(g, a.graph, ps[1..]);
        LossFromConfined(a.graph, a.out, ps[1..], ts[1..], base, params);
      }
    }
  }

  lemma LossConfined(g: Graph, ps: seq<Signal>, ts: seq<real>, base: nat, params: seq<nat>)
    requires Acyclic(g) && SignalsOk(g, ps)
    requires Confined(g, base, params) && base <= |g|
    requires forall i | 0 <= i < |ps| :: SignalWithin(ps[i], base, params)
    ensures var r := Loss(g, ps, ts);
      r.Ok? ==> Confined(r.value.graph, base, params) && base <= r.value.out
  {
    if |ps| > 0 && |ts| > 0 {
      ResidualConfined(g, ps[0], ts[0], base, params);
      var q := Residual(g, ps[0], ts[0]);
      if q.Ok? {
        var a := RAdd(q.value.graph, 0.0, q.value.out);
        BinaryConfined(q.value.graph, q.value.out, Number(0.0), a, base, params);
        SignalsExtend(g, a.graph, ps[1..]);
        LossFromConfined(a.graph, a.out, ps[1..], ts[1..], base, params);
      }
    }
  }

  /** The graph an epoch differentiates is built from the parameters and
      the epoch's own new values only. */
  lemma ForwardConfined(g: Graph, m: Mlp, inputs: seq<seq<real>>, targets: seq<real>, tanh: real -> real, ps: seq<nat>)
    requires Acyclic(g) && MlpOk(g, m.layers) && MlpAmong(m.layers, ps)
    ensures var r := Forward(g, m, inputs, targets, tanh);
      r.Ok? ==> Confined(r.value.graph, |g|, ps) && |g| <= r.value.out
  {
    PredictConfined(g, m.layers, inputs, tanh, |g|, ps);
    var p := Predict(g, m.layers, inputs, tanh);
    if p.Ok? {
      LossConfined(p.value.graph, p.value.item, targets, |g|, ps);
    }
  }

  /** A node reached from `v`, other than `v`, is reached through one of
      `v`'s operands. */
  lemma ReachStep(g: Graph, v: nat, u: nat) returns (a: nat)
    requires Acyclic(g) && v < |g| && u in Reach(g, v) && u != v
    ensures a in Operands(g[v].op) && u in Reach(g, a)
  {
    assert OpBelow(g[v].op, v);
    match g[v].op
    case AddOp(x, y) => a := if u in Reach(g, x) then x else y;
    case MulOp(x, y) => a := if u in Reach(g, x) then x else y;
    case PowOp(x, _) => a := x;
    case TanhOp(x) => a := x;
  }

  /** In a confined arena whose parameters are leaves, everything a new
      value reaches is a parameter or a new value. */
  lemma {:induction false} ConfinedReach(g: Graph, base: nat, ps: seq<nat>, v: nat)
    requires Acyclic(g) && Confined(g, base, ps) && ParamLeaves(g, ps) && base <= v < |g|
    ensures forall u | u in Reach(g, v) :: Within(u, base, ps)
    decreases v
  {
    forall u | u in Reach(g, v)
      ensures Within(u, base, ps)
    {
      if u != v {
        var a := ReachStep(g, v, u);
        ReachOperand(g, v, a);
        assert Within(a, base, ps);
        if a !in ps {
          ConfinedReach(g, base, ps, a);
        }
      }
    }
  }

  lemma {:induction false} LayerAmongParams(ns: seq<Neuron>)
    ensures LayerAmong(ns, LayerParams(ns))
    decreases |ns|
  {
    if |ns| > 0 {
      LayerAmongParams(ns[1..]);
      var ps := LayerParams(ns);
      forall j | 0 <= j < |ns| ensures NeuronAmong(ns[j], ps) {
        if j == 0 {
          assert ns[0].bias == NeuronParams(ns[0])[|ns[0].weights|];
          forall i | 0 <= i < |ns[0].weights| ensures ns[0].weights[i] in ps {
            assert ns[0].weights[i] == NeuronParams(ns[0])[i];
          }
        } else {
          assert ns[j] == ns[1..][j - 1];
        }
      }
    }
  }

  /** Every weight and bias of the network is among its parameters. */
  lemma {:induction false} MlpAmongParams(ls: seq<Layer>)
    ensures MlpAmong(ls, MlpParams(ls))
    decreases |ls|
  {
    if |ls| > 0 {
      LayerAmongParams(ls[0].neurons);
      MlpAmongParams(ls[1..]);
      var ps := MlpParams(ls);
      forall i | 0 <= i < |ls| ensures LayerAmong(ls[i].neurons, ps) {
        var own := if i == 0 then LayerParams(ls[0].neurons) else MlpParams(ls[1..]);
        if i > 0 {
          assert ls[i] == ls[1..][i - 1];
        }
        forall j | 0 <= j < |ls[i].neurons| ensures NeuronAmong(ls[i].neurons[j], ps) {
          var n := ls[i].neurons[j];
          assert NeuronAmong(n, own);
          forall w | 0 <= w < |n.weights| ensures n.weights[w] in ps {
            assert n.weights[w] in own;
          }
        }
      }
    }
  }

  /** `backward` from a new value of a confined arena, started from the
      cleared slots, does not read the stale gradients: the parameters and
      the new values get the same gradients whatever the old slots held. */
  lemma StaleBackward(s1: Session, s2: Session, l: Built, ps: seq<nat>, flip: nat -> bool)
    requires SessionOk(s1) && SessionOk(s2) && s1.graph == s2.graph
    requires Acyclic(l.graph) && Extends(s1.graph, l.graph) && |s1.graph| <= l.out < |l.graph|
    requires Confined(l.graph, |s1.graph|, ps) && ParamLeaves(l.graph, ps)
    ensures var b1 := Backward(l.graph, l.out, Cleared(s1, l.graph, ps), flip);
      var b2 := Backward(l.graph, l.out, Cleared(s2, l.graph, ps), flip);
      && b1.Ok? == b2.Ok?
      && (b1.Ok? ==> forall k | 0 <= k < |l.graph| && (k in ps || k >= |s1.graph|) :: b1.value[k] == b2.value[k])
  {
    var z1 := Cleared(s1, l.graph, ps);
    var z2 := Cleared(s2, l.graph, ps);
    ConfinedReach(l.graph, |s1.graph|, ps, l.out);
    BackwardLocal(l.graph, l.out, z1, z2, flip);
    var b1 := Backward(l.graph, l.out, z1, flip);
    var b2 := Backward(l.graph, l.out, z2, flip);
    if b1.Ok? {
      forall k | 0 <= k < |l.graph| && (k in ps || k >= |s1.graph|)
        ensures b1.value[k] == b2.value[k]
      {
        if k !in Reach(l.graph, l.out) {
          assert b1.value[k] == z1[k] && b2.value[k] == z2[k];
        }
      }
    }
  }

  /** The update reads the gradients of the parameters only. */
  lemma {:induction false} DescendReadsParams(g: Graph, ps: seq<nat>, F1: seq<real>, F2: seq<real>)
    requires IdsIn(g, ps) && |F1| == |g| && |F2| == |g|
    requires forall k | 0 <= k < |g| && k in ps :: F1[k] == F2[k]
    ensures Descend(g, ps, F1) == Descend(g, ps, F2)
    decreases |ps|
  {
    if |ps| > 0 {
      var p := ps[0];
      assert F1[p] == F2[p];
      var g1 := g[p := Node(g[p].data + Nudge(F1[p]), g[p].op)];
      DescendReadsParams(g1, ps[1..], F1, F2);
    }
  }

  /** Gradients left over from earlier epochs do not matter: two sessions
      with the same arena but any gradients end the epoch alike. Both fail
      or neither does; the arenas after the update are equal; and the
      gradients of the parameters and of every value the epoch created are
      equal. Only the unreached values of the old arena keep their own
      stale gradient. */
  lemma EpochIgnoresStaleGradients(s1: Session, s2: Session, m: Mlp, inputs: seq<seq<real>>, targets: seq<real>, tanh: real -> real, flip: nat -> bool)
    requires SessionOk(s1) && SessionOk(s2) && s1.graph == s2.graph
    requires MlpOk(s1.graph, m.layers) && ParamLeaves(s1.graph, MlpParams(m.layers))
    ensures var r1 := Epoch(s1, m, inputs, targets, tanh, flip);
      var r2 := Epoch(s2, m, inputs, targets, tanh, flip);
      && r1.Ok? == r2.Ok?
      && (r1.Ok? ==> && r1.value.graph == r2.value.graph
                     && |r1.value.grads| == |r2.value.grads|
                     && forall k | 0 <= k < |r1.value.grads| && (k in MlpParams(m.layers) || k >= |s1.graph|) ::
                          r1.value.grads[k] == r2.value.grads[k])
  {
    var g := s1.graph;
    var ps := MlpParams(m.layers);
    var f := Forward(g, m, inputs, targets, tanh);
    if f.Ok? {
      var l := f.value;
      MlpAmongParams(m.layers);
      ForwardConfined(g, m, inputs, targets, tanh, ps);
      ParamsIn(l.graph, m.layers);
      assert ParamLeaves(l.graph, ps);
      StaleBackward(s1, s2, l, ps, flip);
      var b1 := Backward(l.graph, l.out, Cleared(s1, l.graph, ps), flip);
      var b2 := Backward(l.graph, l.out, Cleared(s2, l.graph, ps), flip);
      if b1.Ok? {
        DescendReadsParams(l.graph, ps, b1.value, b2.value);
      }
    }
  }
}
