/**
  One epoch of `MultiLayerPerceptron.train` (nn.py): predict every input,
  sum the squared errors into a loss, zero the parameters' gradients, run
  `backward` from the loss and move every parameter against its gradient.
  The arena and the gradient slots beside it form the state an epoch
  carries to the next one.
 */
module Training {
  import opened Arena
  import opened Operators
  import opened TopoSort
  import opened Backprop
  import opened Network

  /** The arena together with every node's `.gradient`. */
  datatype Session = Session(graph: Graph, grads: seq<real>)

  predicate SessionOk(s: Session)
  {
    Acyclic(s.graph) && |s.grads| == |s.graph|
  }

  const LearningRate: real := 0.1

  /** What `p.data += -(0.1 * p.gradient)` adds to a parameter: a step
      against the gradient. */
  function Nudge(gradient: real): (r: real)
    ensures gradient > 0.0 ==> r < 0.0
    ensures gradient < 0.0 ==> r > 0.0
    ensures gradient == 0.0 ==> r == 0.0
  {
    -(LearningRate * gradient)
  }

  function Square(x: real): real
  {
    x * x
  }

  lemma SquareNonNegative(x: real)
    ensures Square(x) >= 0.0
  {
    if x < 0.0 {
      assert Square(x) == (-x) * (-x);
    }
  }

  // ------------------------------------------------------------- predictions

  predicate SignalsOk(g: Graph, ps: seq<Signal>)
  {
    forall i | 0 <= i < |ps| :: SignalOk(g, ps[i])
  }

  lemma ReadExtends(g: Graph, g2: Graph, s: Signal)
    requires Extends(g, g2) && SignalOk(g, s)
    ensures SignalOk(g2, s) && Read(g2, s) == Read(g, s)
  {
    if s.Many? {
      ValuesExtends(g, g2, s.items);
    }
  }

  lemma SignalsExtend(g: Graph, g2: Graph, ps: seq<Signal>)
    requires Extends(g, g2) && SignalsOk(g, ps)
    ensures SignalsOk(g2, ps)
    ensures forall i | 0 <= i < |ps| :: Read(g2, ps[i]) == Read(g, ps[i])
  {
    forall i | 0 <= i < |ps|
      ensures SignalOk(g2, ps[i]) && Read(g2, ps[i]) == Read(g, ps[i])
    {
      ReadExtends(g, g2, ps[i]);
    }
  }

  lemma SignalsCons(g: Graph, g2: Graph, s: Signal, ps: seq<Signal>)
    requires Extends(g, g2) && SignalOk(g, s) && SignalsOk(g2, ps)
    ensures SignalsOk(g2, [s] + ps)
  {
    ReadExtends(g, g2, s);
    assert forall i | 0 < i < |[s] + ps| :: ([s] + ps)[i] == ps[i - 1];
  }

  lemma ValuesNumbers(g: Graph, xs: seq<real>)
    ensures ArgsOk(g, Numbers(xs)) && Values(g, Numbers(xs)) == xs
  {
  }

  /** `[self(x) for x in inputs]`: one forward pass per input, in order, each
      on the plain list of numbers. */
  function Predict(g: Graph, ls: seq<Layer>, inputs: seq<seq<real>>, tanh: real -> real): (r: Result<Grown<seq<Signal>>>)
    requires Acyclic(g) && MlpOk(g, ls)
    ensures r.Ok? ==> && Acyclic(r.value.graph) && Extends(g, r.value.graph)
                      && |r.value.item| == |inputs| && SignalsOk(r.value.graph, r.value.item)
    decreases |inputs|
  {
    if |inputs| == 0 then Ok(Grown(g, []))
    else
      var x := Many(Numbers(inputs[0]));
      assert ArgsOk(g, x.items);
      match MlpCall(g, ls, x, tanh)
      case Err(e) => Err(e)
      case Ok(f) =>
        MlpOkExtends(g, f.graph, ls);
        match Predict(f.graph, ls, inputs[1..], tanh)
        case Err(e) => Err(e)
        case Ok(rest) =>
          SignalsCons(f.graph, rest.graph, f.out, rest.item);
          Ok(Grown(rest.graph, [f.out] + rest.item))
  }

  /** `Predict` on a non-empty list of inputs, once the first pass is done. */
  lemma PredictUnfold(g: Graph, ls: seq<Layer>, inputs: seq<seq<real>>, tanh: real -> real, f: Fed)
    requires Acyclic(g) && MlpOk(g, ls) && |inputs| > 0
    requires ArgsOk(g, Numbers(inputs[0])) && MlpCall(g, ls, Many(Numbers(inputs[0])), tanh) == Ok(f)
    requires Acyclic(f.graph) && MlpOk(f.graph, ls)
    ensures Predict(g, ls, inputs, tanh) ==
      match Predict(f.graph, ls, inputs[1..], tanh)
      case Err(e) => Err(e)
      case Ok(rest) => Ok(Grown(rest.graph, [f.out] + rest.item))
  {
  }

  /** Predicting fails exactly when some input makes the perceptron fail. */
  lemma {:induction false} PredictFails(g: Graph, ls: seq<Layer>, inputs: seq<seq<real>>, tanh: real -> real)
    requires Acyclic(g) && MlpOk(g, ls)
    ensures var r := Predict(g, ls, inputs, tanh);
      && (r.Ok? <==> forall i | 0 <= i < |inputs| :: MlpEval(g, ls, Vector(inputs[i]), tanh).Ok?)
      && (r.Err? ==> r.error == NotIterable)
    decreases |inputs|, 1
  {
    if |inputs| > 0 {
      var x := Many(Numbers(inputs[0]));
      assert ArgsOk(g, x.items);
      var c := MlpCall(g, ls, x, tanh);
      assert && (c.Ok? <==> MlpEval(g, ls, Vector(inputs[0]), tanh).Ok?)
             && (c.Err? ==> c.error == NotIterable) by {
        ValuesNumbers(g, inputs[0]);
        MlpCallSound(g, ls, x, tanh);
      }
      if c.Ok? {
        MlpOkExtends(g, c.value.graph, ls);
        PredictUnfold(g, ls, inputs, tanh, c.value);
        PredictFailsStep(g, ls, inputs, tanh, c.value);
      }
    }
  }

  /** The inductive step of `PredictFails`, once the first input has run. */
  lemma {:induction false} PredictFailsStep(g: Graph, ls: seq<Layer>, inputs: seq<seq<real>>, tanh: real -> real, f: Fed)
    requires Acyclic(g) && MlpOk(g, ls) && |inputs| > 0
    requires Acyclic(f.graph) && Extends(g, f.graph) && MlpOk(f.graph, ls)
    requires MlpEval(g, ls, Vector(inputs[0]), tanh).Ok?
    ensures var p := Predict(f.graph, ls, inputs[1..], tanh);
      && (p.Ok? <==> forall i | 0 <= i < |inputs| :: MlpEval(g, ls, Vector(inputs[i]), tanh).Ok?)
      && (p.Err? ==> p.error == NotIterable)
    decreases |inputs|, 0
  {
    PredictFails(f.graph, ls, inputs[1..], tanh);
    forall i | 0 < i < |inputs|
      ensures MlpEval(f.graph, ls, Vector(inputs[1..][i - 1]), tanh) == MlpEval(g, ls, Vector(inputs[i]), tanh)
    {
      MlpEvalExtends(g, f.graph, ls, Vector(inputs[i]), tanh);
    }
  }


  /** The predictions are the perceptron's outputs as a function on reals,
      with the parameters as they were before the epoch. */
  lemma {:induction false} PredictValues(g: Graph, ls: seq<Layer>, inputs: seq<seq<real>>, tanh: real -> real)
    requires Acyclic(g) && MlpOk(g, ls)
    ensures var r := Predict(g, ls, inputs, tanh);
      r.Ok? ==> forall i | 0 <= i < |inputs| ::
                  && MlpEval(g, ls, Vector(inputs[i]), tanh).Ok?
                  && Read(r.value.graph, r.value.item[i]) == MlpEval(g, ls, Vector(inputs[i]), tanh).value
    decreases |inputs|, 1
  {
    if |inputs| > 0 {
      var x := Many(Numbers(inputs[0]));
      ValuesNumbers(g, inputs[0]);
      var c := MlpCall(g, ls, x, tanh);
      assert c.Ok? ==> && Acyclic(c.value.graph) && Extends(g, c.value.graph) && SignalOk(c.value.graph, c.value.out)
                       && MlpEval(g, ls, Vector(inputs[0]), tanh) == Ok(Read(c.value.graph, c.value.out)) by {
        MlpCallSound(g, ls, x, tanh);
      }
      if c.Ok? {
        MlpOkExtends(g, c.value.graph, ls);
        PredictUnfold(g, ls, inputs, tanh, c.value);
        PredictValuesStep(g, ls, inputs, tanh, c.value);
      }
    }
  }

  /** The inductive step of `PredictValues`: the reading of the first input
      joins those of the others. */
  lemma {:induction false} PredictValuesStep(g: Graph, ls: seq<Layer>, inputs: seq<seq<real>>, tanh: real -> real, f: Fed)
    requires Acyclic(g) && MlpOk(g, ls) && |inputs| > 0
    requires Acyclic(f.graph) && Extends(g, f.graph) && MlpOk(f.graph, ls) && SignalOk(f.graph, f.out)
    requires MlpEval(g, ls, Vector(inputs[0]), tanh) == Ok(Read(f.graph, f.out))
    ensures var p := Predict(f.graph, ls, inputs[1..], tanh);
      p.Ok? ==> forall i | 0 <= i < |inputs| ::
                  && MlpEval(g, ls, Vector(inputs[i]), tanh).Ok?
                  && Read(p.value.graph, ([f.out] + p.value.item)[i]) == MlpEval(g, ls, Vector(inputs[i]), tanh).value
    decreases |inputs|, 0
  {
    var p := Predict(f.graph, ls, inputs[1..], tanh);
    if p.Ok? {
      var item := [f.out] + p.value.item;
      PredictValues(f.graph, ls, inputs[1..], tanh);
      ReadExtends(f.graph, p.value.graph, f.out);
      forall i | 0 < i < |inputs|
        ensures MlpEval(g, ls, Vector(inputs[i]), tanh).Ok?
        ensures Read(p.value.graph, item[i]) == MlpEval(g, ls, Vector(inputs[i]), tanh).value
      {
        assert item[i] == p.value.item[i - 1] && inputs[i] == inputs[1..][i - 1];
        MlpEvalExtends(g, f.graph, ls, Vector(inputs[i]), tanh);
      }
    }
  }

  // --------------------------------------------------------------------- loss

  /** The predicted numbers, one per prediction; a list-valued prediction
      has none, and reads as 0 here only to keep the sequence aligned. */
  function Outputs(g: Graph, ps: seq<Signal>): (r: seq<real>)
    requires SignalsOk(g, ps)
    ensures |r| == |ps|
    ensures forall i | 0 <= i < |ps| && ps[i].One? :: r[i] == g[ps[i].id].data
  {
    if |ps| == 0 then [] else [if ps[0].One? then g[ps[0].id].data else 0.0] + Outputs(g, ps[1..])
  }

  lemma OutputsExtend(g: Graph, g2: Graph, ps: seq<Signal>)
    requires Extends(g, g2) && SignalsOk(g, ps)
    ensures SignalsOk(g2, ps) && Outputs(g2, ps) == Outputs(g, ps)
  {
    SignalsExtend(g, g2, ps);
  }

  /** `sum((predic - actual) ** 2 for actual, predic in zip(targets, predictions))`
      on reals; `zip` stops at the shorter list. */
  function SumSquares(vs: seq<real>, ts: seq<real>): real
  {
    if |vs| == 0 || |ts| == 0 then 0.0 else Square(vs[0] - ts[0]) + SumSquares(vs[1..], ts[1..])
  }

  /** The number of pairs `zip(targets, predictions)` yields. */
  function Pairs(ps: seq<Signal>, ts: seq<real>): nat
  {
    if |ps| < |ts| then |ps| else |ts|
  }

  /** All predictions the loss reads are single values. */
  predicate Scalars(ps: seq<Signal>, ts: seq<real>)
  {
    forall i | 0 <= i < |ps| && i < |ts| :: ps[i].One?
  }

  /** One term, `(predic - actual) ** 2`; a list minus a number is a TypeError. */
  function Residual(g: Graph, p: Signal, t: real): (r: Result<Built>)
    requires Acyclic(g) && SignalOk(g, p)
    ensures r.Ok? <==> p.One?
    ensures r.Err? ==> r.error == ListMinusNumber
    ensures r.Ok? ==> && Acyclic(r.value.graph) && Extends(g, r.value.graph) && r.value.out < |r.value.graph|
                      && r.value.graph[r.value.out].data == Square(g[p.id].data - t)
  {
    match p
    case Many(_) => Err(ListMinusNumber)
    case One(v) =>
      var d := Sub(g, v, Number(t));
      assert d.Ok?;
      assert IsInteger(2.0) && (2.0).Floor == 2;
      RealPowSquare(g[v].data - t);
      Pow(d.value.graph, d.value.out, Number(2.0))
  }

  lemma ScalarsTail(ps: seq<Signal>, ts: seq<real>)
    requires |ps| > 0 && |ts| > 0
    ensures Scalars(ps, ts) <==> ps[0].One? && Scalars(ps[1..], ts[1..])
  {
    assert forall i | 0 <= i < |ps[1..]| :: ps[1..][i] == ps[i + 1];
  }

  /** The rest of the reduction after the first term: `acc + term`. */
  function LossFrom(g: Graph, acc: nat, ps: seq<Signal>, ts: seq<real>): (r: Result<Built>)
    requires Acyclic(g) && acc < |g| && SignalsOk(g, ps)
    ensures r.Ok? ==> Acyclic(r.value.graph) && Extends(g, r.value.graph) && r.value.out < |r.value.graph|
    decreases |ps|
  {
    if |ps| == 0 || |ts| == 0 then Ok(Built(g, acc))
    else
      match Residual(g, ps[0], ts[0])
      case Err(e) => Err(e)
      case Ok(q) =>
        var a := Add(q.graph, acc, Ref(q.out));
        SignalsExtend(g, a.graph, ps[1..]);
        LossFrom(a.graph, a.out, ps[1..], ts[1..])
  }

  lemma {:induction false} LossFromFails(g: Graph, acc: nat, ps: seq<Signal>, ts: seq<real>)
    requires Acyclic(g) && acc < |g| && SignalsOk(g, ps)
    ensures var r := LossFrom(g, acc, ps, ts);
      (r.Ok? <==> Scalars(ps, ts)) && (r.Err? ==> r.error == ListMinusNumber)
    decreases |ps|
  {
    if |ps| > 0 && |ts| > 0 {
      ScalarsTail(ps, ts);
      var q := Residual(g, ps[0], ts[0]);
      if q.Ok? {
        var a := Add(q.value.graph, acc, Ref(q.value.out));
        SignalsExtend(g, a.graph, ps[1..]);
        LossFromFails(a.graph, a.out, ps[1..], ts[1..]);
      }
    }
  }

  lemma {:induction false} LossFromValue(g: Graph, acc: nat, ps: seq<Signal>, ts: seq<real>)
    requires Acyclic(g) && acc < |g| && SignalsOk(g, ps)
    ensures var r := LossFrom(g, acc, ps, ts);
      r.Ok? ==> r.value.graph[r.value.out].data == g[acc].data + SumSquares(Outputs(g, ps), ts)
    decreases |ps|
  {
    if |ps| > 0 && |ts| > 0 {
      var q := Residual(g, ps[0], ts[0]);
      if q.Ok? {
        var a := Add(q.value.graph, acc, Ref(q.value.out));
        OutputsExtend(g, a.graph, ps[1..]);
        var outs := Outputs(g, ps);
        assert outs[1..] == Outputs(g, ps[1..]);
        assert a.graph[a.out].data == g[acc].data + Square(outs[0] - ts[0]);
        assert SumSquares(outs, ts) == Square(outs[0] - ts[0]) + SumSquares(outs[1..], ts[1..]);
        assert LossFrom(g, acc, ps, ts) == LossFrom(a.graph, a.out, ps[1..], ts[1..]);
        LossFromValue(a.graph, a.out, ps[1..], ts[1..]);
      }
    }
  }

  /** The loss of the epoch. `sum` starts from the integer 0, so the first
      term is added by `__radd__` and every later one by `__add__`; with no
      pairs at all the loss is the bare 0, which has no `backward`. */
  function Loss(g: Graph, ps: seq<Signal>, ts: seq<real>): (r: Result<Built>)
    requires Acyclic(g) && SignalsOk(g, ps)
    ensures r.Ok? ==> Acyclic(r.value.graph) && Extends(g, r.value.graph) && r.value.out < |r.value.graph|
  {
    if |ps| == 0 || |ts| == 0 then Err(LossNotValue)
    else
      match Residual(g, ps[0], ts[0])
      case Err(e) => Err(e)
      case Ok(q) =>
        var a := RAdd(q.graph, 0.0, q.out);
        SignalsExtend(g, a.graph, ps[1..]);
        LossFrom(a.graph, a.out, ps[1..], ts[1..])
  }

  /** The loss fails exactly when `zip` yields no pair (the bare 0 has no
      `backward`) or when some prediction it reads is a list. */
  lemma LossFails(g: Graph, ps: seq<Signal>, ts: seq<real>)
    requires Acyclic(g) && SignalsOk(g, ps)
    ensures var r := Loss(g, ps, ts);
      && (r.Ok? <==> Pairs(ps, ts) > 0 && Scalars(ps, ts))
      && (r.Err? ==> r.error == if Pairs(ps, ts) == 0 then LossNotValue else ListMinusNumber)
  {
    if |ps| > 0 && |ts| > 0 {
      ScalarsTail(ps, ts);
      var q := Residual(g, ps[0], ts[0]);
      if q.Ok? {
        var a := RAdd(q.value.graph, 0.0, q.value.out);
        SignalsExtend(g, a.graph, ps[1..]);
        LossFromFails(a.graph, a.out, ps[1..], ts[1..]);
      }
    }
  }

  /** The loss node holds the sum of squared errors over the pairs. */
  lemma LossValue(g: Graph, ps: seq<Signal>, ts: seq<real>)
    requires Acyclic(g) && SignalsOk(g, ps)
    ensures var r := Loss(g, ps, ts);
      r.Ok? ==> r.value.graph[r.value.out].data == SumSquares(Outputs(g, ps), ts)
  {
    if |ps| > 0 && |ts| > 0 {
      var q := Residual(g, ps[0], ts[0]);
      if q.Ok? {
        var a := RAdd(q.value.graph, 0.0, q.value.out);
        OutputsExtend(g, a.graph, ps[1..]);
        var os := Outputs(g, ps);
        assert os[1..] == Outputs(g, ps[1..]);
        assert a.graph[a.out].data == Square(os[0] - ts[0]);
        assert SumSquares(os, ts) == Square(os[0] - ts[0]) + SumSquares(os[1..], ts[1..]);
        LossFromValue(a.graph, a.out, ps[1..], ts[1..]);
      }
    }
  }

  /** The squared error is never negative. */
  lemma {:induction false} SumSquaresNonNegative(vs: seq<real>, ts: seq<real>)
    ensures SumSquares(vs, ts) >= 0.0
    decreases |vs|
  {
    if |vs| > 0 && |ts| > 0 {
      SquareNonNegative(vs[0] - ts[0]);
      SumSquaresNonNegative(vs[1..], ts[1..]);
    }
  }

  // ------------------------------------------------------- zero grad, update

  /** `for p in self.parameters(): p.gradient = 0.0`. */
  function ZeroGrad(grads: seq<real>, ps: seq<nat>): (r: seq<real>)
    ensures |r| == |grads|
    ensures forall k | 0 <= k < |r| :: r[k] == if k in ps then 0.0 else grads[k]
    decreases |ps|
  {
    if |ps| == 0 then grads
    else ZeroGrad(if ps[0] < |grads| then grads[ps[0] := 0.0] else grads, ps[1..])
  }

  /** How often `k` occurs in `ps`. */
  function Occurrences(ps: seq<nat>, k: nat): nat
  {
    if |ps| == 0 then 0 else (if ps[0] == k then 1 else 0) + Occurrences(ps[1..], k)
  }

  /** A value moved `n` times by `step`. */
  function Moved(data: real, n: nat, step: real): real
  {
    data + n as real * step
  }

  lemma MovedOnce(data: real, n: nat, step: real)
    ensures Moved(data + step, n, step) == Moved(data, n + 1, step)
  {
  }

  /** `for p in self.parameters(): p.data += -(0.1 * p.gradient)`, in list
      order; a value listed twice would move twice. Only `data` changes. */
  function Descend(g: Graph, ps: seq<nat>, F: seq<real>): (r: Graph)
    requires IdsIn(g, ps) && |F| == |g|
    ensures |r| == |g|
    ensures forall k | 0 <= k < |g| :: r[k].op == g[k].op
    ensures forall k | 0 <= k < |g| :: r[k].data == Moved(g[k].data, Occurrences(ps, k), Nudge(F[k]))
    decreases |ps|
  {
    if |ps| == 0 then g
    else
      var p := ps[0];
      var g1 := g[p := Node(g[p].data + Nudge(F[p]), g[p].op)];
      var r := Descend(g1, ps[1..], F);
      MovedOnce(g[p].data, Occurrences(ps[1..], p), Nudge(F[p]));
      r
  }

  // -------------------------------------------------------------- the epoch

  lemma {:induction false} ParamsIn(g: Graph, ls: seq<Layer>)
    requires MlpOk(g, ls)
    ensures IdsIn(g, MlpParams(ls))
    decreases |ls|
  {
    if |ls| > 0 {
      LayerParamsIn(g, ls[0].neurons);
      ParamsIn(g, ls[1..]);
    }
  }

  lemma {:induction false} LayerParamsIn(g: Graph, ns: seq<Neuron>)
    requires LayerOk(g, ns)
    ensures IdsIn(g, LayerParams(ns))
    decreases |ns|
  {
    if |ns| > 0 {
      assert NeuronOk(g, ns[0]);
      LayerParamsIn(g, ns[1..]);
    }
  }

  /** Predictions and loss: the graph the epoch differentiates. */
  function Forward(g: Graph, m: Mlp, inputs: seq<seq<real>>, targets: seq<real>, tanh: real -> real): (r: Result<Built>)
    requires Acyclic(g) && MlpOk(g, m.layers)
    ensures r.Ok? ==> Acyclic(r.value.graph) && Extends(g, r.value.graph) && r.value.out < |r.value.graph|
  {
    match Predict(g, m.layers, inputs, tanh)
    case Err(e) => Err(e)
    case Ok(p) => Loss(p.graph, p.item, targets)
  }

  /** The perceptron's outputs on the inputs as numbers; an input on which it
      fails or yields a list has none, and reads as 0 only to keep alignment. */
  function NetOutputs(g: Graph, ls: seq<Layer>, inputs: seq<seq<real>>, tanh: real -> real): (r: seq<real>)
    requires MlpOk(g, ls)
    ensures |r| == |inputs|
    ensures forall i | 0 <= i < |inputs| && MlpEval(g, ls, Vector(inputs[i]), tanh).Ok? && MlpEval(g, ls, Vector(inputs[i]), tanh).value.Scalar? ::
      r[i] == MlpEval(g, ls, Vector(inputs[i]), tanh).value.v
  {
    if |inputs| == 0 then []
    else
      var e := MlpEval(g, ls, Vector(inputs[0]), tanh);
      [if e.Ok? && e.value.Scalar? then e.value.v else 0.0] + NetOutputs(g, ls, inputs[1..], tanh)
  }

  /** Every input the loss reads makes the perceptron yield a single number. */
  predicate ScalarOutputs(g: Graph, ls: seq<Layer>, inputs: seq<seq<real>>, targets: seq<real>, tanh: real -> real)
    requires MlpOk(g, ls)
  {
    forall i | 0 <= i < |inputs| && i < |targets| ::
      MlpEval(g, ls, Vector(inputs[i]), tanh).Ok? && MlpEval(g, ls, Vector(inputs[i]), tanh).value.Scalar?
  }

  lemma {:induction false} SumSquaresAgree(vs: seq<real>, ws: seq<real>, ts: seq<real>)
    requires |vs| == |ws| && forall i | 0 <= i < |vs| && i < |ts| :: vs[i] == ws[i]
    ensures SumSquares(vs, ts) == SumSquares(ws, ts)
    decreases |vs|
  {
    if |vs| > 0 && |ts| > 0 {
      SumSquaresAgree(vs[1..], ws[1..], ts[1..]);
    }
  }

  /** The forward part of an epoch fails exactly as the program does: a
      layer fed a bare value, then a loss without pairs, then a list-valued
      prediction. */
  lemma ForwardFails(g: Graph, m: Mlp, inputs: seq<seq<real>>, targets: seq<real>, tanh: real -> real)
    requires Acyclic(g) && MlpOk(g, m.layers)
    ensures var r := Forward(g, m, inputs, targets, tanh);
      var runs := forall i | 0 <= i < |inputs| :: MlpEval(g, m.layers, Vector(inputs[i]), tanh).Ok?;
      && (r.Ok? <==> runs && |inputs| > 0 && |targets| > 0 && ScalarOutputs(g, m.layers, inputs, targets, tanh))
      && (r.Err? ==> r.error == if !runs then NotIterable
                                else if |inputs| == 0 || |targets| == 0 then LossNotValue
                                else ListMinusNumber)
  {
    PredictFails(g, m.layers, inputs, tanh);
    var p := Predict(g, m.layers, inputs, tanh);
    if p.Ok? {
      PredictValues(g, m.layers, inputs, tanh);
      LossFails(p.value.graph, p.value.item, targets);
      ScalarsMatch(g, m.layers, inputs, targets, tanh, p.value);
    }
  }

  /** The predictions the loss reads are single values exactly when the
      perceptron yields single numbers on those inputs. */
  lemma ScalarsMatch(g: Graph, ls: seq<Layer>, inputs: seq<seq<real>>, targets: seq<real>, tanh: real -> real, q: Grown<seq<Signal>>)
    requires MlpOk(g, ls) && |q.item| == |inputs| && SignalsOk(q.graph, q.item)
    requires forall i | 0 <= i < |inputs| ::
               && MlpEval(g, ls, Vector(inputs[i]), tanh).Ok?
               && Read(q.graph, q.item[i]) == MlpEval(g, ls, Vector(inputs[i]), tanh).value
    ensures Scalars(q.item, targets) <==> ScalarOutputs(g, ls, inputs, targets, tanh)
  {
    forall i | 0 <= i < |inputs| && i < |targets|
      ensures q.item[i].One? <==> MlpEval(g, ls, Vector(inputs[i]), tanh).value.Scalar?
    {
      assert Read(q.graph, q.item[i]) == MlpEval(g, ls, Vector(inputs[i]), tanh).value;
    }
  }


  /** The loss the epoch differentiates is the squared error of the
      perceptron's outputs, as numbers, against the targets: never negative. */
  lemma ForwardLoss(g: Graph, m: Mlp, inputs: seq<seq<real>>, targets: seq<real>, tanh: real -> real)
    requires Acyclic(g) && MlpOk(g, m.layers)
    ensures var r := Forward(g, m, inputs, targets, tanh);
      r.Ok? ==> && r.value.graph[r.value.out].data == SumSquares(NetOutputs(g, m.layers, inputs, tanh), targets)
                && r.value.graph[r.value.out].data >= 0.0
  {
    var p := Predict(g, m.layers, inputs, tanh);
    if p.Ok? {
      var q := p.value;
      PredictValues(g, m.layers, inputs, tanh);
      LossFails(q.graph, q.item, targets);
      LossValue(q.graph, q.item, targets);
      var r := Loss(q.graph, q.item, targets);
      if r.Ok? {
        var outs := Outputs(q.graph, q.item);
        var net := NetOutputs(g, m.layers, inputs, tanh);
        forall i | 0 <= i < |outs| && i < |targets|
          ensures outs[i] == net[i]
        {
          assert q.item[i].One?;
          assert Read(q.graph, q.item[i]) == MlpEval(g, m.layers, Vector(inputs[i]), tanh).value;
        }
        SumSquaresAgree(outs, net, targets);
        SumSquaresNonNegative(net, targets);
      }
    }
  }

  /** The gradients `backward` starts from: 0 for every parameter and for
      every value the forward pass created, the old slot for the rest. */
  function Cleared(s: Session, g: Graph, ps: seq<nat>): (z: seq<real>)
    requires |s.grads| == |s.graph| <= |g|
    ensures |z| == |g|
    ensures forall k | 0 <= k < |g| :: z[k] == if k in ps || k >= |s.graph| then 0.0 else s.grads[k]
  {
    ZeroGrad(s.grads + Zeros(|g| - |s.graph|), ps)
  }

  /** One epoch of `train`. */
  function Epoch(s: Session, m: Mlp, inputs: seq<seq<real>>, targets: seq<real>, tanh: real -> real, flip: nat -> bool): (r: Result<Session>)
    requires SessionOk(s) && MlpOk(s.graph, m.layers)
    ensures r.Ok? ==> SessionOk(r.value) && |s.graph| <= |r.value.graph|
  {
    match Forward(s.graph, m, inputs, targets, tanh)
    case Err(e) => Err(e)
    case Ok(l) =>
      var ps := MlpParams(m.layers);
      ParamsIn(l.graph, m.layers);
      var z := Cleared(s, l.graph, ps);
      match Backward(l.graph, l.out, z, flip)
      case Err(e) => Err(e)
      case Ok(F) =>
        var g := Descend(l.graph, ps, F);
        assert Acyclic(g) by {
          forall k | 0 <= k < |g| ensures OpBelow(g[k].op, k) {
            assert g[k].op == l.graph[k].op;
          }
        }
        Ok(Session(g, F))
  }

  /** A successful epoch, taken apart: the forward graph, `backward` on it
      from the cleared slots, and the update with the gradients it found. */
  lemma EpochUnfold(s: Session, m: Mlp, inputs: seq<seq<real>>, targets: seq<real>, tanh: real -> real, flip: nat -> bool)
    requires SessionOk(s) && MlpOk(s.graph, m.layers)
    ensures var r := Epoch(s, m, inputs, targets, tanh, flip);
      r.Ok? ==> && Forward(s.graph, m, inputs, targets, tanh).Ok?
                && var l := Forward(s.graph, m, inputs, targets, tanh).value;
                   var ps := MlpParams(m.layers);
                   && IdsIn(l.graph, ps)
                   && Backward(l.graph, l.out, Cleared(s, l.graph, ps), flip).Ok?
                   && var F := Backward(l.graph, l.out, Cleared(s, l.graph, ps), flip).value;
                      r.value == Session(Descend(l.graph, ps, F), F)
  {
    var f := Forward(s.graph, m, inputs, targets, tanh);
    if f.Ok? {
      ParamsIn(f.value.graph, m.layers);
    }
  }

  lemma {:induction false} OccurrencesCount(ps: seq<nat>, k: nat)
    ensures k !in ps ==> Occurrences(ps, k) == 0
    ensures k in ps && Distinct(ps) ==> Occurrences(ps, k) == 1
    decreases |ps|
  {
    if |ps| > 0 {
      OccurrencesCount(ps[1..], k);
      if k in ps && Distinct(ps) {
        assert Distinct(ps[1..]);
        if ps[0] == k {
          assert k !in ps[1..];
        } else {
          assert k in ps[1..];
        }
      }
    }
  }

  /** An epoch touches nothing but the parameters' `data`: every other
      value of the old arena is as it was, and every parameter keeps its
      place in the graph. */
  lemma EpochFrame(s: Session, m: Mlp, inputs: seq<seq<real>>, targets: seq<real>, tanh: real -> real, flip: nat -> bool)
    requires SessionOk(s) && MlpOk(s.graph, m.layers)
    ensures var r := Epoch(s, m, inputs, targets, tanh, flip);
      r.Ok? ==> && (forall k | 0 <= k < |s.graph| && k !in MlpParams(m.layers) :: r.value.graph[k] == s.graph[k])
                && (forall k | 0 <= k < |s.graph| :: r.value.graph[k].op == s.graph[k].op)
  {
    var r := Epoch(s, m, inputs, targets, tanh, flip);
    EpochUnfold(s, m, inputs, targets, tanh, flip);
    if r.Ok? {
      var l := Forward(s.graph, m, inputs, targets, tanh).value;
      var ps := MlpParams(m.layers);
      var F := Backward(l.graph, l.out, Cleared(s, l.graph, ps), flip).value;
      forall k | 0 <= k < |s.graph| && k !in ps
        ensures r.value.graph[k] == s.graph[k]
      {
        OccurrencesCount(ps, k);
        assert r.value.graph[k].data == Moved(l.graph[k].data, 0, Nudge(F[k]));
      }
    }
  }


  /** The gradient descent step: every parameter (each listed once, as the
      constructor lists them) moves by -0.1 times its gradient, and the
      gradients are those `backward` computes from the loss, starting from
      the cleared slots. */
  lemma EpochStep(s: Session, m: Mlp, inputs: seq<seq<real>>, targets: seq<real>, tanh: real -> real, flip: nat -> bool, p: nat)
    requires SessionOk(s) && MlpOk(s.graph, m.layers)
    requires Distinct(MlpParams(m.layers)) && p in MlpParams(m.layers)
    ensures var r := Epoch(s, m, inputs, targets, tanh, flip);
      r.Ok? ==> && p < |s.graph|
                && Forward(s.graph, m, inputs, targets, tanh).Ok?
                && var l := Forward(s.graph, m, inputs, targets, tanh).value;
                   && Backward(l.graph, l.out, Cleared(s, l.graph, MlpParams(m.layers)), flip).Ok?
                   && r.value.grads == Backward(l.graph, l.out, Cleared(s, l.graph, MlpParams(m.layers)), flip).value
                   && r.value.graph[p].data == s.graph[p].data - LearningRate * r.value.grads[p]
  {
    var r := Epoch(s, m, inputs, targets, tanh, flip);
    EpochUnfold(s, m, inputs, targets, tanh, flip);
    if r.Ok? {
      ParamsIn(s.graph, m.layers);
      var l := Forward(s.graph, m, inputs, targets, tanh).value;
      OccurrencesCount(MlpParams(m.layers), p);
      assert r.value.graph[p].data == Moved(l.graph[p].data, 1, Nudge(r.value.grads[p]));
      MovedOnceByNudge(l.graph[p].data, r.value.grads[p]);
    }
  }

  /** One move by the update of nn.py:70 is `data - 0.1 * gradient`. */
  lemma MovedOnceByNudge(data: real, gradient: real)
    ensures Moved(data, 1, Nudge(gradient)) == data - LearningRate * gradient
  {
  }

  /** A parameter the loss does not depend on keeps its value: `zero_grad`
      cleared its slot and `backward` never reaches it. */
  lemma EpochUnreached(s: Session, m: Mlp, inputs: seq<seq<real>>, targets: seq<real>, tanh: real -> real, flip: nat -> bool, p: nat)
    requires SessionOk(s) && MlpOk(s.graph, m.layers) && p in MlpParams(m.layers)
    ensures var r := Epoch(s, m, inputs, targets, tanh, flip);
      r.Ok? ==> && p < |s.graph|
                && Forward(s.graph, m, inputs, targets, tanh).Ok?
                && var l := Forward(s.graph, m, inputs, targets, tanh).value;
                   (p !in Reach(l.graph, l.out) ==> r.value.grads[p] == 0.0 && r.value.graph[p] == s.graph[p])
  {
    var r := Epoch(s, m, inputs, targets, tanh, flip);
    EpochUnfold(s, m, inputs, targets, tanh, flip);
    if r.Ok? {
      ParamsIn(s.graph, m.layers);
      var l := Forward(s.graph, m, inputs, targets, tanh).value;
      if p !in Reach(l.graph, l.out) {
        assert r.value.grads[p] == 0.0;
        assert r.value.graph[p].data == Moved(l.graph[p].data, Occurrences(MlpParams(m.layers), p), Nudge(0.0));
      }
    }
  }
}
