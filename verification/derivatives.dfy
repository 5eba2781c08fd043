/**
  End-to-end derivatives: small expressions built with the operators and
  differentiated with `backward` from fresh (zero) gradients. Division and
  subtraction have no backward rule of their own; their derivatives come out
  of the Mul, Pow and Add rules they are built from.
 */
module Derivatives {
  import opened Arena
  import opened Operators
  import opened TopoSort
  import opened Backprop
  import opened Rules

  /** Every step reachable from the root can run. */
  predicate ReachDefined(g: Graph, root: nat)
    requires Acyclic(g) && root < |g|
  {
    forall j | 0 <= j < |g| && j in Reach(g, root) :: StepDefined(g, j)
  }

  /** When `c` is the only node reachable from the root that uses `k`, the
      gradient of `k` grows by exactly `c`'s local derivative times `c`'s
      final gradient. */
  lemma SoleConsumer(g: Graph, root: nat, grads: seq<real>, flip: nat -> bool, k: nat, c: nat)
    requires Acyclic(g) && root < |g| && |grads| == |g| && k < |g| && k != root
    requires ReachDefined(g, root)
    requires c in Reach(g, root) && k in Operands(g[c].op)
    requires forall j | 0 <= j < |g| && j in Reach(g, root) && j != c :: k !in Operands(g[j].op)
    ensures c < |g| && StepDefined(g, c)
    ensures Backward(g, root, grads, flip).Ok?
    ensures var F := Backward(g, root, grads, flip).value;
      F[k] == grads[k] + Contribution(g, c, k, F[c])
  {
    assert Backward(g, root, grads, flip).Ok?;
    var F := Backward(g, root, grads, flip).value;
    ConsumerSumSingle(g, Reach(g, root), k, c, F, |g|);
  }

  /** The same for an operand of the root itself, whose gradient is 1. */
  lemma RootOperand(g: Graph, root: nat, grads: seq<real>, flip: nat -> bool, k: nat)
    requires Acyclic(g) && root < |g| && |grads| == |g| && k < |g| && k != root
    requires ReachDefined(g, root) && k in Operands(g[root].op)
    requires forall j | 0 <= j < |g| && j in Reach(g, root) && j != root :: k !in Operands(g[j].op)
    ensures Backward(g, root, grads, flip).Ok?
    ensures Backward(g, root, grads, flip).value[k] == grads[k] + Gain(g, root, k)
  {
    SoleConsumer(g, root, grads, flip, k, root);
    var F := Backward(g, root, grads, flip).value;
    assert F[root] == 1.0;
    ContributionUnit(g, root, k);
    assert Contribution(g, root, k, F[root]) == Gain(g, root, k);
  }

  /** The arena of `x / y` for two leaves: `y ** -1`, then `x * (y ** -1)`. */
  function Quotient(x: real, y: real): Graph
    requires y != 0.0
  {
    [Node(x, Leaf), Node(y, Leaf), Node(1.0 / y, PowOp(1, -1)), Node(x / y, MulOp(0, 2))]
  }

  lemma QuotientBuilt(x: real, y: real)
    requires y != 0.0
    ensures Div([Node(x, Leaf), Node(y, Leaf)], 0, Ref(1)) == Ok(Built(Quotient(x, y), 3))
  {
    var d := Div([Node(x, Leaf), Node(y, Leaf)], 0, Ref(1));
    var h := d.value.graph;
    assert |h| == 4 && d.value.out == 3;
    assert h[0] == Node(x, Leaf) && h[1] == Node(y, Leaf);
    assert h[2] == Node(1.0 / y, PowOp(1, -1)) && h[3] == Node(x / y, MulOp(0, 2));
    assert h == Quotient(x, y);
  }

  lemma QuotientShape(x: real, y: real)
    requires y != 0.0
    ensures var h := Quotient(x, y);
      && Acyclic(h) && Reach(h, 3) == {0, 1, 2, 3} && Reach(h, 2) == {1, 2}
      && ReachDefined(h, 3)
  {
    var h := Quotient(x, y);
    assert Acyclic(h);
    assert Reach(h, 0) == {0} && Reach(h, 1) == {1};
    assert Reach(h, 2) == {1, 2};
    assert Reach(h, 3) == {0, 1, 2, 3};
  }

  /** The gradient of `y ** -1` in `x / y` is `x`. */
  lemma QuotientInverse(x: real, y: real, flip: nat -> bool)
    requires y != 0.0
    ensures var r := Backward(Quotient(x, y), 3, [0.0, 0.0, 0.0, 0.0], flip);
      r.Ok? && r.value[2] == x
  {
    var h := Quotient(x, y);
    QuotientShape(x, y);
    MulGain(h, 3);
    RootOperand(h, 3, [0.0, 0.0, 0.0, 0.0], flip, 2);
  }

  /** The gradient of `x` in `x / y` is `1 / y`. */
  lemma QuotientNumerator(x: real, y: real, flip: nat -> bool)
    requires y != 0.0
    ensures var r := Backward(Quotient(x, y), 3, [0.0, 0.0, 0.0, 0.0], flip);
      r.Ok? && r.value[0] == 1.0 / y
  {
    var h := Quotient(x, y);
    QuotientShape(x, y);
    MulGain(h, 3);
    RootOperand(h, 3, [0.0, 0.0, 0.0, 0.0], flip, 0);
  }

  /** The gradient of `y` in `x / y` is `-x / y^2`: the Pow rule at
      exponent -1 times the gradient `x` of `y ** -1`. */
  lemma QuotientDenominator(x: real, y: real, flip: nat -> bool)
    requires y != 0.0
    ensures var r := Backward(Quotient(x, y), 3, [0.0, 0.0, 0.0, 0.0], flip);
      r.Ok? && r.value[1] == -x / (y * y)
  {
    QuotientChain(x, y, flip);
    QuotientInverseSlope(x, y);
  }

  /** `y` is used only by `y ** -1`, whose own gradient is `x`. */
  lemma QuotientChain(x: real, y: real, flip: nat -> bool)
    requires y != 0.0
    ensures var r := Backward(Quotient(x, y), 3, [0.0, 0.0, 0.0, 0.0], flip);
      r.Ok? && r.value[1] == Contribution(Quotient(x, y), 2, 1, x)
  {
    var h := Quotient(x, y);
    QuotientShape(x, y);
    assert forall j | 0 <= j < |h| && j in Reach(h, 3) && j != 2 :: 1 !in Operands(h[j].op);
    QuotientInverse(x, y, flip);
    SoleConsumer(h, 3, [0.0, 0.0, 0.0, 0.0], flip, 1, 2);
  }

  lemma QuotientInverseSlope(x: real, y: real)
    requires y != 0.0
    ensures Contribution(Quotient(x, y), 2, 1, x) == -x / (y * y)
  {
    var h := Quotient(x, y);
    assert Acyclic(h);
    PowGain(h, 2);
    InverseSlope(h, 2, 1, y, x);
  }

  /** `x / y` for leaves `x` and `y`: d/dx = 1/y and d/dy = -x/y^2. */
  lemma DivGradients(x: real, y: real, flip: nat -> bool)
    requires y != 0.0
    ensures var d := Div([Node(x, Leaf), Node(y, Leaf)], 0, Ref(1));
      && d.Ok?
      && var r := Backward(d.value.graph, d.value.out, [0.0, 0.0, 0.0, 0.0], flip);
         r.Ok? && r.value[0] == 1.0 / y && r.value[1] == -x / (y * y)
  {
    QuotientBuilt(x, y);
    QuotientNumerator(x, y, flip);
    QuotientDenominator(x, y, flip);
  }

  lemma ContributionUnit(g: Graph, c: nat, k: nat)
    requires Acyclic(g) && c < |g| && StepDefined(g, c)
    ensures Contribution(g, c, k, 1.0) == Gain(g, c, k)
  {
  }

  /** The chain-rule term of a `** -1` node with gradient `out`. */
  lemma InverseSlope(g: Graph, c: nat, a: nat, y: real, out: real)
    requires Acyclic(g) && c < |g| && a < |g| && g[c].op == PowOp(a, -1) && g[a].data == y && y != 0.0
    requires Gain(g, c, a) == PowSlope(y, -1)
    ensures Contribution(g, c, a, out) == -out / (y * y)
  {
    RealPowInverse(y);
  }

  /** `x ** 2` for a leaf `x`: d/dx = 2x. */
  lemma SquareGradient(g: Graph, i: nat, flip: nat -> bool)
    requires Acyclic(g) && i < |g| && g[i].op == Leaf
    ensures var s := Pow(g, i, Number(2.0));
      && s.Ok?
      && var h := s.value.graph;
         var r := Backward(h, s.value.out, Zeros(|h|), flip);
         r.Ok? && r.value[i] == 2.0 * g[i].data
  {
    var s := Pow(g, i, Number(2.0));
    assert IsInteger(2.0);
    var h, c := s.value.graph, s.value.out;
    assert Backward(h, c, Zeros(|h|), flip).Ok? && Backward(h, c, Zeros(|h|), flip).value[i] == Gain(h, c, i) by {
      assert Reach(h, i) == {i};
      assert Reach(h, c) == {c, i};
      PowGain(h, c);
      RootOperand(h, c, Zeros(|h|), flip, i);
    }
    assert Gain(h, c, i) == 2.0 * g[i].data by {
      PowGain(h, c);
      assert RealPow(g[i].data, 1) == g[i].data;
    }
  }

  /** `x * x` for a leaf `x`: both `+=` of the Mul step land on `x`, so
      d/dx = 2x although `x` is one element of the operand set. */
  lemma SelfProductGradient(g: Graph, i: nat, flip: nat -> bool)
    requires Acyclic(g) && i < |g| && g[i].op == Leaf
    ensures var s := Mul(g, i, Ref(i));
      var h := s.graph;
      var r := Backward(h, s.out, Zeros(|h|), flip);
      r.Ok? && r.value[i] == 2.0 * g[i].data
  {
    var s := Mul(g, i, Ref(i));
    var h, c := s.graph, s.out;
    assert Reach(h, i) == {i};
    assert Reach(h, c) == {c, i};
    MulGain(h, c);
    SoleConsumer(h, c, Zeros(|h|), flip, i, c);
  }

  /** `x + x` for a leaf `x`: d/dx = 2. */
  lemma SelfSumGradient(g: Graph, i: nat, flip: nat -> bool)
    requires Acyclic(g) && i < |g| && g[i].op == Leaf
    ensures var s := Add(g, i, Ref(i));
      var h := s.graph;
      var r := Backward(h, s.out, Zeros(|h|), flip);
      r.Ok? && r.value[i] == 2.0
  {
    var s := Add(g, i, Ref(i));
    var h, c := s.graph, s.out;
    assert Reach(h, i) == {i};
    assert Reach(h, c) == {c, i};
    AddGain(h, c);
    SoleConsumer(h, c, Zeros(|h|), flip, i, c);
  }

  /** The arena of `x - y` for a leaf `x` and a number `y`: the leaf
      `-y`, then `x + (-y)`. */
  function Difference(x: real, y: real): Graph
  {
    [Node(x, Leaf), Node(-y, Leaf), Node(x + -y, AddOp(0, 1))]
  }

  lemma DifferenceBuilt(x: real, y: real)
    ensures Sub([Node(x, Leaf)], 0, Number(y)) == Ok(Built(Difference(x, y), 2))
  {
    var s := Sub([Node(x, Leaf)], 0, Number(y));
    var h := s.value.graph;
    assert |h| == 3 && s.value.out == 2;
    assert h[0] == Node(x, Leaf) && h[1] == Node(-y, Leaf) && h[2] == Node(x + -y, AddOp(0, 1));
    assert h == Difference(x, y);
  }

  lemma DifferenceShape(x: real, y: real)
    ensures var h := Difference(x, y);
      && Acyclic(h) && ReachDefined(h, 2)
      && (forall j | 0 <= j < |h| && j in Reach(h, 2) && j != 2 :: 0 !in Operands(h[j].op))
      && (forall j | 0 <= j < |h| && j in Reach(h, 2) && j != 2 :: 1 !in Operands(h[j].op))
  {
    var h := Difference(x, y);
    assert Acyclic(h);
    assert Reach(h, 0) == {0} && Reach(h, 1) == {1};
    assert Reach(h, 2) == {2, 0, 1};
  }

  /** The gradient of one operand of `x - y`, found by the Add rule. */
  lemma DifferenceOperand(x: real, y: real, flip: nat -> bool, k: nat)
    requires k < 2
    ensures var r := Backward(Difference(x, y), 2, [0.0, 0.0, 0.0], flip);
      r.Ok? && r.value[k] == 1.0
  {
    var h := Difference(x, y);
    DifferenceShape(x, y);
    AddGain(h, 2);
    RootOperand(h, 2, [0.0, 0.0, 0.0], flip, k);
  }

  /** `x - y` for a leaf `x` and a number `y`: subtraction adds the
      number's negation as a fresh leaf, and both derivatives, 1, come from
      the Add rule. */
  lemma SubGradient(x: real, y: real, flip: nat -> bool)
    ensures var s := Sub([Node(x, Leaf)], 0, Number(y));
      && s.Ok?
      && var r := Backward(s.value.graph, s.value.out, [0.0, 0.0, 0.0], flip);
         r.Ok? && r.value[0] == 1.0 && r.value[1] == 1.0
  {
    DifferenceBuilt(x, y);
    DifferenceOperand(x, y, flip, 0);
    DifferenceOperand(x, y, flip, 1);
  }

  /** `tanh(x)` for a leaf `x`: d/dx = 1 - t^2 with `t` the output. */
  lemma TanhGradient(x: real, tanh: real -> real, flip: nat -> bool)
    ensures var s := Tanh([Node(x, Leaf)], 0, tanh);
      var r := Backward(s.graph, s.out, [0.0, 0.0], flip);
      var t := tanh(x);
      r.Ok? && r.value[0] == 1.0 - t * t
  {
    var t := tanh(x);
    var h := [Node(x, Leaf), Node(t, TanhOp(0))];
    assert Tanh([Node(x, Leaf)], 0, tanh) == Built(h, 1);
    assert Backward(h, 1, [0.0, 0.0], flip).Ok? && Backward(h, 1, [0.0, 0.0], flip).value[0] == TanhSlope(t) by {
      assert Reach(h, 0) == {0};
      assert Reach(h, 1) == {1, 0};
      TanhGain(h, 1);
      SoleConsumer(h, 1, [0.0, 0.0], flip, 0, 1);
      ContributionUnit(h, 1, 0);
    }
    TanhSlopeIs(t);
  }

  lemma TanhSlopeIs(t: real)
    ensures TanhSlope(t) == 1.0 - t * t
  {
  }

  /** The arena of `(x * 2) * 3` for a leaf `x`, with leaves for the
      constants 2 and 3. */
  function Chain(x: real): Graph
  {
    [Node(x, Leaf), Node(2.0, Leaf), Node(x * 2.0, MulOp(0, 1)), Node(3.0, Leaf), Node(x * 2.0 * 3.0, MulOp(2, 3))]
  }

  /** `x * 2` and then `* 3` on a lone leaf build exactly `Chain(x)`. */
  lemma ChainBuilt(x: real)
    ensures var m := Mul([Node(x, Leaf)], 0, Number(2.0));
      Mul(m.graph, m.out, Number(3.0)) == Built(Chain(x), 4)
  {
    var m := Mul([Node(x, Leaf)], 0, Number(2.0));
    assert m.graph == Chain(x)[..3] && m.out == 2;
    assert Chain(x)[..3] + [Node(3.0, Leaf), Node(x * 2.0 * 3.0, MulOp(2, 3))] == Chain(x);
  }

  lemma ChainShape(x: real)
    ensures var h := Chain(x);
      && Acyclic(h) && ReachDefined(h, 4) && 2 in Reach(h, 4)
      && (forall j | 0 <= j < |h| && j in Reach(h, 4) && j != 4 :: 2 !in Operands(h[j].op))
      && (forall j | 0 <= j < |h| && j in Reach(h, 4) && j != 2 :: 0 !in Operands(h[j].op))
  {
    var h := Chain(x);
    assert Acyclic(h);
    assert Reach(h, 0) == {0} && Reach(h, 1) == {1} && Reach(h, 3) == {3};
    assert Reach(h, 2) == {2, 0, 1};
    assert Reach(h, 4) == {4, 2, 0, 1, 3};
  }

  /** Whatever the gradients held before, a pass from the root of the chain
      adds 3 to the gradient of `x * 2` and twice the new gradient of
      `x * 2` to the gradient of `x`. */
  lemma ChainGradients(x: real, grads: seq<real>, flip: nat -> bool) returns (F: seq<real>)
    requires |grads| == 5
    ensures Backward(Chain(x), 4, grads, flip) == Ok(F)
    ensures |F| == 5 && F[2] == grads[2] + 3.0 && F[0] == grads[0] + 2.0 * F[2]
  {
    ChainProduct(x, grads, flip);
    F := Backward(Chain(x), 4, grads, flip).value;
    ChainLeaf(x, grads, flip);
    ChainSlope(x, F[2]);
  }

  /** The gradient of `x * 2` grows by 3. */
  lemma ChainProduct(x: real, grads: seq<real>, flip: nat -> bool)
    requires |grads| == 5
    ensures Acyclic(Chain(x))
    ensures var r := Backward(Chain(x), 4, grads, flip);
      r.Ok? && r.value[2] == grads[2] + 3.0
  {
    var h := Chain(x);
    ChainShape(x);
    MulGain(h, 4);
    RootOperand(h, 4, grads, flip, 2);
  }

  /** `x` is used only by `x * 2`. */
  lemma ChainLeaf(x: real, grads: seq<real>, flip: nat -> bool)
    requires |grads| == 5
    ensures Acyclic(Chain(x)) && StepDefined(Chain(x), 2)
    ensures var r := Backward(Chain(x), 4, grads, flip);
      r.Ok? && r.value[0] == grads[0] + Contribution(Chain(x), 2, 0, r.value[2])
  {
    ChainShape(x);
    SoleConsumer(Chain(x), 4, grads, flip, 0, 2);
  }

  /** The Mul rule at `x * 2` sends twice its gradient to `x`. */
  lemma ChainSlope(x: real, out: real)
    ensures Acyclic(Chain(x)) && StepDefined(Chain(x), 2)
    ensures Contribution(Chain(x), 2, 0, out) == 2.0 * out
  {
    var h := Chain(x);
    assert Acyclic(h);
    MulGain(h, 2);
  }

  /** A second `backward` without zeroing the gradients in between does not
      double them: the first pass from fresh gradients gives `x` the
      gradient 6 and the second 18, three times as much, because the
      root's gradient is overwritten with 1 while the stale gradient 3 of
      `x * 2` is added to. */
  lemma SecondBackward(x: real, flip: nat -> bool)
    ensures var r1 := Backward(Chain(x), 4, Zeros(5), flip);
      && r1.Ok? && r1.value[0] == 6.0
      && var r2 := Backward(Chain(x), 4, r1.value, flip);
         && r2.Ok? && r2.value[0] == 18.0 && r2.value[0] != 2.0 * r1.value[0]
  {
    var F1 := ChainGradients(x, Zeros(5), flip);
    var F2 := ChainGradients(x, F1, flip);
  }
}
