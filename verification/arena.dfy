/**
  The data model of the autodiff engine: every scalar `Value` lives in an
  append-only arena, and a node refers to its operands by their arena index.
  A node is only ever built from nodes that already exist, so every operand
  index is smaller than the index of its consumer and the operand relation
  is acyclic by construction.
 */
module Arena {

  /** How a node was produced. `Leaf` is a constant, input or parameter;
      the others record their operand indices (and the constant exponent). */
  datatype Op =
    | Leaf
    | AddOp(a: nat, b: nat)
    | MulOp(a: nat, b: nat)
    | PowOp(a: nat, n: int)
    | TanhOp(a: nat)

  /** A scalar node: its forward value and how it was produced. Gradients are
      kept beside the arena, one slot per node. */
  datatype Node = Node(data: real, op: Op)

  type Graph = seq<Node>

  /** The right operand of an arithmetic operator: either an existing node or a
      bare number that the operator lifts to a fresh leaf. */
  datatype Arg = Number(x: real) | Ref(id: nat)

  /** The ways an operation of the engine or the network fails. */
  datatype Error =
    | ExponentNotNumber      // `**` given a Value as exponent
    | NonIntegerExponent     // a real, non-integer exponent (outside this model)
    | ZeroToNegativePower    // 0 raised to a negative power
    | NegateValue            // unary minus applied to a Value
    | NotIterable            // a layer fed a single Value instead of a list
    | ListMinusNumber        // a list of outputs minus a target number
    | LossNotValue           // the loss reduction had no terms, so it is a bare 0

  datatype Result<T> = Ok(value: T) | Err(error: Error)

  /** An operator's result: the grown arena and the index of the output node. */
  datatype Built = Built(graph: Graph, out: nat)

  /** The operand set of a node (duplicates collapse, as in a set of children):
      empty exactly for a leaf, the one operand of a unary node, and for a
      binary node a single operand exactly when both sides are the same value. */
  function Operands(op: Op): (r: set<nat>)
    ensures op.Leaf? <==> r == {}
    ensures (op.PowOp? || op.TanhOp?) ==> r == {op.a}
    ensures (op.AddOp? || op.MulOp?) ==> (r == {op.a} <==> op.a == op.b)
  {
    match op
    case Leaf => {}
    case AddOp(a, b) => {a, b}
    case MulOp(a, b) => {a, b}
    case PowOp(a, _) => {a}
    case TanhOp(a) => {a}
  }

  /** Every operand of `op` lies strictly below index `k`. */
  predicate OpBelow(op: Op, k: nat)
  {
    match op
    case Leaf => true
    case AddOp(a, b) => a < k && b < k
    case MulOp(a, b) => a < k && b < k
    case PowOp(a, _) => a < k
    case TanhOp(a) => a < k
  }

  predicate Acyclic(g: Graph)
  {
    forall k | 0 <= k < |g| :: OpBelow(g[k].op, k)
  }

  lemma OpBelowOperands(op: Op, k: nat, a: nat)
    requires OpBelow(op, k) && a in Operands(op)
    ensures a < k
  {
  }

  /** `g2` is `g` with nodes appended; nothing already in `g` changes. */
  predicate Extends(g: Graph, g2: Graph)
  {
    |g| <= |g2| && forall j | 0 <= j < |g| :: g2[j] == g[j]
  }

  predicate ArgOk(g: Graph, x: Arg)
  {
    x.Ref? ==> x.id < |g|
  }

  function ArgValue(g: Graph, x: Arg): real
    requires ArgOk(g, x)
  {
    match x
    case Number(v) => v
    case Ref(j) => g[j].data
  }

  lemma ArgValueExtends(g: Graph, g2: Graph, x: Arg)
    requires ArgOk(g, x) && Extends(g, g2)
    ensures ArgOk(g2, x) && ArgValue(g2, x) == ArgValue(g, x)
  {
  }

  /** Every `Value` starts with gradient 0 (value.py `__init__`). */
  function Zeros(n: nat): (z: seq<real>)
    ensures |z| == n && forall k | 0 <= k < n :: z[k] == 0.0
  {
    seq(n, _ => 0.0)
  }

  /** `x` raised to the integer power `n`, as Python's `**` computes it on
      exact reals. A zero base with a negative exponent is undefined (Python
      raises ZeroDivisionError). */
  function RealPow(x: real, n: int): (r: real)
    requires n >= 0 || x != 0.0
    ensures x != 0.0 ==> r != 0.0
    ensures x > 0.0 ==> r > 0.0
    decreases if n >= 0 then n else 1 - n
  {
    if n == 0 then 1.0
    else if n > 0 then x * RealPow(x, n - 1)
    else 1.0 / RealPow(x, -n)
  }

  lemma RealPowSquare(x: real)
    ensures RealPow(x, 2) == x * x
  {
    assert RealPow(x, 1) == x;
  }

  lemma RealPowInverse(x: real)
    requires x != 0.0
    ensures RealPow(x, -1) == 1.0 / x
    ensures RealPow(x, -2) == 1.0 / (x * x)
  {
    assert RealPow(x, 1) == x;
    RealPowSquare(x);
  }

  /** The nodes reachable from `v` through operand links, `v` included. */
  function Reach(g: Graph, v: nat): (r: set<nat>)
    requires Acyclic(g) && v < |g|
    ensures v in r
    ensures forall u | u in r :: u <= v
    decreases v
  {
    assert OpBelow(g[v].op, v);
    match g[v].op
    case Leaf => {v}
    case AddOp(a, b) => {v} + Reach(g, a) + Reach(g, b)
    case MulOp(a, b) => {v} + Reach(g, a) + Reach(g, b)
    case PowOp(a, _) => {v} + Reach(g, a)
    case TanhOp(a) => {v} + Reach(g, a)
  }

  lemma ReachOperand(g: Graph, v: nat, a: nat)
    requires Acyclic(g) && v < |g| && a in Operands(g[v].op)
    ensures a < v && Reach(g, a) <= Reach(g, v)
  {
    assert OpBelow(g[v].op, v);
  }
}
