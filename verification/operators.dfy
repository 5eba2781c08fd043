/**
  The graph builder: each operator of `Value` appends a fresh output node
  that records its operands, after lifting a bare number operand to a fresh
  leaf. The output's forward value is the ordinary arithmetic result; its
  local derivative rule lives in `Backprop`, dispatched on the node's `Op`.
 */
module Operators {
  import opened Arena

  /** The index the right operand ends up at: the node itself, or the leaf
      that lifting a number appends at the end of `g`. */
  function OperandId(g: Graph, x: Arg): nat
  {
    if x.Ref? then x.id else |g|
  }

  function Fresh(x: Arg): nat
  {
    if x.Number? then 1 else 0
  }

  /** `other if isinstance(other, Value) else Value(other)`. */
  function Lift(g: Graph, x: Arg): (r: Built)
    requires ArgOk(g, x)
    ensures Extends(g, r.graph) && |r.graph| == |g| + Fresh(x)
    ensures r.out == OperandId(g, x) && r.out < |r.graph|
    ensures r.graph[r.out].data == ArgValue(g, x)
    ensures x.Number? ==> r.graph[r.out].op == Leaf
    ensures Acyclic(g) ==> Acyclic(r.graph)
  {
    match x
    case Number(v) => Built(g + [Node(v, Leaf)], |g|)
    case Ref(j) => Built(g, j)
  }

  /** The facts every binary operator promises about the arena it returns. */
  predicate BinaryShape(g: Graph, i: nat, other: Arg, r: Built)
    requires i < |g| && ArgOk(g, other)
  {
    && Acyclic(r.graph)
    && Extends(g, r.graph)
    && |r.graph| == |g| + Fresh(other) + 1
    && r.out == |r.graph| - 1
    && (other.Number? ==> r.graph[|g|] == Node(other.x, Leaf))
  }

  /** `self + other` (value.py `__add__`). */
  function Add(g: Graph, i: nat, other: Arg): (r: Built)
    requires Acyclic(g) && i < |g| && ArgOk(g, other)
    ensures BinaryShape(g, i, other, r)
    ensures r.graph[r.out].op == AddOp(i, OperandId(g, other))
    ensures r.graph[r.out].data == g[i].data + ArgValue(g, other)
  {
    var l := Lift(g, other);
    Built(l.graph + [Node(l.graph[i].data + l.graph[l.out].data, AddOp(i, l.out))], |l.graph|)
  }

  /** `x + self` for a bare number `x` (value.py `__radd__`): the same node
      as `self + x`, so the number becomes the right operand. */
  function RAdd(g: Graph, x: real, i: nat): (r: Built)
    requires Acyclic(g) && i < |g|
    ensures BinaryShape(g, i, Number(x), r)
    ensures r.graph[r.out].op == AddOp(i, |g|)
    ensures r.graph[r.out].data == x + g[i].data
  {
    Add(g, i, Number(x))
  }

  /** `self * other` (value.py `__mul__`). */
  function Mul(g: Graph, i: nat, other: Arg): (r: Built)
    requires Acyclic(g) && i < |g| && ArgOk(g, other)
    ensures BinaryShape(g, i, other, r)
    ensures r.graph[r.out].op == MulOp(i, OperandId(g, other))
    ensures r.graph[r.out].data == g[i].data * ArgValue(g, other)
  {
    var l := Lift(g, other);
    Built(l.graph + [Node(l.graph[i].data * l.graph[l.out].data, MulOp(i, l.out))], |l.graph|)
  }

  /** `x * self` for a bare number `x` (value.py `__rmul__`). */
  function RMul(g: Graph, x: real, i: nat): (r: Built)
    requires Acyclic(g) && i < |g|
    ensures BinaryShape(g, i, Number(x), r)
    ensures r.graph[r.out].op == MulOp(i, |g|)
    ensures r.graph[r.out].data == x * g[i].data
  {
    Mul(g, i, Number(x))
  }

  predicate IsInteger(x: real)
  {
    x.Floor as real == x
  }

  /** `self ** other` (value.py `__pow__`): the exponent must be a number,
      and a zero base cannot take a negative power. */
  function Pow(g: Graph, i: nat, e: Arg): (r: Result<Built>)
    requires Acyclic(g) && i < |g|
    ensures r.Err? <==> e.Ref? || !IsInteger(e.x) || (g[i].data == 0.0 && e.x < 0.0)
    ensures e.Ref? ==> r == Err(ExponentNotNumber)
    ensures r.Ok? ==> && Acyclic(r.value.graph)
                      && Extends(g, r.value.graph)
                      && |r.value.graph| == |g| + 1
                      && r.value.out == |g|
                      && r.value.graph[|g|].op == PowOp(i, e.x.Floor)
                      && (g[i].data != 0.0 || e.x.Floor >= 0)
                      && r.value.graph[|g|].data == RealPow(g[i].data, e.x.Floor)
  {
    if e.Ref? then Err(ExponentNotNumber)
    else if !IsInteger(e.x) then Err(NonIntegerExponent)
    else
      var n := e.x.Floor;
      if g[i].data == 0.0 && n < 0 then Err(ZeroToNegativePower)
      else Ok(Built(g + [Node(RealPow(g[i].data, n), PowOp(i, n))], |g|))
  }

  /** `self / other` (value.py `__truediv__`), written as `self * other ** -1`.
      A number divisor is inverted as a number; a node divisor gets a
      `** -1` node. There is no division rule of its own. */
  function Div(g: Graph, i: nat, other: Arg): (r: Result<Built>)
    requires Acyclic(g) && i < |g| && ArgOk(g, other)
    ensures r.Err? <==> ArgValue(g, other) == 0.0
    ensures r.Err? ==> r.error == ZeroToNegativePower
    ensures r.Ok? ==> && Acyclic(r.value.graph)
                      && Extends(g, r.value.graph)
                      && r.value.out == |r.value.graph| - 1
                      && r.value.graph[r.value.out].data == g[i].data / ArgValue(g, other)
    ensures r.Ok? && other.Ref? ==>
              && |r.value.graph| == |g| + 2
              && r.value.graph[|g|].op == PowOp(other.id, -1)
              && r.value.graph[r.value.out].op == MulOp(i, |g|)
    ensures r.Ok? && other.Number? ==>
              && |r.value.graph| == |g| + 2
              && r.value.graph[|g|] == Node(1.0 / other.x, Leaf)
              && r.value.graph[r.value.out].op == MulOp(i, |g|)
  {
    match other
    case Number(x) =>
      if x == 0.0 then Err(ZeroToNegativePower) else Ok(DivNumber(g, i, x))
    case Ref(j) => DivNode(g, i, j)
  }

  /** `self * other ** -1` for a nonzero number: `other ** -1` is computed
      on numbers and lifted to a leaf. */
  function DivNumber(g: Graph, i: nat, x: real): (r: Built)
    requires Acyclic(g) && i < |g| && x != 0.0
    ensures Acyclic(r.graph) && Extends(g, r.graph)
    ensures |r.graph| == |g| + 2 && r.out == |g| + 1
    ensures r.graph[|g|] == Node(1.0 / x, Leaf)
    ensures r.graph[r.out] == Node(g[i].data / x, MulOp(i, |g|))
  {
    RealPowInverse(x);
    Mul(g, i, Number(RealPow(x, -1)))
  }

  /** `self * other ** -1` for a node `other`: a `** -1` node, then the product. */
  function DivNode(g: Graph, i: nat, j: nat): (r: Result<Built>)
    requires Acyclic(g) && i < |g| && j < |g|
    ensures r.Err? <==> g[j].data == 0.0
    ensures r.Err? ==> r.error == ZeroToNegativePower
    ensures r.Ok? ==> && Acyclic(r.value.graph) && Extends(g, r.value.graph)
                      && |r.value.graph| == |g| + 2 && r.value.out == |g| + 1
                      && r.value.graph[|g|] == Node(1.0 / g[j].data, PowOp(j, -1))
                      && r.value.graph[r.value.out] == Node(g[i].data / g[j].data, MulOp(i, |g|))
  {
    var p := Pow(g, j, Number(-1.0));
    if p.Err? then Err(p.error)
    else
      RealPowInverse(g[j].data);
      Ok(Mul(p.value.graph, i, Ref(p.value.out)))
  }

  /** `self - other` (value.py `__sub__`), written as `self + (-other)`.
      `Value` has no unary minus, so only a number can be subtracted. */
  function Sub(g: Graph, i: nat, other: Arg): (r: Result<Built>)
    requires Acyclic(g) && i < |g| && ArgOk(g, other)
    ensures r.Err? <==> other.Ref?
    ensures r.Err? ==> r.error == NegateValue
    ensures r.Ok? ==> && BinaryShape(g, i, Number(-other.x), r.value)
                      && r.value.graph[r.value.out].op == AddOp(i, |g|)
                      && r.value.graph[r.value.out].data == g[i].data - other.x
  {
    match other
    case Number(x) => Ok(Add(g, i, Number(-x)))
    case Ref(_) => Err(NegateValue)
  }

  /** `self.tanh()`. The exact hyperbolic tangent is the parameter `tanh`
      (value.py computes it through `exp` in floating point). */
  function Tanh(g: Graph, i: nat, tanh: real -> real): (r: Built)
    requires Acyclic(g) && i < |g|
    ensures Acyclic(r.graph) && Extends(g, r.graph)
    ensures |r.graph| == |g| + 1 && r.out == |g|
    ensures r.graph[r.out] == Node(tanh(g[i].data), TanhOp(i))
  {
    Built(g + [Node(tanh(g[i].data), TanhOp(i))], |g|)
  }
}
