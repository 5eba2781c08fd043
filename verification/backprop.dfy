/**
  The reverse-mode scheduler: each node's `_backward` step, dispatched on its
  `Op`, and `Value.backward`, which seeds the root gradient with 1 and runs
  the steps over the topological list from its end to its start.
  Gradients are a sequence with one slot per arena node.
 */
module Backprop {
  import opened Arena
  import opened TopoSort

  /** One `+=` of a step: `factor * out.gradient` goes into operand `to`. */
  datatype Partial = Partial(to: nat, factor: real)

  /** A Pow step evaluates `x ** (n - 1)`, which Python refuses for a zero
      base and a negative power; every other step always runs. */
  predicate StepDefined(g: Graph, c: nat)
    requires c < |g|
  {
    match g[c].op
    case PowOp(a, n) => n >= 1 || (a < |g| && g[a].data != 0.0)
    case _ => true
  }

  /** The `+=` statements of node `c`'s `_backward`, in order, each with
      its local derivative. A repeated operand gets two entries. */
  function LocalDerivs(g: Graph, c: nat): (ps: seq<Partial>)
    requires Acyclic(g) && c < |g| && StepDefined(g, c)
    ensures forall j | 0 <= j < |ps| :: ps[j].to < c && ps[j].to in Operands(g[c].op)
  {
    assert OpBelow(g[c].op, c);
    match g[c].op
    case Leaf => []
    case AddOp(a, b) => [Partial(a, 1.0), Partial(b, 1.0)]
    case MulOp(a, b) => [Partial(a, g[b].data), Partial(b, g[a].data)]
    case PowOp(a, n) => [Partial(a, PowSlope(g[a].data, n))]
    case TanhOp(a) => [Partial(a, TanhSlope(g[c].data))]
  }

  /** d(x ** n)/dx = n * x ** (n - 1). */
  function PowSlope(x: real, n: int): real
    requires n >= 1 || x != 0.0
  {
    n as real * RealPow(x, n - 1)
  }

  /** d(tanh x)/dx = 1 - t * t, written with the output `t = tanh x`. */
  function TanhSlope(t: real): real
  {
    1.0 - t * t
  }

  /** The total local derivative that the entries `ps` assign to node `k`. */
  function Share(ps: seq<Partial>, k: nat): real
  {
    if |ps| == 0 then 0.0
    else (if ps[0].to == k then ps[0].factor else 0.0) + Share(ps[1..], k)
  }

  lemma {:induction false} ShareOutside(ps: seq<Partial>, k: nat)
    requires forall j | 0 <= j < |ps| :: ps[j].to != k
    ensures Share(ps, k) == 0.0
  {
    if |ps| > 0 {
      ShareOutside(ps[1..], k);
    }
  }

  /** What the `+=` statements `ps` add to slot `k` when the output's
      gradient is `out`. */
  function Added(ps: seq<Partial>, k: nat, out: real): real
  {
    if |ps| == 0 then 0.0
    else (if ps[0].to == k then ps[0].factor * out else 0.0) + Added(ps[1..], k, out)
  }

  /** What the statements add is the slot's share of the factors times `out`. */
  lemma {:induction false} AddedShare(ps: seq<Partial>, k: nat, out: real)
    ensures Added(ps, k, out) == Share(ps, k) * out
    decreases |ps|
  {
    if |ps| > 0 {
      AddedShare(ps[1..], k, out);
      var a := if ps[0].to == k then ps[0].factor else 0.0;
      Distribute(a, Share(ps[1..], k), out);
    }
  }

  lemma Distribute(a: real, b: real, c: real)
    ensures (a + b) * c == a * c + b * c
  {
  }

  /** Runs the `+=` statements `ps` with output gradient `out`: every slot
      grows by exactly what the statements aimed at it add. */
  function Accumulate(G: seq<real>, ps: seq<Partial>, out: real): (r: seq<real>)
    requires forall j | 0 <= j < |ps| :: ps[j].to < |G|
    ensures |r| == |G|
    ensures forall k | 0 <= k < |G| :: r[k] == G[k] + Added(ps, k, out)
    decreases |ps|
  {
    if |ps| == 0 then G
    else Accumulate(PlusEq(G, ps[0], out), ps[1..], out)
  }

  /** One `operand.grad += factor * out.grad`: only the operand's slot changes. */
  function PlusEq(G: seq<real>, p: Partial, out: real): (r: seq<real>)
    requires p.to < |G|
    ensures |r| == |G|
    ensures r[p.to] == G[p.to] + p.factor * out
    ensures forall k | 0 <= k < |G| && k != p.to :: r[k] == G[k]
  {
    G[p.to := G[p.to] + p.factor * out]
  }

  /** The local derivative of node `c` with respect to node `k`
      (zero when `k` is not an operand of `c`). */
  function Gain(g: Graph, c: nat, k: nat): real
    requires Acyclic(g) && c < |g| && StepDefined(g, c)
  {
    Share(LocalDerivs(g, c), k)
  }

  lemma GainOutside(g: Graph, c: nat, k: nat)
    requires Acyclic(g) && c < |g| && StepDefined(g, c) && k !in Operands(g[c].op)
    ensures Gain(g, c, k) == 0.0
  {
    ShareOutside(LocalDerivs(g, c), k);
  }

  /** What `c`'s step adds to the gradient of `k` when `c`'s own gradient
      is `out`. */
  function Contribution(g: Graph, c: nat, k: nat, out: real): real
    requires Acyclic(g) && c < |g| && StepDefined(g, c)
  {
    Gain(g, c, k) * out
  }

  lemma ContributionOutside(g: Graph, c: nat, k: nat, out: real)
    requires Acyclic(g) && c < |g| && StepDefined(g, c) && k !in Operands(g[c].op)
    ensures Contribution(g, c, k, out) == 0.0
  {
    GainOutside(g, c, k);
  }

  /** `c._backward()`: every gradient only grows by the local derivative
      times `c`'s own gradient; `c`'s own gradient is read, never written. */
  function Step(g: Graph, c: nat, G: seq<real>): (r: seq<real>)
    requires Acyclic(g) && c < |g| && StepDefined(g, c) && |G| == |g|
    ensures |r| == |g|
    ensures forall k | 0 <= k < |g| :: r[k] == G[k] + Contribution(g, c, k, G[c])
    ensures r[c] == G[c]
  {
    assert OpBelow(g[c].op, c);
    GainOutside(g, c, c);
    var ps := LocalDerivs(g, c);
    var r := Accumulate(G, ps, G[c]);
    assert forall k | 0 <= k < |g| :: r[k] == G[k] + Contribution(g, c, k, G[c]) by {
      forall k | 0 <= k < |g| ensures r[k] == G[k] + Contribution(g, c, k, G[c]) {
        AddedShare(ps, k, G[c]);
      }
    }
    r
  }

  /** The nodes of `t` are in the arena and their steps can run. */
  predicate Schedulable(g: Graph, t: seq<nat>)
  {
    && Acyclic(g)
    && (forall j | 0 <= j < |t| :: t[j] < |g|)
    && (forall j | 0 <= j < |t| :: StepDefined(g, t[j]))
  }

  /** No node of `t` has `k` as an operand. */
  predicate Untouched(g: Graph, t: seq<nat>, k: nat)
  {
    forall j | 0 <= j < |t| && t[j] < |g| :: k !in Operands(g[t[j]].op)
  }

  /** `for node in reversed(t): node._backward()`. A slot that no node of
      `t` has as an operand keeps its gradient. */
  function Propagate(g: Graph, t: seq<nat>, G: seq<real>): (r: seq<real>)
    requires Schedulable(g, t) && |G| == |g|
    ensures |r| == |g|
    ensures forall k | 0 <= k < |g| && Untouched(g, t, k) :: r[k] == G[k]
    decreases |t|
  {
    if |t| == 0 then G
    else
      var c := t[|t| - 1];
      var G1 := Step(g, c, G);
      var rest := t[..|t| - 1];
      var r := Propagate(g, rest, G1);
      assert forall k | 0 <= k < |g| && Untouched(g, t, k) :: r[k] == G[k] by {
        forall k | 0 <= k < |g| && Untouched(g, t, k)
          ensures r[k] == G[k]
        {
          assert Untouched(g, rest, k) by {
            forall j | 0 <= j < |rest| && rest[j] < |g|
              ensures k !in Operands(g[rest[j]].op)
            {
              assert rest[j] == t[j];
            }
          }
          ContributionOutside(g, c, k, G[c]);
        }
      }
      r
  }

  /** The sum, over the nodes of `t`, of the local derivative of each node
      with respect to `k` times that node's gradient in `F`. */
  function Inflow(g: Graph, t: seq<nat>, k: nat, F: seq<real>): real
    requires Schedulable(g, t) && |F| == |g|
    decreases |t|
  {
    if |t| == 0 then 0.0
    else Inflow(g, t[..|t| - 1], k, F) + Contribution(g, t[|t| - 1], k, F[t[|t| - 1]])
  }

  lemma {:induction false} InflowZero(g: Graph, t: seq<nat>, k: nat, F: seq<real>)
    requires Schedulable(g, t) && |F| == |g|
    requires forall j | 0 <= j < |t| :: k !in Operands(g[t[j]].op)
    ensures Inflow(g, t, k, F) == 0.0
    decreases |t|
  {
    if |t| > 0 {
      ContributionOutside(g, t[|t| - 1], k, F[t[|t| - 1]]);
      InflowZero(g, t[..|t| - 1], k, F);
    }
  }

  /** Only `c` among the nodes of `t` has `k` as an operand. */
  lemma {:induction false} InflowSingle(g: Graph, t: seq<nat>, k: nat, c: nat, F: seq<real>)
    requires Schedulable(g, t) && |F| == |g| && Distinct(t) && c in t
    requires forall j | 0 <= j < |t| && t[j] != c :: k !in Operands(g[t[j]].op)
    ensures c < |g| && StepDefined(g, c)
    ensures Inflow(g, t, k, F) == Contribution(g, c, k, F[c])
    decreases |t|
  {
    var last := t[|t| - 1];
    var rest := t[..|t| - 1];
    if last == c {
      assert forall j | 0 <= j < |rest| :: rest[j] != c;
      InflowZero(g, rest, k, F);
    } else {
      ContributionOutside(g, last, k, F[last]);
      assert c in rest;
      InflowSingle(g, rest, k, c, F);
    }
  }

  /** `x` is an operand of none of the nodes of `s`. */
  predicate Unused(g: Graph, x: nat, s: seq<nat>)
    requires forall j | 0 <= j < |s| :: s[j] < |g|
  {
    forall j | 0 <= j < |s| :: x !in Operands(g[s[j]].op)
  }

  /** No node of `t` is an operand of a node listed before it, so
      running `t` from its end runs every consumer before its operands. */
  predicate ConsumersLast(g: Graph, t: seq<nat>)
    requires forall j | 0 <= j < |t| :: t[j] < |g|
  {
    forall j | 0 <= j < |t| :: Unused(g, t[j], t[..j])
  }

  lemma ConsumersLastPrefix(g: Graph, t: seq<nat>)
    requires forall j | 0 <= j < |t| :: t[j] < |g|
    requires |t| > 0 && ConsumersLast(g, t)
    ensures ConsumersLast(g, t[..|t| - 1])
    ensures Unused(g, t[|t| - 1], t[..|t| - 1])
  {
    var rest := t[..|t| - 1];
    forall j | 0 <= j < |rest|
      ensures Unused(g, rest[j], rest[..j])
    {
      assert rest[..j] == t[..j];
      assert Unused(g, t[j], t[..j]);
    }
  }

  lemma TopoConsumersLast(g: Graph, t: seq<nat>)
    requires forall j | 0 <= j < |t| :: t[j] < |g|
    requires Distinct(t) && OperandsFirst(g, t)
    ensures ConsumersLast(g, t)
  {
    forall j | 0 <= j < |t|
      ensures Unused(g, t[j], t[..j])
    {
      forall i | 0 <= i < j
        ensures t[j] !in Operands(g[t[i]].op)
      {
        assert forall m | 0 <= m < i :: t[m] != t[j];
        assert t[j] !in t[..i];
      }
    }
  }

  /** The fold of steps from the end of `t` leaves gradient `k` equal to its
      start value plus the chain-rule sum over the consumers in `t`, each
      taken with its FINAL gradient. */
  lemma {:induction false} PropagateSums(g: Graph, t: seq<nat>, G: seq<real>, k: nat)
    requires Schedulable(g, t) && |G| == |g| && ConsumersLast(g, t) && k < |g|
    ensures var F := Propagate(g, t, G);
      F[k] == G[k] + Inflow(g, t, k, F)
    decreases |t|
  {
    if |t| > 0 {
      var c := t[|t| - 1];
      var rest := t[..|t| - 1];
      var G1 := Step(g, c, G);
      var F := Propagate(g, t, G);
      assert F == Propagate(g, rest, G1);
      ConsumersLastPrefix(g, t);
      PropagateSums(g, rest, G1, k);
      PropagateSums(g, rest, G1, c);
      InflowZero(g, rest, c, F);
      SumStep(F[k], G1[k], G[k], Contribution(g, c, k, G[c]), Contribution(g, c, k, F[c]),
              Inflow(g, rest, k, F), Inflow(g, t, k, F));
    }
  }

  /** The arithmetic of one step of `PropagateSums`. */
  lemma SumStep(fk: real, g1k: real, gk: real, early: real, late: real, rest: real, all: real)
    requires fk == g1k + rest && g1k == gk + early && early == late && all == rest + late
    ensures fk == gk + all
  {
  }

  /** Node `j`'s term of the sum for node `k`: zero unless `j` is one of the
      nodes `R` whose step is run. */
  function Term(g: Graph, R: set<nat>, k: nat, F: seq<real>, j: nat): real
    requires Acyclic(g) && |F| == |g| && j < |g|
  {
    if j in R && StepDefined(g, j) then Contribution(g, j, k, F[j]) else 0.0
  }

  /** The sum of the terms of nodes `0 .. n-1`. */
  function ConsumerSum(g: Graph, R: set<nat>, k: nat, F: seq<real>, n: nat): real
    requires Acyclic(g) && |F| == |g| && n <= |g|
    decreases n
  {
    if n == 0 then 0.0 else ConsumerSum(g, R, k, F, n - 1) + Term(g, R, k, F, n - 1)
  }

  lemma {:induction false} ConsumerSumEmpty(g: Graph, k: nat, F: seq<real>, n: nat)
    requires Acyclic(g) && |F| == |g| && n <= |g|
    ensures ConsumerSum(g, {}, k, F, n) == 0.0
    decreases n
  {
    if n > 0 {
      ConsumerSumEmpty(g, k, F, n - 1);
    }
  }

  /** Adding one more node `c` to `R` adds `c`'s term, if `c` is in range. */
  lemma {:induction false} ConsumerSumInsert(g: Graph, R: set<nat>, c: nat, k: nat, F: seq<real>, n: nat)
    requires Acyclic(g) && |F| == |g| && n <= |g| && c < |g| && c !in R && StepDefined(g, c)
    ensures ConsumerSum(g, R + {c}, k, F, n)
         == ConsumerSum(g, R, k, F, n) + (if c < n then Contribution(g, c, k, F[c]) else 0.0)
    decreases n
  {
    if n > 0 {
      ConsumerSumInsert(g, R, c, k, F, n - 1);
      if n - 1 == c {
        assert Term(g, R + {c}, k, F, c) == Contribution(g, c, k, F[c]);
        assert Term(g, R, k, F, c) == 0.0;
      } else {
        assert Term(g, R + {c}, k, F, n - 1) == Term(g, R, k, F, n - 1);
      }
    }
  }

  /** The chain-rule sum over a list of distinct nodes does not depend on
      the order of the list. */
  lemma {:induction false} InflowConsumerSum(g: Graph, t: seq<nat>, k: nat, F: seq<real>)
    requires Schedulable(g, t) && |F| == |g| && Distinct(t)
    ensures Inflow(g, t, k, F) == ConsumerSum(g, Elems(t), k, F, |g|)
    decreases |t|
  {
    if |t| == 0 {
      assert Elems(t) == {};
      ConsumerSumEmpty(g, k, F, |g|);
    } else {
      var c := t[|t| - 1];
      var rest := t[..|t| - 1];
      assert Elems(t) == Elems(rest) + {c};
      assert forall m | 0 <= m < |rest| :: rest[m] != c;
      assert c !in Elems(rest);
      InflowConsumerSum(g, rest, k, F);
      ConsumerSumInsert(g, Elems(rest), c, k, F, |g|);
    }
  }

  /** A sum in which no node uses `k` is zero. */
  lemma {:induction false} ConsumerSumNone(g: Graph, R: set<nat>, k: nat, F: seq<real>, n: nat)
    requires Acyclic(g) && |F| == |g| && n <= |g|
    requires forall j | 0 <= j < n && j in R :: k !in Operands(g[j].op)
    ensures ConsumerSum(g, R, k, F, n) == 0.0
    decreases n
  {
    if n > 0 {
      ConsumerSumNone(g, R, k, F, n - 1);
      if n - 1 in R && StepDefined(g, n - 1) {
        ContributionOutside(g, n - 1, k, F[n - 1]);
      }
    }
  }

  /** A sum in which only `c` uses `k` is `c`'s term. */
  lemma {:induction false} ConsumerSumSingle(g: Graph, R: set<nat>, k: nat, c: nat, F: seq<real>, n: nat)
    requires Acyclic(g) && |F| == |g| && c < n <= |g| && c in R && StepDefined(g, c)
    requires forall j | 0 <= j < n && j in R && j != c :: k !in Operands(g[j].op)
    ensures ConsumerSum(g, R, k, F, n) == Contribution(g, c, k, F[c])
    decreases n
  {
    if n - 1 == c {
      ConsumerSumNone(g, R, k, F, n - 1);
    } else {
      ConsumerSumSingle(g, R, k, c, F, n - 1);
      if n - 1 in R && StepDefined(g, n - 1) {
        ContributionOutside(g, n - 1, k, F[n - 1]);
      }
    }
  }

  predicate AllDefined(g: Graph, t: seq<nat>)
    requires forall j | 0 <= j < |t| :: t[j] < |g|
  {
    forall j | 0 <= j < |t| :: StepDefined(g, t[j])
  }

  /** `Value.backward` from node `root`, starting from gradients `grads`.
      On success every gradient reachable from the root, except the root's
      own, which is overwritten with 1, equals its start value plus the sum
      over its consumers of their local derivative times their final
      gradient; every other gradient is untouched. The call fails exactly
      when some reachable Pow step would raise ZeroDivisionError. */
  function Backward(g: Graph, root: nat, grads: seq<real>, flip: nat -> bool): (r: Result<seq<real>>)
    requires Acyclic(g) && root < |g| && |grads| == |g|
    ensures r.Ok? <==> forall k | 0 <= k <= root && k in Reach(g, root) :: StepDefined(g, k)
    ensures r.Err? ==> r.error == ZeroToNegativePower
    ensures r.Ok? ==> && |r.value| == |g|
                      && r.value[root] == 1.0
                      && (forall k {:trigger ConsumerSum(g, Reach(g, root), k, r.value, |g|)} | 0 <= k < |g| && k != root ::
                            r.value[k] == grads[k] + ConsumerSum(g, Reach(g, root), k, r.value, |g|))
                      && (forall k | 0 <= k < |g| && k !in Reach(g, root) :: r.value[k] == grads[k])
  {
    var t := Topo(g, root, flip);
    DefinedOnReach(g, root, t);
    if !AllDefined(g, t) then Err(ZeroToNegativePower)
    else
      BackwardSums(g, root, t, grads);
      InflowsInArenaOrder(g, root, t, Propagate(g, t, grads[root := 1.0]));
      Ok(Propagate(g, t, grads[root := 1.0]))
  }

  /** The chain-rule sums over the topological list, taken in arena order. */
  lemma InflowsInArenaOrder(g: Graph, root: nat, t: seq<nat>, F: seq<real>)
    requires Schedulable(g, t) && root < |g| && |F| == |g| && Distinct(t) && Elems(t) == Reach(g, root)
    ensures forall k | 0 <= k < |g| :: Inflow(g, t, k, F) == ConsumerSum(g, Reach(g, root), k, F, |g|)
  {
    forall k | 0 <= k < |g|
      ensures Inflow(g, t, k, F) == ConsumerSum(g, Reach(g, root), k, F, |g|)
    {
      InflowConsumerSum(g, t, k, F);
    }
  }

  /** When every reachable step can run, so can every step of the list. */
  lemma TopoSchedulable(g: Graph, root: nat, flip: nat -> bool)
    requires Acyclic(g) && root < |g|
    requires forall j | 0 <= j < |g| && j in Reach(g, root) :: StepDefined(g, j)
    ensures Schedulable(g, Topo(g, root, flip))
  {
    var t := Topo(g, root, flip);
    forall j | 0 <= j < |t|
      ensures t[j] < |g| && StepDefined(g, t[j])
    {
      assert t[j] in Reach(g, root);
    }
  }

  /** Every step of the topological list can run iff every reachable one can. */
  lemma DefinedOnReach(g: Graph, root: nat, t: seq<nat>)
    requires Acyclic(g) && root < |g| && Elems(t) == Reach(g, root)
    requires forall j | 0 <= j < |t| :: t[j] < |g|
    ensures AllDefined(g, t) <==> forall k | 0 <= k <= root && k in Reach(g, root) :: StepDefined(g, k)
  {
    if AllDefined(g, t) {
      forall k | 0 <= k <= root && k in Reach(g, root)
        ensures StepDefined(g, k)
      {
        assert k in Elems(t);
        var j :| 0 <= j < |t| && t[j] == k;
      }
    }
    if forall k | 0 <= k <= root && k in Reach(g, root) :: StepDefined(g, k) {
      forall j | 0 <= j < |t|
        ensures StepDefined(g, t[j])
      {
        assert t[j] in Elems(t);
      }
    }
  }

  lemma BackwardSums(g: Graph, root: nat, t: seq<nat>, grads: seq<real>)
    requires Acyclic(g) && root < |g| && |grads| == |g|
    requires Distinct(t) && OperandsFirst(g, t) && Elems(t) == Reach(g, root)
    requires forall j | 0 <= j < |t| :: t[j] < |g| && StepDefined(g, t[j])
    ensures var F := Propagate(g, t, grads[root := 1.0]);
      && F[root] == 1.0
      && (forall k | 0 <= k < |g| && k != root :: F[k] == grads[k] + Inflow(g, t, k, F))
      && (forall k | 0 <= k < |g| && k !in Reach(g, root) :: F[k] == grads[k])
  {
    TopoConsumersLast(g, t);
    var F := Propagate(g, t, grads[root := 1.0]);
    forall k | 0 <= k < |g|
      ensures k == root ==> F[k] == 1.0
      ensures k != root ==> F[k] == grads[k] + Inflow(g, t, k, F)
      ensures k !in Reach(g, root) ==> F[k] == grads[k]
    {
      BackwardAt(g, root, t, grads, k);
    }
  }

  lemma BackwardAt(g: Graph, root: nat, t: seq<nat>, grads: seq<real>, k: nat)
    requires Acyclic(g) && root < |g| && |grads| == |g| && k < |g|
    requires Distinct(t) && OperandsFirst(g, t) && Elems(t) == Reach(g, root)
    requires forall j | 0 <= j < |t| :: t[j] < |g| && StepDefined(g, t[j])
    requires ConsumersLast(g, t)
    ensures var F := Propagate(g, t, grads[root := 1.0]);
      && (k == root ==> F[k] == 1.0)
      && (k != root ==> F[k] == grads[k] + Inflow(g, t, k, F))
      && (k !in Reach(g, root) ==> F[k] == grads[k])
  {
    var G0 := grads[root := 1.0];
    var F := Propagate(g, t, G0);
    PropagateSums(g, t, G0, k);
    if k == root || k !in Reach(g, root) {
      NoConsumerListed(g, root, t, k);
      InflowZero(g, t, k, F);
    }
  }

  /** Neither the root nor an unreachable node is an operand of a listed node. */
  lemma NoConsumerListed(g: Graph, root: nat, t: seq<nat>, k: nat)
    requires Acyclic(g) && root < |g| && OperandsFirst(g, t) && Elems(t) == Reach(g, root)
    requires forall j | 0 <= j < |t| :: t[j] < |g|
    requires k == root || k !in Reach(g, root)
    ensures forall j | 0 <= j < |t| :: k !in Operands(g[t[j]].op)
  {
    forall j | 0 <= j < |t|
      ensures k !in Operands(g[t[j]].op)
    {
      assert t[j] in Elems(t);
      if k == root {
        assert OpBelow(g[t[j]].op, t[j]);
      } else {
        assert forall m | 0 <= m < j :: t[m] in Elems(t);
        assert k !in t[..j];
      }
    }
  }
}
