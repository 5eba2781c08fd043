/**
  The gradient equations that `Value.backward` solves (see `Backprop.Backward`)
  have exactly one solution, so the gradients do not depend on the order in
  which Python happens to iterate the operand sets.
 */
module Gradients {
  import opened Arena
  import opened TopoSort
  import opened Backprop

  /** Only the gradients of the nodes of `R` above `k` enter node `k`'s sum. */
  lemma {:induction false} ConsumerSumAgree(g: Graph, R: set<nat>, k: nat, F1: seq<real>, F2: seq<real>, n: nat)
    requires Acyclic(g) && |F1| == |g| && |F2| == |g| && n <= |g|
    requires forall j | k < j < |g| && j in R :: F1[j] == F2[j]
    ensures ConsumerSum(g, R, k, F1, n) == ConsumerSum(g, R, k, F2, n)
    decreases n
  {
    if n > 0 {
      ConsumerSumAgree(g, R, k, F1, F2, n - 1);
      var j := n - 1;
      if j <= k && j in R && StepDefined(g, j) {
        assert OpBelow(g[j].op, j);
        ContributionOutside(g, j, k, F1[j]);
        ContributionOutside(g, j, k, F2[j]);
      }
    }
  }

  /** The gradient equations of a backward pass from `root` started at `grads`. */
  predicate Solves(g: Graph, root: nat, grads: seq<real>, F: seq<real>)
    requires Acyclic(g) && root < |g| && |grads| == |g|
  {
    && |F| == |g|
    && F[root] == 1.0
    && forall k | 0 <= k < |g| && k != root ::
         F[k] == grads[k] + ConsumerSum(g, Reach(g, root), k, F, |g|)
  }

  /** Two solutions agree on every node from `k` up. */
  lemma {:induction false} AgreeFrom(g: Graph, root: nat, grads: seq<real>, F1: seq<real>, F2: seq<real>, k: nat)
    requires Acyclic(g) && root < |g| && |grads| == |g| && k <= |g|
    requires Solves(g, root, grads, F1) && Solves(g, root, grads, F2)
    ensures forall j | k <= j < |g| :: F1[j] == F2[j]
    decreases |g| - k
  {
    if k < |g| {
      AgreeFrom(g, root, grads, F1, F2, k + 1);
      if k != root {
        ConsumerSumAgree(g, Reach(g, root), k, F1, F2, |g|);
      }
    }
  }

  /** The gradient equations have at most one solution. */
  lemma SolutionUnique(g: Graph, root: nat, grads: seq<real>, F1: seq<real>, F2: seq<real>)
    requires Acyclic(g) && root < |g| && |grads| == |g|
    requires Solves(g, root, grads, F1) && Solves(g, root, grads, F2)
    ensures F1 == F2
  {
    AgreeFrom(g, root, grads, F1, F2, 0);
  }

  /** The order in which the operand sets are iterated does not change the
      outcome of `backward`, neither its failure nor any gradient. */
  lemma BackwardOrderIndependent(g: Graph, root: nat, grads: seq<real>, flip1: nat -> bool, flip2: nat -> bool)
    requires Acyclic(g) && root < |g| && |grads| == |g|
    ensures Backward(g, root, grads, flip1) == Backward(g, root, grads, flip2)
  {
    var r1 := Backward(g, root, grads, flip1);
    var r2 := Backward(g, root, grads, flip2);
    if r1.Ok? {
      SolutionUnique(g, root, grads, r1.value, r2.value);
    }
  }

  /** Two solutions whose starting gradients agree on the reachable nodes
      agree on the reachable nodes from `k` up. */
  lemma {:induction false} AgreeOnReachFrom(g: Graph, root: nat, z1: seq<real>, z2: seq<real>, F1: seq<real>, F2: seq<real>, k: nat)
    requires Acyclic(g) && root < |g| && |z1| == |g| && |z2| == |g| && k <= |g|
    requires forall j | 0 <= j < |g| && j in Reach(g, root) :: z1[j] == z2[j]
    requires Solves(g, root, z1, F1) && Solves(g, root, z2, F2)
    ensures forall j | k <= j < |g| && j in Reach(g, root) :: F1[j] == F2[j]
    decreases |g| - k
  {
    if k < |g| {
      AgreeOnReachFrom(g, root, z1, z2, F1, F2, k + 1);
      if k != root {
        ConsumerSumAgree(g, Reach(g, root), k, F1, F2, |g|);
      }
    }
  }

  /** `backward` is local: the gradients it leaves on the nodes reachable
      from the root depend only on the gradients those nodes held before,
      whatever the other slots hold. Whether it fails does not depend on the
      gradients at all. */
  lemma BackwardLocal(g: Graph, root: nat, z1: seq<real>, z2: seq<real>, flip: nat -> bool)
    requires Acyclic(g) && root < |g| && |z1| == |g| && |z2| == |g|
    requires forall j | 0 <= j < |g| && j in Reach(g, root) :: z1[j] == z2[j]
    ensures Backward(g, root, z1, flip).Ok? == Backward(g, root, z2, flip).Ok?
    ensures Backward(g, root, z1, flip).Ok? ==>
      forall j | 0 <= j < |g| && j in Reach(g, root) :: Backward(g, root, z1, flip).value[j] == Backward(g, root, z2, flip).value[j]
  {
    var r1 := Backward(g, root, z1, flip);
    var r2 := Backward(g, root, z2, flip);
    if r1.Ok? {
      AgreeOnReachFrom(g, root, z1, z2, r1.value, r2.value, 0);
    }
  }
}
