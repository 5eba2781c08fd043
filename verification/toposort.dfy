/**
  `build_topo` of `Value.backward`: a depth-first walk from the root that
  marks a node visited on entry, walks its operand set, and appends the node
  once all its operands are done. The order in which Python iterates a set
  is unspecified, so the walk takes `flip`, which decides for every binary
  node with two distinct operands which one is walked first; every property
  below holds for every `flip`.
 */
module TopoSort {
  import opened Arena

  /** The state of the walk: the `visited` set and the `topo` list. */
  datatype Dfs = Dfs(visited: set<nat>, order: seq<nat>)

  function Elems(s: seq<nat>): set<nat>
  {
    set x | x in s
  }

  predicate Distinct(s: seq<nat>)
  {
    forall i, j | 0 <= i < j < |s| :: s[i] != s[j]
  }

  /** Every operand of a listed node is listed, and listed before it. */
  predicate OperandsFirst(g: Graph, s: seq<nat>)
  {
    forall j, a | 0 <= j < |s| && s[j] < |g| && a in Operands(g[s[j]].op) :: a in s[..j]
  }

  /** The two-element operand set `{a, b}` in one of its two iteration orders. */
  function Pair(a: nat, b: nat, swap: bool): (cs: seq<nat>)
    ensures forall c :: c in cs <==> c == a || c == b
    ensures |cs| == 2 ==> cs[0] != cs[1]
    ensures 1 <= |cs| <= 2
  {
    if a == b then [a] else if swap then [b, a] else [a, b]
  }

  /** `v._prev` as a sequence: each operand once, in the iteration order. */
  function Children(g: Graph, v: nat, flip: nat -> bool): (cs: seq<nat>)
    requires Acyclic(g) && v < |g|
    ensures |cs| <= 2 && (|cs| == 2 ==> cs[0] != cs[1])
    ensures forall c :: c in cs <==> c in Operands(g[v].op)
    ensures forall j | 0 <= j < |cs| :: cs[j] < v
  {
    assert OpBelow(g[v].op, v);
    match g[v].op
    case Leaf => []
    case AddOp(a, b) => Pair(a, b, flip(v))
    case MulOp(a, b) => Pair(a, b, flip(v))
    case PowOp(a, _) => [a]
    case TanhOp(a) => [a]
  }

  /** `build_topo(v)`: afterwards `v` is visited; nothing is ever unmarked and
      the list only grows at its end. */
  function Visit(g: Graph, v: nat, s: Dfs, flip: nat -> bool): (r: Dfs)
    requires Acyclic(g) && v < |g|
    ensures v in r.visited && s.visited <= r.visited
    ensures s.order <= r.order
    decreases v
  {
    if v in s.visited then s
    else
      var cs := Children(g, v, flip);
      var s1 := Dfs(s.visited + {v}, s.order);
      var s2 := if |cs| >= 1 then Visit(g, cs[0], s1, flip) else s1;
      var s3 := if |cs| == 2 then Visit(g, cs[1], s2, flip) else s2;
      Dfs(s3.visited, s3.order + [v])
  }

  /** What the walk keeps true between calls. */
  predicate DfsInv(g: Graph, s: Dfs)
  {
    && (forall u | u in s.visited :: u < |g|)
    && (forall j | 0 <= j < |s.order| :: s.order[j] in s.visited)
    && Distinct(s.order)
    && OperandsFirst(g, s.order)
  }

  /** Nodes entered but not yet appended: the stack of the walk. */
  function Pending(s: Dfs): set<nat>
  {
    s.visited - Elems(s.order)
  }

  /** What one call `build_topo(v)` guarantees, from state `s` to state `s2`. */
  predicate VisitPost(g: Graph, v: nat, s: Dfs, s2: Dfs)
    requires Acyclic(g) && v < |g|
  {
    && DfsInv(g, s2)
    && s.order <= s2.order
    && s.visited <= s2.visited
    && Pending(s2) == Pending(s)
    && v in s2.order
    && Elems(s2.order) <= Elems(s.order) + Reach(g, v)
    && (v !in s.visited ==> s2.order[|s2.order| - 1] == v)
  }

  lemma {:induction false} VisitSound(g: Graph, v: nat, s: Dfs, flip: nat -> bool)
    requires Acyclic(g) && v < |g| && DfsInv(g, s)
    requires forall u | u in Pending(s) :: u > v
    ensures VisitPost(g, v, s, Visit(g, v, s, flip))
    decreases v, 2
  {
    if v !in s.visited {
      EnterSound(g, v, s, flip);
    } else {
      assert v !in Pending(s);
    }
  }

  lemma {:induction false} EnterSound(g: Graph, v: nat, s: Dfs, flip: nat -> bool)
    requires Acyclic(g) && v < |g| && DfsInv(g, s) && v !in s.visited
    requires forall u | u in Pending(s) :: u > v
    ensures VisitPost(g, v, s, Visit(g, v, s, flip))
    decreases v, 1
  {
    var cs := Children(g, v, flip);
    var s1 := Dfs(s.visited + {v}, s.order);
    assert Pending(s1) == Pending(s) + {v};
    var s2 := s1;
    if |cs| >= 1 {
      ChildSound(g, v, cs[0], s1, flip);
      s2 := Visit(g, cs[0], s1, flip);
    }
    var s3 := s2;
    if |cs| == 2 {
      ChildSound(g, v, cs[1], s2, flip);
      s3 := Visit(g, cs[1], s2, flip);
    }
    assert Visit(g, v, s, flip) == Dfs(s3.visited, s3.order + [v]);
    FinishSound(g, v, s, s3);
  }

  /** The last step of `build_topo(v)`: all operands walked, append `v`. */
  lemma FinishSound(g: Graph, v: nat, s: Dfs, s3: Dfs)
    requires Acyclic(g) && v < |g| && DfsInv(g, s) && DfsInv(g, s3) && v !in s.visited
    requires forall c | c in Operands(g[v].op) :: c in s3.order
    requires s.order <= s3.order && s.visited + {v} <= s3.visited
    requires Pending(s3) == Pending(s) + {v}
    requires Elems(s3.order) <= Elems(s.order) + Reach(g, v)
    ensures VisitPost(g, v, s, Dfs(s3.visited, s3.order + [v]))
  {
    AppendSound(g, s3, v);
  }

  /** Walking an operand `c` of `v` while `v` is on the stack. */
  lemma {:induction false} ChildSound(g: Graph, v: nat, c: nat, s: Dfs, flip: nat -> bool)
    requires Acyclic(g) && v < |g| && c in Operands(g[v].op) && DfsInv(g, s)
    requires v in Pending(s) && forall u | u in Pending(s) :: u >= v
    ensures var s2 := Visit(g, c, s, flip);
      && DfsInv(g, s2)
      && s.order <= s2.order
      && s.visited <= s2.visited
      && Pending(s2) == Pending(s)
      && c in s2.order
      && Elems(s2.order) <= Elems(s.order) + Reach(g, v)
    decreases v, 0
  {
    ReachOperand(g, v, c);
    VisitSound(g, c, s, flip);
  }

  /** Appending a node once all its operands are listed keeps the invariant. */
  lemma AppendSound(g: Graph, s: Dfs, v: nat)
    requires DfsInv(g, s) && v < |g| && v in Pending(s)
    requires forall c | c in Operands(g[v].op) :: c in s.order
    ensures var o := s.order + [v];
      && DfsInv(g, Dfs(s.visited, o))
      && Pending(Dfs(s.visited, o)) == Pending(s) - {v}
      && Elems(o) == Elems(s.order) + {v}
      && s.order <= o
  {
    var o := s.order + [v];
    assert Distinct(o);
    forall j, a | 0 <= j < |o| && o[j] < |g| && a in Operands(g[o[j]].op)
      ensures a in o[..j]
    {
      if j < |s.order| {
        assert o[..j] == s.order[..j];
      } else {
        assert o[..j] == s.order;
      }
    }
    assert Elems(o) == Elems(s.order) + {v};
  }

  /** Everything reachable from a listed node is listed. */
  lemma {:induction false} ReachClosed(g: Graph, s: seq<nat>, v: nat)
    requires Acyclic(g) && OperandsFirst(g, s) && v < |g| && v in s
    ensures Reach(g, v) <= Elems(s)
    decreases v
  {
    var j :| 0 <= j < |s| && s[j] == v;
    forall a | a in Operands(g[v].op)
      ensures Reach(g, a) <= Elems(s)
    {
      assert a in s[..j];
      ReachOperand(g, v, a);
      ReachClosed(g, s, a);
    }
    match g[v].op
    case Leaf =>
    case AddOp(a, b) =>
    case MulOp(a, b) =>
    case PowOp(a, _) =>
    case TanhOp(a) =>
  }

  /** The `topo` list that `backward` builds from `root`: every node reachable
      from the root exactly once, each after all of its operands, the root last. */
  function Topo(g: Graph, root: nat, flip: nat -> bool): (t: seq<nat>)
    requires Acyclic(g) && root < |g|
    ensures Distinct(t) && OperandsFirst(g, t)
    ensures Elems(t) == Reach(g, root)
    ensures forall j | 0 <= j < |t| :: t[j] in Reach(g, root) && t[j] <= root
    ensures |t| > 0 && t[|t| - 1] == root
  {
    var s := Visit(g, root, Dfs({}, []), flip);
    VisitSound(g, root, Dfs({}, []), flip);
    ReachClosed(g, s.order, root);
    s.order
  }
}
