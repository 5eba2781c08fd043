/**
  The local chain-rule step of each operator, read off `Backprop.Step`:
  what one `_backward` call adds to each operand's gradient. A node that is
  used twice by the same operator (`a + a`, `a * a`) is one operand of the
  deduplicated operand set, yet both `+=` statements still land on it.
 */
module Rules {
  import opened Arena
  import opened TopoSort
  import opened Backprop

  /** One step changes slot `k` by the local derivative times `c`'s gradient. */
  lemma StepSlot(g: Graph, c: nat, G: seq<real>, k: nat)
    requires Acyclic(g) && c < |g| && StepDefined(g, c) && |G| == |g| && k < |g|
    ensures Step(g, c, G)[k] == G[k] + Gain(g, c, k) * G[c]
  {
    assert Contribution(g, c, k, G[c]) == Gain(g, c, k) * G[c];
  }

  lemma ShareOne(p: Partial, k: nat)
    ensures Share([p], k) == if p.to == k then p.factor else 0.0
  {
    assert [p][1..] == [];
  }

  lemma ShareTwo(p: Partial, q: Partial, k: nat)
    ensures Share([p, q], k) == (if p.to == k then p.factor else 0.0) + (if q.to == k then q.factor else 0.0)
  {
    assert [p, q][1..] == [q];
    ShareOne(q, k);
  }

  /** A step leaves every gradient that is not an operand's unchanged. */
  lemma StepFrame(g: Graph, c: nat, G: seq<real>, k: nat)
    requires Acyclic(g) && c < |g| && StepDefined(g, c) && |G| == |g| && k < |g|
    requires k !in Operands(g[c].op)
    ensures Step(g, c, G)[k] == G[k]
  {
    ContributionOutside(g, c, k, G[c]);
  }

  /** The local derivatives of a sum: one per `+=`, so `a + a` counts twice. */
  lemma AddGain(g: Graph, c: nat)
    requires Acyclic(g) && c < |g| && g[c].op.AddOp?
    ensures var a, b := g[c].op.a, g[c].op.b;
      && (a != b ==> Gain(g, c, a) == 1.0 && Gain(g, c, b) == 1.0)
      && (a == b ==> Gain(g, c, a) == 2.0)
  {
    var a, b := g[c].op.a, g[c].op.b;
    assert OpBelow(g[c].op, c);
    assert LocalDerivs(g, c) == [Partial(a, 1.0), Partial(b, 1.0)];
    ShareTwo(Partial(a, 1.0), Partial(b, 1.0), a);
    ShareTwo(Partial(a, 1.0), Partial(b, 1.0), b);
  }

  /** The local derivatives of a product: each operand gets the other's value. */
  lemma MulGain(g: Graph, c: nat)
    requires Acyclic(g) && c < |g| && g[c].op.MulOp?
    ensures var a, b := g[c].op.a, g[c].op.b;
      && a < c && b < c
      && (a != b ==> Gain(g, c, a) == g[b].data && Gain(g, c, b) == g[a].data)
      && (a == b ==> Gain(g, c, a) == 2.0 * g[a].data)
  {
    var a, b := g[c].op.a, g[c].op.b;
    assert OpBelow(g[c].op, c);
    assert LocalDerivs(g, c) == [Partial(a, g[b].data), Partial(b, g[a].data)];
    ShareTwo(Partial(a, g[b].data), Partial(b, g[a].data), a);
    ShareTwo(Partial(a, g[b].data), Partial(b, g[a].data), b);
  }

  /** The local derivative of `x ** n`. */
  lemma PowGain(g: Graph, c: nat)
    requires Acyclic(g) && c < |g| && g[c].op.PowOp? && StepDefined(g, c)
    ensures var a, n := g[c].op.a, g[c].op.n;
      a < c && (n >= 1 || g[a].data != 0.0) && Gain(g, c, a) == PowSlope(g[a].data, n)
  {
    var a, n := g[c].op.a, g[c].op.n;
    assert OpBelow(g[c].op, c);
    assert LocalDerivs(g, c) == [Partial(a, PowSlope(g[a].data, n))];
    ShareOne(Partial(a, PowSlope(g[a].data, n)), a);
  }

  /** The local derivative of `tanh`, from the node's own output `t`. */
  lemma TanhGain(g: Graph, c: nat)
    requires Acyclic(g) && c < |g| && g[c].op.TanhOp?
    ensures var a := g[c].op.a;
      a < c && Gain(g, c, a) == TanhSlope(g[c].data)
  {
    var a := g[c].op.a;
    assert OpBelow(g[c].op, c);
    assert LocalDerivs(g, c) == [Partial(a, TanhSlope(g[c].data))];
    ShareOne(Partial(a, TanhSlope(g[c].data)), a);
  }

  /** A leaf's `_backward` is the no-op lambda: nothing changes. */
  lemma LeafRule(g: Graph, c: nat, G: seq<real>)
    requires Acyclic(g) && c < |g| && |G| == |g| && g[c].op == Leaf
    ensures Step(g, c, G) == G
  {
    forall k | 0 <= k < |g|
      ensures Step(g, c, G)[k] == G[k]
    {
      StepFrame(g, c, G, k);
    }
  }

  /** `+`: each operand gains `out.gradient`; `a + a` gains it twice. */
  lemma AddRule(g: Graph, c: nat, G: seq<real>)
    requires Acyclic(g) && c < |g| && |G| == |g| && g[c].op.AddOp?
    ensures var r := Step(g, c, G);
      var a, b := g[c].op.a, g[c].op.b;
      && (a != b ==> r[a] == G[a] + G[c] && r[b] == G[b] + G[c])
      && (a == b ==> r[a] == G[a] + 2.0 * G[c])
  {
    var a, b := g[c].op.a, g[c].op.b;
    assert OpBelow(g[c].op, c);
    AddGain(g, c);
    StepSlot(g, c, G, a);
    StepSlot(g, c, G, b);
  }

  /** `*`: `self` gains `other.data` times `out.gradient` and `other` gains
      `self.data` times it; `a * a` gains `2 * a.data` times it. */
  lemma MulRule(g: Graph, c: nat, G: seq<real>)
    requires Acyclic(g) && c < |g| && |G| == |g| && g[c].op.MulOp?
    ensures var r := Step(g, c, G);
      var a, b := g[c].op.a, g[c].op.b;
      && (a != b ==> r[a] == G[a] + g[b].data * G[c] && r[b] == G[b] + g[a].data * G[c])
      && (a == b ==> r[a] == G[a] + 2.0 * g[a].data * G[c])
  {
    var a, b := g[c].op.a, g[c].op.b;
    MulGain(g, c);
    StepSlot(g, c, G, a);
    StepSlot(g, c, G, b);
  }

  /** `** n`: the base gains `n * x ** (n - 1)` times `out.gradient`. */
  lemma PowRule(g: Graph, c: nat, G: seq<real>)
    requires Acyclic(g) && c < |g| && |G| == |g| && g[c].op.PowOp? && StepDefined(g, c)
    ensures var a, n := g[c].op.a, g[c].op.n;
      a < c && (n >= 1 || g[a].data != 0.0) &&
      Step(g, c, G)[a] == G[a] + n as real * RealPow(g[a].data, n - 1) * G[c]
  {
    PowGain(g, c);
    StepSlot(g, c, G, g[c].op.a);
  }

  /** `tanh`: the argument gains `(1 - t * t)` times `out.gradient`, where
      `t` is the node's own forward value. */
  lemma TanhRule(g: Graph, c: nat, G: seq<real>)
    requires Acyclic(g) && c < |g| && |G| == |g| && g[c].op.TanhOp?
    ensures var a := g[c].op.a;
      a < c && Step(g, c, G)[a] == G[a] + (1.0 - g[c].data * g[c].data) * G[c]
  {
    TanhGain(g, c);
    StepSlot(g, c, G, g[c].op.a);
  }
}
