/** The planning loop: which component's record comes next, until every component has its
    tokens (relational_build.py, the loop of _build_relational_corpus_plan; srgm_worlds.py,
    iter_graph_records). Targets are exact rationals here. */
module MixturePlan {
  import opened Wrappers

  datatype Component = Bed | Graph | Reasoning

  const ORDER := [Bed, Graph, Reasoning]

  /** How many records one step takes. */
  ghost function Units(c: Component): nat { if c == Graph then 10 else 1 }

  // ----- deficits -----

  datatype Tokens = Tokens(emitted: map<Component, nat>, longest: map<Component, nat>)

  ghost predicate Complete<T>(m: map<Component, T>) { forall c: Component :: c in m }

  ghost predicate Positive(targets: map<Component, real>) {
    Complete(targets) && forall c: Component :: targets[c] > 0.0
  }

  predicate Needs(c: Component, t: Tokens, targets: map<Component, real>)
    requires Complete(targets) && Complete(t.emitted)
  {
    t.emitted[c] as real < targets[c]
  }

  /** (target - emitted) / target, compared crosswise. */
  predicate MoreBehind(a: Component, b: Component, t: Tokens, targets: map<Component, real>)
    requires Complete(targets) && Complete(t.emitted)
  {
    (targets[a] - t.emitted[a] as real) * targets[b] > (targets[b] - t.emitted[b] as real) * targets[a]
  }

  /** The first component, in order, that is proportionally furthest behind. */
  method Choose(t: Tokens, targets: map<Component, real>) returns (chosen: Option<Component>)
    requires Positive(targets) && Complete(t.emitted)
    ensures chosen.None? <==> forall c: Component :: !Needs(c, t, targets)
    ensures chosen.Some? ==>
      Needs(chosen.value, t, targets) && forall c: Component | Needs(c, t, targets) ::
      !MoreBehind(c, chosen.value, t, targets)
    ensures chosen.Some? ==>
      forall c: Component | Needs(c, t, targets) && Place(c) < Place(chosen.value) ::
      MoreBehind(chosen.value, c, t, targets)
  {
    chosen := None;
    for i := 0 to |ORDER|
      invariant chosen.None? <==> forall c: Component | Place(c) < i :: !Needs(c, t, targets)
      invariant chosen.Some? ==> Place(chosen.value) < i && Needs(chosen.value, t, targets)
      invariant chosen.Some? ==>
        forall c: Component | Place(c) < i && Needs(c, t, targets) :: !MoreBehind(c, chosen.value, t, targets)
      invariant chosen.Some? ==>
        forall c: Component | Place(c) < Place(chosen.value) && Needs(c, t, targets) ::
        MoreBehind(chosen.value, c, t, targets)
    {
      var c := ORDER[i];
      assert forall d: Component :: Place(d) == i <==> d == c;
      if Needs(c, t, targets) && (chosen.None? || MoreBehind(c, chosen.value, t, targets)) {
        if chosen.Some? {
          forall d: Component | Place(d) < i && Needs(d, t, targets)
            ensures MoreBehind(c, d, t, targets)
          {
            BehindTrans(d, chosen.value, c, t, targets);
          }
        }
        chosen := Some(c);
      }
    }
  }

  /** The place in ORDER. */
  function Place(c: Component): (i: nat)
    ensures i < |ORDER| && ORDER[i] == c
  {
    match c case Bed => 0 case Graph => 1 case Reasoning => 2
  }

  lemma {:induction false} BehindTrans(a: Component, b: Component, c: Component, t: Tokens, targets: map<Component,
                                       real>)
    requires Positive(targets) && Complete(t.emitted) && !MoreBehind(a, b, t, targets) && MoreBehind(c, b, t, targets)
    ensures MoreBehind(c, a, t, targets)
  {
    var x, y, z := targets[a], targets[b], targets[c];
    CrossTrans(x - t.emitted[a] as real, x, y - t.emitted[b] as real, y, z - t.emitted[c] as real, z);
  }

  /** p/x <= q/y < r/z gives p/x < r/z, crosswise. */
  lemma {:induction false} CrossTrans(p: real, x: real, q: real, y: real, r: real, z: real)
    requires x > 0.0 && y > 0.0 && z > 0.0 && p * y <= q * x && q * z < r * y
    ensures p * z < r * x
  {
    ScaleUp(p * y, q * x, z);
    ScaleUpStrictly(q * z, r * y, x);
    assert p * y * z == (p * z) * y && q * x * z == q * z * x && r * y * x == (r * x) * y;
    CancelReal(p * z, r * x, y);
  }

  lemma {:induction false} ScaleUpStrictly(x: real, y: real, k: real)
    requires x < y && k > 0.0
    ensures x * k < y * k
  {
    assert (y - x) * k > 0.0;
  }

  lemma {:induction false} CancelReal(a: real, b: real, y: real)
    requires y > 0.0 && a * y < b * y
    ensures a < b
  {
    if b <= a {
      ScaleUp(b, a, y);
      assert false;
    }
  }

  // ----- keeping the mixture proportional -----

  function Max(a: nat, b: nat): nat { if a < b then b else a }

  /** The most one step of a component can add, or what it started with. */
  ghost function Slack(c: Component, t: Tokens, initial: map<Component, nat>): nat
    requires Complete(t.longest) && Complete(initial)
  {
    Max(initial[c], Units(c) * t.longest[c])
  }

  /** No component's share of its target is ahead of another's by more than its own slack. */
  ghost predicate Proportional(t: Tokens, targets: map<Component, real>, initial: map<Component, nat>)
    requires Positive(targets) && Complete(t.emitted) && Complete(t.longest) && Complete(initial)
  {
    forall a: Component, b: Component :: Ahead(a, b, t, targets, initial)
  }

  ghost predicate Ahead(a: Component, b: Component, t: Tokens, targets: map<Component, real>, initial: map<Component,
                        nat>)
    requires Positive(targets) && Complete(t.emitted) && Complete(t.longest) && Complete(initial)
  {
    Apart(t.emitted[a], t.emitted[b], Slack(a, t, initial), targets[a], targets[b])
  }

  /** Shares in numbers: a's tokens against b's, each scaled by the other's target. */
  ghost predicate Apart(ea: nat, eb: nat, slack: nat, x: real, y: real) {
    ea as real * y <= eb as real * x + slack as real * y
  }

  /** Never past its target by more than one step, unless it began there. */
  ghost predicate Bounded(t: Tokens, targets: map<Component, real>, initial: map<Component, nat>)
    requires Positive(targets) && Complete(t.emitted) && Complete(t.longest) && Complete(initial)
  {
    forall c: Component ::
      t.emitted[c] == initial[c]
      || (initial[c] as real < targets[c] && t.emitted[c] as real < targets[c] + (Units(c) * t.longest[c]) as real)
  }

  /** One step took `added` tokens of a component. */
  ghost predicate Stepped(before: Tokens, after: Tokens, c: Component, added: nat)
    requires Complete(before.emitted) && Complete(before.longest)
  {
    && Complete(after.emitted) && Complete(after.longest)
    && after.emitted == before.emitted[c := before.emitted[c] + added] && after.longest[c] >= before.longest[c]
    && (forall d: Component | d != c :: after.longest[d] == before.longest[d])
         && 0 < added <= Units(c) * after.longest[c]
  }

  lemma {:induction false} ScaleUp(x: real, y: real, k: real)
    requires x <= y && k >= 0.0
    ensures x * k <= y * k
  {
    assert (y - x) * k >= 0.0;
  }

  lemma {:induction false} AddScaled(ea: nat, k: nat, eb: nat, slack: nat, x: real, y: real)
    requires ea as real * y <= eb as real * x && k as real * y <= slack as real * y
    ensures (ea + k) as real * y <= eb as real * x + slack as real * y
  {
    assert (ea + k) as real == ea as real + k as real;
    assert (ea as real + k as real) * y == ea as real * y + k as real * y;
  }

  /** The chosen component was not ahead of any other. */
  lemma {:induction false} ChosenNotAhead(a: Component, b: Component, t: Tokens, targets: map<Component, real>)
    requires Positive(targets) && Complete(t.emitted) && Needs(a, t, targets)
      && (Needs(b, t, targets) ==> !MoreBehind(b, a, t, targets))
    ensures Apart(t.emitted[a], t.emitted[b], 0, targets[a], targets[b])
  {
    var x, y, ea, eb := targets[a], targets[b], t.emitted[a] as real, t.emitted[b] as real;
    if Needs(b, t, targets) {
      assert (y - eb) * x == y * x - eb * x && (x - ea) * y == x * y - ea * y;
    } else {
      ScaleUp(ea, x, y);
      ScaleUp(y, eb, x);
    }
  }

  lemma {:induction false} ApartGrows(ea: nat, eb: nat, more: nat, slack: nat, wider: nat, x: real, y: real)
    requires x > 0.0 && y > 0.0 && Apart(ea, eb, slack, x, y) && eb <= more && slack <= wider
    ensures Apart(ea, more, wider, x, y)
  {
    ScaleUp(eb as real, more as real, x);
    ScaleUp(slack as real, wider as real, y);
  }

  lemma {:induction false} ApartSelf(e: nat, slack: nat, x: real)
    requires x > 0.0
    ensures Apart(e, e, slack, x, x)
  {
    ScaleUp(0.0, slack as real, x);
  }

  lemma {:induction false} ChosenApart(ea: nat, added: nat, eb: nat, wider: nat, x: real, y: real)
    requires x > 0.0 && y > 0.0 && Apart(ea, eb, 0, x, y) && added <= wider
    ensures Apart(ea + added, eb, wider, x, y)
  {
    ScaleUp(added as real, wider as real, y);
    AddScaled(ea, added, eb, wider, x, y);
  }

  lemma {:induction false} SlackWidens(before: Tokens, after: Tokens, chosen: Component, added: nat, a: Component,
                                       initial: map<Component, nat>)
    requires Complete(before.emitted) && Complete(before.longest) && Complete(initial)
      && Stepped(before, after, chosen, added)
    ensures Slack(a, before, initial) <= Slack(a, after, initial)
    ensures a == chosen ==> after.emitted[a] == before.emitted[a] + added && added <= Slack(a, after, initial)
    ensures a != chosen ==> after.emitted[a] == before.emitted[a]
  {
  }

  /** A step of the chosen component keeps every pair proportional. */
  lemma {:induction false} StepKeepsPair(before: Tokens, after: Tokens, chosen: Component, added: nat, a: Component,
                                         b: Component, targets: map<Component, real>, initial: map<Component, nat>)
    requires Positive(targets) && Complete(before.emitted) && Complete(before.longest) && Complete(initial)
      && Stepped(before, after, chosen, added)
    requires Apart(before.emitted[chosen], before.emitted[b], 0, targets[chosen], targets[b])
      && Ahead(a, b, before, targets, initial)
    ensures Ahead(a, b, after, targets, initial)
  {
    SlackWidens(before, after, chosen, added, a, initial);
    SlackWidens(before, after, chosen, added, b, initial);
    if a == b {
      ApartSelf(after.emitted[a], Slack(a, after, initial), targets[a]);
    } else if a == chosen {
      ChosenApart(before.emitted[a], added, before.emitted[b], Slack(a, after, initial), targets[a], targets[b]);
    } else {
      ApartGrows(before.emitted[a], before.emitted[b], after.emitted[b], Slack(a, before, initial),
        Slack(a, after, initial), targets[a], targets[b]);
    }
  }

  lemma {:induction false} StepKeeps(before: Tokens, after: Tokens, chosen: Component, added: nat,
                                     targets: map<Component, real>, initial: map<Component, nat>)
    requires Positive(targets) && Complete(before.emitted) && Complete(before.longest) && Complete(initial)
      && Stepped(before, after, chosen, added)
    requires Needs(chosen, before, targets) && forall c: Component | Needs(c, before, targets) ::
      !MoreBehind(c, chosen, before, targets)
    requires Proportional(before, targets, initial) && Bounded(before, targets, initial)
    requires forall c: Component :: initial[c] <= before.emitted[c]
    ensures Proportional(after, targets, initial) && Bounded(after, targets, initial)
    ensures forall c: Component :: initial[c] <= after.emitted[c]
  {
    forall a: Component, b: Component
      ensures Ahead(a, b, after, targets, initial)
    {
      assert Ahead(a, b, before, targets, initial);
      ChosenNotAhead(chosen, b, before, targets);
      StepKeepsPair(before, after, chosen, added, a, b, targets, initial);
    }
    StepKeepsBound(before, after, chosen, added, targets, initial);
  }

  lemma {:induction false} StepKeepsBound(before: Tokens, after: Tokens, chosen: Component, added: nat,
                                          targets: map<Component, real>, initial: map<Component, nat>)
    requires Positive(targets) && Complete(before.emitted) && Complete(before.longest) && Complete(initial)
      && Stepped(before, after, chosen, added)
    requires Needs(chosen, before, targets) && Bounded(before, targets, initial)
      && initial[chosen] <= before.emitted[chosen]
    ensures Bounded(after, targets, initial)
  {
    assert initial[chosen] as real < targets[chosen];
    forall c: Component | c != chosen
      ensures after.emitted[c] == before.emitted[c] && after.longest[c] == before.longest[c]
    {
    }
  }

  // ----- termination -----

  /** How much a component still lacks, as a whole number that is zero only when it lacks nothing. */
  ghost function Lack(c: Component, t: Tokens, targets: map<Component, real>): nat
    requires Complete(targets) && Complete(t.emitted)
  {
    if Needs(c, t, targets) then (targets[c] - t.emitted[c] as real).Floor + 1 else 0
  }

  ghost function Lacking(t: Tokens, targets: map<Component, real>): nat
    requires Complete(targets) && Complete(t.emitted)
  {
    Lack(Bed, t, targets) + Lack(Graph, t, targets) + Lack(Reasoning, t, targets)
  }

  lemma {:induction false} StepLacksLess(before: Tokens, after: Tokens, chosen: Component, added: nat,
                                         targets: map<Component, real>)
    requires Complete(targets) && Complete(before.emitted) && Complete(before.longest)
      && Stepped(before, after, chosen, added) && Needs(chosen, before, targets)
    ensures Lacking(after, targets) < Lacking(before, targets)
  {
    var x, y := targets[chosen] - before.emitted[chosen] as real, targets[chosen] - after.emitted[chosen] as real;
    assert y <= x - 1.0;
    assert Lack(chosen, after, targets) < Lack(chosen, before, targets) by {
      if Needs(chosen, after, targets) {
        assert y.Floor <= (x - 1.0).Floor == x.Floor - 1;
      }
    }
    assert forall c: Component | c != chosen :: Lack(c, after, targets) == Lack(c, before, targets);
  }
}
