/** The order in which one pass renders graph facts and rules (srgm_worlds.py,
    iter_graph_records and _cycle_audit_facts). */
module GraphSchedule {
  import opened Wrappers

  datatype Kind = Peripheral | Central | Rule

  /** One rendered record: a world's fact, or the rule that closes a batch. */
  datatype Rendered = FactRecord(world: nat, fact: nat) | RuleRecord(world: nat, batch: nat)

  /** Why a pass stopped: it is started again, or it raised. */
  datatype End = Again | NoWorlds | LacksKind(world: nat)

  datatype Pass = Pass(records: seq<Rendered>, end: End)

  /** A world is the audit classes of its facts, in order. */
  type World = w: seq<Kind> | forall j | 0 <= j < |w| :: w[j] != Rule

  // ----- cycling through the facts of one class -----

  /** How many of the first n facts have the class. */
  function CountTo(w: World, kind: Kind, n: nat): nat
    requires n <= |w|
  {
    if n == 0 then 0 else CountTo(w, kind, n - 1) + if w[n - 1] == kind then 1 else 0
  }

  function Count(w: World, kind: Kind): nat { CountTo(w, kind, |w|) }

  lemma {:induction false} CountGrows(w: World, kind: Kind, m: nat, n: nat)
    requires m <= n <= |w|
    ensures CountTo(w, kind, m) <= CountTo(w, kind, n) <= n
  {
    if m < n {
      CountGrows(w, kind, m, n - 1);
    } else if n > 0 {
      CountGrows(w, kind, m - 1, n - 1);
    }
  }

  /** k modulo total, counted up one turn at a time. */
  function Turn(k: nat, total: nat): (turn: nat)
    requires total > 0
    ensures turn < total && (k < total ==> turn == k)
  {
    if k == 0 || Turn(k - 1, total) + 1 == total then 0 else Turn(k - 1, total) + 1
  }

  /** The k-th fact handed out for a class is the one of rank k modulo their number. */
  ghost predicate IsNth(w: World, kind: Kind, k: nat, j: nat) {
    j < |w| && w[j] == kind && Count(w, kind) > 0 && CountTo(w, kind, j) == Turn(k, Count(w, kind))
  }

  /** The first `total` draws reach every fact of the class. */
  lemma {:induction false} CycleReaches(w: World, kind: Kind, i: nat, k: nat, j: nat)
    requires i < |w| && w[i] == kind && k == CountTo(w, kind, i) && IsNth(w, kind, k, j)
    ensures i == j
  {
    CountGrows(w, kind, i + 1, |w|);
    if i < j {
      CountGrows(w, kind, i + 1, j);
    } else if j < i {
      CountGrows(w, kind, j + 1, i);
    }
  }

  /** The generator over the facts of one class. */
  class FactCycle {
    const facts: World
    const kind: Kind
    var at: nat
    ghost var given: nat

    ghost predicate Valid()
      reads this
    {
      && at <= |facts| && Count(facts, kind) > 0
      && CountTo(facts, kind, at) == if given == 0 then 0 else Turn(given - 1, Count(facts, kind)) + 1
    }

    constructor (facts: World, kind: Kind)
      requires Count(facts, kind) > 0
      ensures Valid() && this.facts == facts && this.kind == kind && given == 0
    {
      this.facts, this.kind, at, given := facts, kind, 0, 0;
    }

    method Next() returns (j: nat)
      requires Valid()
      modifies this
      ensures Valid() && given == old(given) + 1 && IsNth(facts, kind, old(given), j)
    {
      ghost var wrapped := false;
      ghost var total := Count(facts, kind);
      while at == |facts| || facts[at] != kind
        invariant at <= |facts| && given == old(given)
        invariant CountTo(facts, kind, at) == if wrapped then 0 else old(CountTo(facts, kind, at))
        invariant wrapped ==> given == 0 || Turn(given - 1, total) + 1 == total
        decreases !wrapped, |facts| - at
      {
        if at == |facts| {
          at, wrapped := 0, true;
        } else {
          at := at + 1;
        }
      }
      CountGrows(facts, kind, at + 1, |facts|);
      j := at;
      at, given := at + 1, given + 1;
    }
  }

  // ----- one world -----

  function CeilDiv(a: nat, b: nat): (r: nat)
    requires b > 0
    ensures r * b >= a && forall n: nat | n * b >= a :: r <= n
  {
    assert forall n: nat | n * b >= a :: (a + b - 1) / b <= n by {
      forall n: nat | n * b >= a
        ensures (a + b - 1) / b <= n
      {
        var q := (a + b - 1) / b;
        if n < q {
          Times(n + 1, q, b);
        }
      }
    }
    (a + b - 1) / b
  }

  lemma {:induction false} Times(m: nat, n: nat, b: nat)
    requires m <= n
    ensures m * b <= n * b
  {
  }

  /** Batches of seven peripheral facts, two central facts and one rule. */
  function Batches(w: World): nat {
    var p, c := CeilDiv(Count(w, Peripheral), 7), CeilDiv(Count(w, Central), 2);
    if p < c then c else p
  }

  /** What stands at place i of batch b. */
  ghost predicate Place(w: World, world: nat, b: nat, i: nat, r: Rendered) {
    if i < 9 then
      && r.FactRecord? && r.world == world
      && if i < 7 then IsNth(w, Peripheral, 7 * b + i, r.fact) else IsNth(w, Central, 2 * b + (i - 7), r.fact)
    else r == RuleRecord(world, b)
  }

  /** Which record a world renders at place m. */
  ghost predicate Slot(w: World, world: nat, m: nat, r: Rendered) {
    Place(w, world, m / 10, m % 10, r)
  }

  method CountKind(w: World, kind: Kind) returns (n: nat)
    ensures n == Count(w, kind)
  {
    n := 0;
    for i := 0 to |w|
      invariant n == CountTo(w, kind, i)
    {
      if w[i] == kind {
        n := n + 1;
      }
    }
  }

  /** Renders a world, or says that it lacks a class. */
  method RenderWorld(w: World, world: nat) returns (ok: bool, records: seq<Rendered>)
    ensures ok <==> Count(w, Peripheral) > 0 && Count(w, Central) > 0
    ensures ok ==> |records| == 10 * Batches(w) > 0 && forall m | 0 <= m < |records| :: Slot(w, world, m, records[m])
    ensures !ok ==> records == []
  {
    records := [];
    var peripheralCount := CountKind(w, Peripheral);
    var centralCount := CountKind(w, Central);
    ok := peripheralCount > 0 && centralCount > 0;
    if !ok {
      return;
    }
    var batches := Batches(w);
    var peripheral := new FactCycle(w, Peripheral);
    var central := new FactCycle(w, Central);
    for b := 0 to batches
      invariant peripheral.Valid() && central.Valid() && fresh(peripheral) && fresh(central) && peripheral != central
      invariant peripheral.facts == central.facts == w && peripheral.kind == Peripheral && central.kind == Central
      invariant peripheral.given == 7 * b && central.given == 2 * b && |records| == 10 * b
      invariant forall m | 0 <= m < |records| :: Slot(w, world, m, records[m])
    {
      var batch := RenderBatch(peripheral, central, w, world, b);
      BatchJoins(w, world, b, records, batch);
      records := records + batch;
    }
  }

  method RenderBatch(peripheral: FactCycle, central: FactCycle, w: World, world: nat, b: nat)
    returns (batch: seq<Rendered>)
    requires peripheral.Valid() && central.Valid() && peripheral != central
    requires peripheral.facts == central.facts == w && peripheral.kind == Peripheral && central.kind == Central
    requires peripheral.given == 7 * b && central.given == 2 * b
    modifies peripheral, central
    ensures peripheral.Valid() && central.Valid() && peripheral.given == 7 * b + 7 && central.given == 2 * b + 2
    ensures |batch| == 10 && forall i | 0 <= i < 10 :: Place(w, world, b, i, batch[i])
  {
    batch := [];
    for i := 0 to 7
      invariant peripheral.Valid() && peripheral.given == 7 * b + i && central.Valid() && central.given == 2 * b
        && |batch| == i
      invariant forall n | 0 <= n < |batch| :: Place(w, world, b, n, batch[n])
    {
      var j := peripheral.Next();
      batch := batch + [FactRecord(world, j)];
    }
    for i := 0 to 2
      invariant peripheral.Valid() && peripheral.given == 7 * b + 7 && central.Valid() && central.given == 2 * b + i
        && |batch| == 7 + i
      invariant forall n | 0 <= n < |batch| :: Place(w, world, b, n, batch[n])
    {
      var j := central.Next();
      batch := batch + [FactRecord(world, j)];
    }
    batch := batch + [RuleRecord(world, b)];
  }

  lemma {:induction false} BatchJoins(w: World, world: nat, b: nat, records: seq<Rendered>, batch: seq<Rendered>)
    requires |records| == 10 * b && forall m | 0 <= m < |records| :: Slot(w, world, m, records[m])
    requires |batch| == 10 && forall i | 0 <= i < 10 :: Place(w, world, b, i, batch[i])
    ensures forall m | 0 <= m < |records + batch| :: Slot(w, world, m, (records + batch)[m])
  {
    forall m | |records| <= m < |records| + 10
      ensures Slot(w, world, m, (records + batch)[m])
    {
      var i := m - 10 * b;
      assert m / 10 == b && m % 10 == i;
      assert Place(w, world, b, i, batch[i]) && (records + batch)[m] == batch[i];
    }
  }

  /** Every fact is rendered. */
  lemma {:induction false} EveryFactRendered(w: World, world: nat, records: seq<Rendered>, i: nat)
    requires |records| == 10 * Batches(w) && forall m | 0 <= m < |records| :: Slot(w, world, m, records[m])
    requires i < |w|
    ensures FactRecord(world, i) in records
  {
    var kind := w[i];
    var k := CountTo(w, kind, i);
    CountGrows(w, kind, i + 1, |w|);
    var per := if kind == Peripheral then 7 else 2;
    var m := k / per * 10 + (if kind == Peripheral then 0 else 7) + k % per;
    assert k < per * Batches(w);
    assert m / 10 == k / per && m % 10 == (if kind == Peripheral then 0 else 7) + k % per;
    assert m < |records|;
    assert Slot(w, world, m, records[m]);
    CycleReaches(w, kind, i, k, records[m].fact);
    assert records[m] == FactRecord(world, i);
  }

  /** No smaller number of batches has room for every fact. */
  lemma {:induction false} FewerBatchesDrop(w: World, batches: nat)
    ensures Count(w, Peripheral) <= 7 * batches && Count(w, Central) <= 2 * batches <==> Batches(w) <= batches
  {
    var p, c := CeilDiv(Count(w, Peripheral), 7), CeilDiv(Count(w, Central), 2);
    assert batches * 7 >= Count(w, Peripheral) ==> p <= batches;
    assert batches * 2 >= Count(w, Central) ==> c <= batches;
  }

  // ----- one pass over the worlds -----

  ghost predicate HasBoth(w: World) { Count(w, Peripheral) > 0 && Count(w, Central) > 0 }

  function KindOf(worlds: seq<World>, r: Rendered): Option<Kind> {
    if r.RuleRecord? then Some(Rule)
    else if r.world < |worlds| && r.fact < |worlds[r.world]| then Some(worlds[r.world][r.fact]) else None
  }

  /** Seven peripheral facts, two central facts, one rule. */
  ghost function SlotKind(m: nat): Kind {
    if m % 10 < 7 then Peripheral else if m % 10 < 9 then Central else Rule
  }

  ghost predicate InBlocks(worlds: seq<World>, records: seq<Rendered>) {
    |records| % 10 == 0 && forall m | 0 <= m < |records| :: KindOf(worlds, records[m]) == Some(SlotKind(m))
  }

  /** The first n worlds are wholly rendered. */
  ghost predicate AllRendered(worlds: seq<World>, n: nat, records: seq<Rendered>)
    requires n <= |worlds|
  {
    forall v: nat, i: nat | v < n && i < |worlds[v]| :: FactRecord(v, i) in records
  }

  lemma {:induction false} BlocksJoin(worlds: seq<World>, before: seq<Rendered>, v: nat, more: seq<Rendered>)
    requires InBlocks(worlds, before) && v < |worlds|
    requires |more| == 10 * Batches(worlds[v]) && forall m | 0 <= m < |more| :: Slot(worlds[v], v, m, more[m])
    ensures InBlocks(worlds, before + more)
  {
    var all := before + more;
    forall m | 0 <= m < |all|
      ensures KindOf(worlds, all[m]) == Some(SlotKind(m))
    {
      if m >= |before| {
        var n := m - |before|;
        assert m % 10 == n % 10;
        assert Slot(worlds[v], v, n, more[n]) && all[m] == more[n];
      }
    }
  }

  /** One pass: blocks of 7:2:1, every fact rendered, and an error exactly for the first world
      that lacks a class or for no world at all. */
  method RenderPass(worlds: seq<World>) returns (pass: Pass)
    ensures InBlocks(worlds, pass.records)
    ensures pass.end == Again <==> worlds != [] && forall v | 0 <= v < |worlds| :: HasBoth(worlds[v])
    ensures pass.end == Again ==> AllRendered(worlds, |worlds|, pass.records) && pass.records != []
    ensures pass.end == NoWorlds <==> worlds == []
    ensures pass.end.LacksKind? ==>
      pass.end.world < |worlds| && !HasBoth(worlds[pass.end.world])
      && (forall v | 0 <= v < pass.end.world :: HasBoth(worlds[v])) && AllRendered(worlds, pass.end.world, pass.records)
  {
    if worlds == [] {
      return Pass([], NoWorlds);
    }
    var records: seq<Rendered> := [];
    for v := 0 to |worlds|
      invariant InBlocks(worlds, records) && AllRendered(worlds, v, records)
      invariant forall u | 0 <= u < v :: HasBoth(worlds[u])
      invariant v > 0 ==> records != []
    {
      var ok, more := RenderWorld(worlds[v], v);
      if !ok {
        return Pass(records, LacksKind(v));
      }
      BlocksJoin(worlds, records, v, more);
      forall i: nat | i < |worlds[v]|
        ensures FactRecord(v, i) in more
      {
        EveryFactRendered(worlds[v], v, more, i);
      }
      records := records + more;
    }
    pass := Pass(records, Again);
  }
}
