/** Schema-shaped worlds: rounded sizes, target pools and the reasoning backbone
    (srgm_worlds.py, _rounded_ratio and _generate_schema_world). */
module SchemaWorlds {
  import opened Wrappers

  datatype Error = MissingStatistics | NoTargetPool | NotFunctional | UnknownRequired

  datatype Result<T> = Ok(value: T) | Err(error: Error)

  // ----- sizes -----

  datatype Stats = Stats(subjects: nat, objects: nat, entities: nat)

  datatype Spec = Spec(relation: string, stats: Option<Stats>)

  /** What relation specs promise about their statistics. */
  ghost predicate ValidSpecs(specs: seq<Spec>) {
    && (forall k | 0 <= k < |specs| && specs[k].stats.Some? ::
          specs[k].stats.value.subjects <= specs[k].stats.value.entities
            && specs[k].stats.value.objects <= specs[k].stats.value.entities)
    && forall k, l {:trigger specs[k], specs[l]} | 0 <= k < l < |specs| :: specs[k].relation != specs[l].relation
  }

  function RoundedRatio(numerator: nat, denominator: nat, scale: nat): nat {
    if denominator == 0 then 0 else (numerator * scale + denominator / 2) / denominator
  }

  /** The nearest integer to numerator / denominator times scale, halves rounded up. */
  lemma RatioIsNearest(numerator: nat, denominator: nat, scale: nat)
    requires denominator > 0
    ensures var error: int := 2 * (numerator * scale - RoundedRatio(numerator, denominator, scale) * denominator);
            -(denominator as int) <= error < denominator
  {
    var x := numerator * scale + denominator / 2;
    assert x == (x / denominator) * denominator + x % denominator;
  }

  lemma FewerTimes(a: nat, b: nat, d: nat)
    requires a * d < b * d
    ensures a < b
  {
  }

  lemma DivideAtMost(x: nat, d: nat, s: nat)
    requires d > 0 && x < (s + 1) * d
    ensures x / d <= s
  {
    assert x == (x / d) * d + x % d;
    FewerTimes(x / d, s + 1, d);
  }

  /** A share of at most one gives at most the whole. */
  lemma RatioAtMost(numerator: nat, denominator: nat, scale: nat)
    requires numerator <= denominator
    ensures RoundedRatio(numerator, denominator, scale) <= scale
  {
    if denominator > 0 {
      assert numerator * scale <= denominator * scale;
      assert (scale + 1) * denominator == denominator * scale + denominator;
      DivideAtMost(numerator * scale + denominator / 2, denominator, scale);
    }
  }

  lemma NoneOfNothing(numerator: nat, denominator: nat)
    ensures RoundedRatio(numerator, denominator, 0) == 0
  {
    if denominator > 0 {
      DivideAtMost(denominator / 2, denominator, 0);
    }
  }

  /** The nearest integer is the only one. */
  lemma {:induction false} NearestOnly(numerator: nat, denominator: nat, scale: nat, r: nat)
    requires denominator > 0
      && -(denominator as int) <= 2 * (numerator * scale - r * denominator) < denominator
    ensures r == RoundedRatio(numerator, denominator, scale)
  {
    var q := RoundedRatio(numerator, denominator, scale);
    RatioIsNearest(numerator, denominator, scale);
    Between(r, q, denominator, numerator * scale);
  }

  lemma {:induction false} Between(r: nat, q: nat, d: nat, x: int)
    requires d > 0 && -(d as int) <= 2 * (x - r * d) < d && -(d as int) <= 2 * (x - q * d) < d
    ensures r == q
  {
    OneTimeMore(r, q, d);
    OneTimeMore(q, r, d);
  }

  lemma {:induction false} OneTimeMore(a: nat, b: nat, d: nat)
    ensures a < b ==> a * d + d <= b * d
    decreases b
  {
    if a < b {
      OneTimeMore(a, b - 1, d);
      assert b * d == (b - 1) * d + d;
    }
  }

  /** Rounded without dividing: none of nothing, otherwise the nearest integer. */
  ghost predicate Nearest(r: nat, numerator: nat, denominator: nat, scale: nat) {
    if denominator == 0 then r == 0
    else -(denominator as int) <= 2 * (numerator * scale - r * denominator) < denominator
  }

  /** How many subjects and objects a relation gets. */
  datatype Size = Size(sources: nat, targets: nat)

  function SizeOf(spec: Spec, required: bool, n: nat): Result<Size> {
    if spec.stats.None? then Err(MissingStatistics)
    else
      var s := spec.stats.value;
      var rounded := RoundedRatio(s.subjects, s.entities, n);
      var sources := if required && rounded < 1 then 1 else rounded;
      var ratio := RoundedRatio(s.objects, s.subjects, sources);
      var targets := if sources > 0 && s.objects > 0 && ratio == 0 then 1 else ratio;
      if sources > 0 && targets == 0 then Err(NoTargetPool)
      else if targets > sources then Err(NotFunctional)
      else Ok(Size(sources, targets))
  }

  /** The exact size, given the two nearest integers: a required relation gets a subject, a relation
      with objects gets one of them, and one without any or with more than its subjects is refused. */
  lemma {:induction false} SizeMeans(spec: Spec, required: bool, n: nat, subjects: nat, sources: nat, ratio: nat)
    requires spec.stats.Some? && Nearest(subjects, spec.stats.value.subjects, spec.stats.value.entities, n)
    requires sources == if required && subjects == 0 then 1 else subjects
    requires Nearest(ratio, spec.stats.value.objects, spec.stats.value.subjects, sources)
    ensures SizeOf(spec, required, n)
      == if sources == 0 then if ratio == 0 then Ok(Size(0, 0)) else Err(NotFunctional)
        else if ratio > sources then Err(NotFunctional)
        else if ratio > 0 then Ok(Size(sources, ratio))
        else if spec.stats.value.objects > 0 then Ok(Size(sources, 1))
        else Err(NoTargetPool)
  {
    var s := spec.stats.value;
    if s.entities > 0 {
      NearestOnly(s.subjects, s.entities, n, subjects);
    }
    if s.subjects > 0 {
      NearestOnly(s.objects, s.subjects, sources, ratio);
    }
  }

  /** A size fits the world; a required relation has a subject; and subjects have objects. */
  lemma SizeFits(spec: Spec, required: bool, n: nat)
    requires ValidSpecs([spec]) && n >= 1 && SizeOf(spec, required, n).Ok?
    ensures var size := SizeOf(spec, required, n).value;
            size.targets <= size.sources <= n && (required ==> size.sources >= 1)
              && (size.sources > 0 <==> size.targets > 0)
  {
    var s := spec.stats.value;
    assert [spec][0] == spec;
    RatioAtMost(s.subjects, s.entities, n);
    NoneOfNothing(s.objects, s.subjects);
  }

  /** With at least one object and no more objects than subjects, nothing is refused. */
  lemma SizeAccepted(spec: Spec, required: bool, n: nat)
    requires spec.stats.Some? && 1 <= spec.stats.value.objects <= spec.stats.value.subjects
    ensures SizeOf(spec, required, n).Ok?
  {
    var s := spec.stats.value;
    var rounded := RoundedRatio(s.subjects, s.entities, n);
    RatioAtMost(s.objects, s.subjects, if required && rounded < 1 then 1 else rounded);
  }

  method PlanSizes(specs: seq<Spec>, required: set<string>, n: nat) returns (r: Result<seq<Size>>)
    ensures r.Ok? ==>
      |r.value| == |specs| && forall k | 0 <= k < |specs| ::
      SizeOf(specs[k], specs[k].relation in required, n) == Ok(r.value[k])
    ensures r.Err? ==>
      exists k :: 0 <= k < |specs| && SizeOf(specs[k], specs[k].relation in required, n) == Err(r.error)
  {
    var sizes: seq<Size> := [];
    for k := 0 to |specs|
      invariant |sizes| == k && forall j | 0 <= j < k ::
        SizeOf(specs[j], specs[j].relation in required, n) == Ok(sizes[j])
    {
      var size := SizeOf(specs[k], specs[k].relation in required, n);
      if size.Err? {
        return Err(size.error);
      }
      sizes := sizes + [size.value];
    }
    r := Ok(sizes);
  }

  // ----- one relation's rows -----

  function Min(a: nat, b: nat): nat { if a < b then a else b }

  /** The position in the shuffled order that a source's target is taken from. */
  ghost function TargetPosition(ordinal: nat, size: Size, backbone: nat): (p: nat)
    requires ordinal < size.sources && 0 < size.targets <= size.sources && backbone > 0
    ensures p < size.targets
  {
    var safe := Min(size.targets, backbone);
    if ordinal < backbone then ordinal % safe
    else if ordinal - backbone < size.targets - safe then safe + (ordinal - backbone)
    else (ordinal - backbone - (size.targets - safe)) % size.targets
  }

  /** Backbone sources stay in the backbone's part of the pool. */
  lemma BackboneStays(ordinal: nat, size: Size, backbone: nat)
    requires ordinal < size.sources && 0 < size.targets <= size.sources && ordinal < backbone
    ensures TargetPosition(ordinal, size, backbone) < backbone
  {
  }

  /** Every position of the pool is some source's: the safe ones a backbone source's, the
      others a later source's. */
  lemma PoolCovered(p: nat, size: Size, backbone: nat) returns (ordinal: nat)
    requires 0 < size.targets <= size.sources && backbone > 0 && p < size.targets
    ensures ordinal < size.sources && TargetPosition(ordinal, size, backbone) == p
  {
    var safe := Min(size.targets, backbone);
    ordinal := if p < safe then p else backbone + (p - safe);
    if p < safe {
      InPlace(p, safe);
    }
  }

  lemma {:induction false} InPlace(p: nat, n: nat)
    requires p < n
    ensures p % n == p
  {
  }

  // ----- the world -----

  datatype Target = ToEntity(entity: nat) | Literal(value: string)

  datatype Address = Address(source: nat, relation: string)

  datatype Fact = Fact(source: nat, relation: string, target: Target, compose: nat, central: bool)
  {
    function Addr(): Address { Address(source, relation) }
  }

  /** Where the entity identifiers and compose codes of a world start. */
  datatype Names = Names(entityOffset: nat, worldId: nat, composeBase: nat)

  ghost predicate Shuffled(order: seq<nat>, n: nat) {
    && |order| == n && (forall i | 0 <= i < n :: order[i] < n)
    && forall i, j {:trigger order[i], order[j]} | 0 <= i < j < n :: order[i] != order[j]
  }

  /** The row of one relation's ordinal-th source. */
  ghost function EntityFact(names: Names, order: seq<nat>, spec: Spec, index: nat, size: Size, backbone: nat,
                            required: bool,
                            ordinal: nat): Fact
    requires ordinal < size.sources <= |order| && 0 < size.targets <= size.sources && backbone > 0
  {
    Fact(names.entityOffset + order[ordinal], spec.relation,
      ToEntity(names.entityOffset + order[TargetPosition(ordinal, size, backbone)]),
         names.composeBase * 4 + (names.worldId + index + ordinal) % 4,
         required && ordinal < backbone && ordinal < (if backbone / 4 < 1 then 1 else backbone / 4))
  }

  ghost predicate SizesFit(sizes: seq<Size>, n: nat) {
    forall k | 0 <= k < |sizes| ::
      sizes[k].targets <= sizes[k].sources <= n && (sizes[k].sources > 0 <==> sizes[k].targets > 0)
  }

  /** What a world is generated from, once its sizes are planned. */
  datatype Plan = Plan(names: Names, order: seq<nat>, specs: seq<Spec>, sizes: seq<Size>, backbone: nat,
    required: set<string>)

  ghost predicate ValidPlan(plan: Plan) {
    && Shuffled(plan.order, |plan.order|) && ValidSpecs(plan.specs) && |plan.sizes| == |plan.specs|
    && SizesFit(plan.sizes, |plan.order|) && 0 < plan.backbone <= |plan.order|
    && forall k | 0 <= k < |plan.specs| && plan.specs[k].relation in plan.required ::
         plan.backbone <= plan.sizes[k].sources
  }

  /** Source i of relation k. */
  ghost predicate IsCell(plan: Plan, k: nat, i: nat) {
    k < |plan.specs| && k < |plan.sizes| && i < plan.sizes[k].sources
  }

  ghost function CellFact(plan: Plan, k: nat, i: nat): Fact
    requires |plan.sizes| == |plan.specs| && SizesFit(plan.sizes, |plan.order|) && plan.backbone > 0
      && IsCell(plan, k, i)
  {
    EntityFact(plan.names, plan.order, plan.specs[k], k, plan.sizes[k], plan.backbone,
      plan.specs[k].relation in plan.required, i)
  }

  /** Cells before part of relation `done`, relation by relation. */
  predicate Before(k: nat, i: nat, done: nat, part: nat) {
    k < done || (k == done && i < part)
  }

  /** The rows are exactly those of the cells so far. */
  ghost predicate HasCells(rows: map<Address, Fact>, plan: Plan, done: nat, part: nat)
    requires ValidPlan(plan)
  {
    && (forall k: nat, i: nat | IsCell(plan, k, i) && Before(k, i, done, part) ::
          CellFact(plan, k, i).Addr() in rows && rows[CellFact(plan, k, i).Addr()] == CellFact(plan, k, i))
    && forall a | a in rows ::
         exists k: nat, i: nat :: IsCell(plan, k, i) && Before(k, i, done, part) && a == CellFact(plan, k, i).Addr()
  }

  /** Different cells have different addresses. */
  lemma {:induction false} CellsDiffer(plan: Plan, k: nat, i: nat, l: nat, j: nat)
    requires ValidPlan(plan) && IsCell(plan, k, i) && IsCell(plan, l, j)
    requires CellFact(plan, k, i).Addr() == CellFact(plan, l, j).Addr()
    ensures k == l && i == j
  {
  }

  /** A cell's address is not taken before. */
  lemma {:induction false} CellIsNew(rows: map<Address, Fact>, plan: Plan, k: nat, i: nat)
    requires ValidPlan(plan) && IsCell(plan, k, i) && HasCells(rows, plan, k, i)
    ensures CellFact(plan, k, i).Addr() !in rows
  {
    forall a | a in rows
      ensures a != CellFact(plan, k, i).Addr()
    {
      var l: nat, j: nat :| IsCell(plan, l, j) && Before(l, j, k, i) && a == CellFact(plan, l, j).Addr();
      if a == CellFact(plan, k, i).Addr() {
        CellsDiffer(plan, k, i, l, j);
      }
    }
  }

  lemma {:induction false} CellsStay(rows: map<Address, Fact>, plan: Plan, k: nat, i: nat, fact: Fact, l: nat, j: nat)
    requires ValidPlan(plan) && IsCell(plan, k, i) && HasCells(rows, plan, k, i)
    requires fact == CellFact(plan, k, i) && fact.Addr() !in rows && IsCell(plan, l, j) && Before(l, j, k, i + 1)
    ensures var grown := rows[fact.Addr() := fact];
      CellFact(plan, l, j).Addr() in grown && grown[CellFact(plan, l, j).Addr()] == CellFact(plan, l, j)
  {
    if Before(l, j, k, i) {
      assert CellFact(plan, l, j).Addr() in rows;
    } else {
      assert l == k && j == i;
    }
  }

  lemma {:induction false} RowsStay(rows: map<Address, Fact>, plan: Plan, k: nat, i: nat, fact: Fact, a: Address)
    requires ValidPlan(plan) && IsCell(plan, k, i) && HasCells(rows, plan, k, i)
    requires fact == CellFact(plan, k, i) && (a in rows || a == fact.Addr())
    ensures exists l: nat, j: nat :: IsCell(plan, l, j) && Before(l, j, k, i + 1) && a == CellFact(plan, l, j).Addr()
  {
    if a in rows {
      var l: nat, j: nat :| IsCell(plan, l, j) && Before(l, j, k, i) && a == CellFact(plan, l, j).Addr();
      assert Before(l, j, k, i + 1);
    } else {
      assert Before(k, i, k, i + 1);
    }
  }

  lemma {:induction false} AddCell(rows: map<Address, Fact>, plan: Plan, k: nat, i: nat, fact: Fact)
    requires ValidPlan(plan) && IsCell(plan, k, i) && HasCells(rows, plan, k, i)
    requires fact == CellFact(plan, k, i) && fact.Addr() !in rows
    ensures HasCells(rows[fact.Addr() := fact], plan, k, i + 1)
  {
    var grown := rows[fact.Addr() := fact];
    forall l: nat, j: nat | IsCell(plan, l, j) && Before(l, j, k, i + 1)
      ensures CellFact(plan, l, j).Addr() in grown && grown[CellFact(plan, l, j).Addr()] == CellFact(plan, l, j)
    {
      CellsStay(rows, plan, k, i, fact, l, j);
    }
    forall a | a in grown
      ensures exists l: nat, j: nat :: IsCell(plan, l, j) && Before(l, j, k, i + 1) && a == CellFact(plan, l, j).Addr()
    {
      RowsStay(rows, plan, k, i, fact, a);
    }
  }

  lemma NextRelation(rows: map<Address, Fact>, plan: Plan, k: nat)
    requires ValidPlan(plan) && k < |plan.specs| && HasCells(rows, plan, k, plan.sizes[k].sources)
    ensures HasCells(rows, plan, k + 1, 0)
  {
    forall l: nat, j: nat | IsCell(plan, l, j)
      ensures Before(l, j, k, plan.sizes[k].sources) <==> Before(l, j, k + 1, 0)
    {
    }
  }

  // ----- generation -----

  datatype World = World(facts: seq<Fact>, reasoning: seq<nat>)

  /** _row_map: one fact an address, or the duplicate-address error. */
  method RowMap(facts: seq<Fact>) returns (rows: Option<map<Address, Fact>>)
    ensures rows.Some? ==>
      |rows.value| == |facts| && ListsRows(facts, rows.value) && forall f | f in facts :: rows.value[f.Addr()] == f
    ensures rows.None? ==> forall other: map<Address, Fact> | ListsRows(facts, other) :: |other| != |facts|
  {
    var byAddress: map<Address, Fact> := map[];
    for i := 0 to |facts|
      invariant Mapped(facts[..i], byAddress)
    {
      MapsOne(facts[..i], byAddress, facts[i], facts[..i + 1]);
      byAddress := byAddress[facts[i].Addr() := facts[i]];
    }
    assert facts[..|facts|] == facts;
    forall other: map<Address, Fact> | ListsRows(facts, other)
      ensures other.Keys == byAddress.Keys
    {
    }
    rows := if |byAddress| != |facts| then None else Some(byAddress);
  }

  /** The last fact of each address; every fact, when no address is listed twice. */
  ghost predicate Mapped(facts: seq<Fact>, rows: map<Address, Fact>) {
    && ListsRows(facts, rows) && |rows| <= |facts|
    && (|rows| == |facts| ==> forall f | f in facts :: rows[f.Addr()] == f)
  }

  lemma {:induction false} MapsOne(facts: seq<Fact>, rows: map<Address, Fact>, fact: Fact, more: seq<Fact>)
    requires Mapped(facts, rows) && more == facts + [fact]
    ensures Mapped(more, rows[fact.Addr() := fact])
  {
    var next := rows[fact.Addr() := fact];
    assert more[|facts|] == fact;
    assert forall f | f in facts :: f in more;
    if fact.Addr() in rows {
      assert next.Keys == rows.Keys && |next| == |next.Keys|;
    } else {
      assert next.Keys == rows.Keys + {fact.Addr()} && |next| == |next.Keys|;
    }
  }

  /** Each row is a listed fact, under its own address, and each listed fact's address has one. */
  ghost predicate ListsRows(facts: seq<Fact>, rows: map<Address, Fact>) {
    && (forall f | f in facts :: f.Addr() in rows)
    && forall a | a in rows :: rows[a] in facts && rows[a].Addr() == a
  }

  function Least(sizes: seq<Size>, specs: seq<Spec>, required: set<string>, k: nat): Option<nat>
    requires k <= |sizes| == |specs|
  {
    if k == 0 then None
    else
      var rest := Least(sizes, specs, required, k - 1);
      if specs[k - 1].relation !in required then rest
      else if rest.None? || sizes[k - 1].sources < rest.value then Some(sizes[k - 1].sources) else rest
  }

  lemma {:induction false} LeastIsLeast(sizes: seq<Size>, specs: seq<Spec>, required: set<string>, k: nat)
    requires k <= |sizes| == |specs|
    ensures Least(sizes, specs, required, k).None? <==> forall l | 0 <= l < k :: specs[l].relation !in required
    ensures forall l | 0 <= l < k && specs[l].relation in required ::
      Least(sizes, specs, required, k).value <= sizes[l].sources
    ensures Least(sizes, specs, required, k).Some? ==>
              exists l :: 0 <= l < k && specs[l].relation in required
                && Least(sizes, specs, required, k).value == sizes[l].sources
  {
    if k > 0 {
      LeastIsLeast(sizes, specs, required, k - 1);
      var before := Least(sizes, specs, required, k - 1);
      if before.Some? {
        var l :| 0 <= l < k - 1 && specs[l].relation in required && before.value == sizes[l].sources;
      }
    }
  }

  /** The relations some required path uses. */
  function Required(paths: seq<seq<string>>): set<string> {
    set p, relation | p in paths && relation in p :: relation
  }

  /** All sizes, then the smallest required one as the backbone. */
  method MakePlan(names: Names, order: seq<nat>, specs: seq<Spec>, paths: seq<seq<string>>) returns (r: Result<Plan>)
    requires Shuffled(order, |order|) && |order| > 0 && ValidSpecs(specs)
    requires exists p :: p in paths && p != []
    ensures r.Ok? ==>
      ValidPlan(r.value) && r.value.required == Required(paths) && r.value.specs == specs && r.value.order == order
      && r.value.names == names
    ensures r.Ok? ==>
      forall relation | relation in Required(paths) :: exists k :: 0 <= k < |specs| && specs[k].relation == relation
    ensures r.Ok? ==>
      forall k | 0 <= k < |specs| ::
      SizeOf(specs[k], specs[k].relation in Required(paths), |order|) == Ok(r.value.sizes[k])
    ensures r.Err? && r.error != UnknownRequired ==>
      exists k :: 0 <= k < |specs| && SizeOf(specs[k], specs[k].relation in Required(paths), |order|) == Err(r.error)
    ensures r == Err(UnknownRequired) ==>
      exists relation :: relation in Required(paths) && forall k | 0 <= k < |specs| :: specs[k].relation != relation
  {
    var required := Required(paths);
    var planned := PlanSizes(specs, required, |order|);
    if planned.Err? {
      return Err(planned.error);
    }
    var sizes := planned.value;
    PlannedSizesFit(specs, required, |order|, sizes);
    var known := set k | 0 <= k < |specs| :: specs[k].relation;
    if !(required <= known) {
      return Err(UnknownRequired);
    }
    SomeRequired(paths, specs);
    LeastIsLeast(sizes, specs, required, |specs|);
    var backbone := Least(sizes, specs, required, |specs|).value;
    r := Ok(Plan(names, order, specs, sizes, backbone, required));
  }

  lemma {:induction false} PlannedSizesFit(specs: seq<Spec>, required: set<string>, n: nat, sizes: seq<Size>)
    requires ValidSpecs(specs) && n >= 1 && |sizes| == |specs|
    requires forall k | 0 <= k < |specs| :: SizeOf(specs[k], specs[k].relation in required, n) == Ok(sizes[k])
    ensures SizesFit(sizes, n)
    ensures forall k | 0 <= k < |specs| && specs[k].relation in required :: sizes[k].sources >= 1
  {
    forall k | 0 <= k < |specs|
      ensures sizes[k].targets <= sizes[k].sources <= n && (sizes[k].sources > 0 <==> sizes[k].targets > 0)
      ensures specs[k].relation in required ==> sizes[k].sources >= 1
    {
      SizeFits(specs[k], specs[k].relation in required, n);
    }
  }

  lemma SomeRequired(paths: seq<seq<string>>, specs: seq<Spec>)
    requires exists p :: p in paths && p != []
    requires Required(paths) <= set k | 0 <= k < |specs| :: specs[k].relation
    ensures exists l :: 0 <= l < |specs| && specs[l].relation in Required(paths)
  {
    var p :| p in paths && p != [];
    assert p[0] in p && p[0] in Required(paths);
    var l :| 0 <= l < |specs| && specs[l].relation == p[0];
  }

  /** The facts listed so far are exactly the cells so far, each once. */
  ghost predicate Listed(facts: seq<Fact>, rows: map<Address, Fact>, plan: Plan, done: nat, part: nat)
    requires ValidPlan(plan)
  {
    HasCells(rows, plan, done, part) && ListsRows(facts, rows) && |rows| == |facts|
  }

  lemma ListCell(facts: seq<Fact>, rows: map<Address, Fact>, plan: Plan, k: nat, i: nat)
    requires ValidPlan(plan) && IsCell(plan, k, i) && Listed(facts, rows, plan, k, i)
    ensures Listed(facts + [CellFact(plan, k, i)], rows[CellFact(plan, k, i).Addr() := CellFact(plan, k, i)], plan, k,
      i + 1)
  {
    CellIsNew(rows, plan, k, i);
    AddCell(rows, plan, k, i, CellFact(plan, k, i));
    ListRow(facts, rows, CellFact(plan, k, i));
  }

  lemma ListRow(facts: seq<Fact>, rows: map<Address, Fact>, fact: Fact)
    requires ListsRows(facts, rows) && fact.Addr() !in rows
    ensures ListsRows(facts + [fact], rows[fact.Addr() := fact]) && |rows[fact.Addr() := fact]| == |rows| + 1
  {
    var next := rows[fact.Addr() := fact];
    assert (facts + [fact])[|facts|] == fact;
    assert next.Keys == rows.Keys + {fact.Addr()};
    forall a | a in rows
      ensures rows[a] in facts + [fact]
    {
    }
  }

  /** Where the i-th source of a relation points; `later` counts the sources past the backbone. */
  method TargetOf(plan: Plan, backboneSet: set<nat>, size: Size, i: nat, later: nat)
    returns (target: nat, nextLater: nat)
    requires ValidPlan(plan) && i < size.sources <= |plan.order| && 0 < size.targets <= size.sources
    requires backboneSet == set j | 0 <= j < plan.backbone :: plan.order[j]
    requires later == if i <= plan.backbone then 0 else i - plan.backbone
    ensures target == plan.order[TargetPosition(i, size, plan.backbone)]
    ensures nextLater == if i < plan.backbone then 0 else i + 1 - plan.backbone
  {
    var pool := plan.order[..size.targets];
    var safe := pool[..Min(size.targets, plan.backbone)];
    var extra := pool[Min(size.targets, plan.backbone)..];
    InBackbone(plan, i);
    nextLater := later;
    if plan.order[i] in backboneSet {
      target := safe[i % |safe|];
    } else {
      target := if later < |extra| then extra[later] else pool[(later - |extra|) % |pool|];
      nextLater := later + 1;
    }
  }

  /** The row of the i-th source of relation k. */
  method MakeRow(plan: Plan, backboneSet: set<nat>, k: nat, i: nat, later: nat) returns (fact: Fact, nextLater: nat)
    requires ValidPlan(plan) && IsCell(plan, k, i) && backboneSet == set j | 0 <= j < plan.backbone :: plan.order[j]
    requires later == if i <= plan.backbone then 0 else i - plan.backbone
    ensures fact == CellFact(plan, k, i)
    ensures nextLater == if i < plan.backbone then 0 else i + 1 - plan.backbone
  {
    var source := plan.order[i];
    var target;
    target, nextLater := TargetOf(plan, backboneSet, plan.sizes[k], i, later);
    InBackbone(plan, i);
    var required := plan.specs[k].relation in plan.required;
    fact := Fact(plan.names.entityOffset + source, plan.specs[k].relation, ToEntity(plan.names.entityOffset + target),
                 plan.names.composeBase * 4 + (plan.names.worldId + k + i) % 4,
                 required && source in backboneSet && i < (if plan.backbone / 4 < 1 then 1 else plan.backbone / 4));
  }

  /** All rows of relation k. */
  method GenerateRelation(plan: Plan, backboneSet: set<nat>, k: nat, before: seq<Fact>, ghost rowsBefore: map<Address,
                          Fact>)
    returns (facts: seq<Fact>, ghost rows: map<Address, Fact>)
    requires ValidPlan(plan) && k < |plan.specs| && backboneSet == set j | 0 <= j < plan.backbone :: plan.order[j]
    requires Listed(before, rowsBefore, plan, k, 0)
    ensures Listed(facts, rows, plan, k + 1, 0)
  {
    facts, rows := before, rowsBefore;
    var later: nat := 0;
    for i: nat := 0 to plan.sizes[k].sources
      invariant Listed(facts, rows, plan, k, i)
      invariant later == if i <= plan.backbone then 0 else i - plan.backbone
    {
      var fact;
      fact, later := MakeRow(plan, backboneSet, k, i, later);
      ListCell(facts, rows, plan, k, i);
      rows := rows[fact.Addr() := fact];
      facts := facts + [fact];
    }
    NextRelation(rows, plan, k);
  }

  lemma NothingListed(plan: Plan)
    requires ValidPlan(plan)
    ensures Listed([], map[], plan, 0, 0)
  {
  }

  /** reasoning_entity_ids: the backbone's entities, in the shuffled order. */
  function ReasoningEntities(plan: Plan): (entities: seq<nat>)
    requires ValidPlan(plan)
    ensures |entities| == plan.backbone
    ensures forall i | 0 <= i < plan.backbone :: entities[i] == plan.names.entityOffset + plan.order[i]
  {
    seq(plan.backbone, i requires 0 <= i < plan.backbone => EntityAt(plan.names, plan.order, i))
  }

  /** What the row of source i of relation k says. Compose codes are the world's four, one further
      with each source and with each relation; of a required relation the first source is central,
      and more of them up to a quarter of the backbone. */
  ghost predicate Reads(fact: Fact, plan: Plan, k: nat, i: nat)
    requires IsCell(plan, k, i) && i < |plan.order|
  {
    && fact.source == plan.names.entityOffset + plan.order[i] && fact.relation == plan.specs[k].relation
    && 4 * plan.names.composeBase <= fact.compose < 4 * plan.names.composeBase + 4
    && (fact.compose - plan.names.worldId - k - i) % 4 == 0
    && (fact.central <==> plan.specs[k].relation in plan.required && (i == 0 || 4 * (i + 1) <= plan.backbone))
  }

  lemma {:induction false} CellSays(plan: Plan, k: nat, i: nat)
    requires ValidPlan(plan) && IsCell(plan, k, i)
    ensures Reads(CellFact(plan, k, i), plan, k, i)
  {
    CodeSteps(plan.names.composeBase, plan.names.worldId + k + i);
  }

  lemma {:induction false} CodeSteps(base: nat, n: nat)
    ensures var code := base * 4 + n % 4; 4 * base <= code < 4 * base + 4 && (code - n) % 4 == 0
  {
    assert base * 4 + n % 4 - n == 4 * (base - n / 4);
  }

  /** Source i of relation k has its row. */
  ghost predicate HasRow(rows: map<Address, Fact>, plan: Plan, k: nat, i: nat) {
    && IsCell(plan, k, i) && i < |plan.order|
    && exists a {:trigger rows[a]} :: a in rows && rows[a].Addr() == a && Reads(rows[a], plan, k, i)
  }

  /** A row is some source's. */
  ghost predicate IsRow(rows: map<Address, Fact>, plan: Plan, a: Address) {
    a in rows && rows[a].Addr() == a
    && exists k: nat, i: nat :: IsCell(plan, k, i) && i < |plan.order| && Reads(rows[a], plan, k, i)
  }

  /** The rows of a world, read one by one. */
  ghost predicate RowsRead(rows: map<Address, Fact>, plan: Plan) {
    && (forall k: nat, i: nat | IsCell(plan, k, i) :: HasRow(rows, plan, k, i))
    && forall a | a in rows :: IsRow(rows, plan, a)
  }

  lemma {:induction false} CellHasRow(rows: map<Address, Fact>, plan: Plan, k: nat, i: nat)
    requires ValidPlan(plan) && HasCells(rows, plan, |plan.specs|, 0) && IsCell(plan, k, i)
    ensures HasRow(rows, plan, k, i)
  {
    CellRow(rows, plan, k, i);
    CellSays(plan, k, i);
    var a := CellFact(plan, k, i).Addr();
    assert rows[a].Addr() == a;
  }

  lemma {:induction false} RowHasCell(rows: map<Address, Fact>, plan: Plan, a: Address)
    requires ValidPlan(plan) && HasCells(rows, plan, |plan.specs|, 0) && a in rows
    ensures IsRow(rows, plan, a)
  {
    var k: nat, i: nat :| IsCell(plan, k, i) && Before(k, i, |plan.specs|, 0) && a == CellFact(plan, k, i).Addr();
    CellSays(plan, k, i);
  }

  /** Every source's row is there, and every row is some source's. */
  lemma {:induction false} CellsRead(rows: map<Address, Fact>, plan: Plan)
    requires ValidPlan(plan) && HasCells(rows, plan, |plan.specs|, 0)
    ensures RowsRead(rows, plan)
  {
    forall k: nat, i: nat | IsCell(plan, k, i)
      ensures HasRow(rows, plan, k, i)
    {
      CellHasRow(rows, plan, k, i);
    }
    forall a | a in rows
      ensures IsRow(rows, plan, a)
    {
      RowHasCell(rows, plan, a);
    }
  }

  /** The entity rows of a world, relation by relation; the literal rows come after them. */
  method GenerateRows(plan: Plan) returns (world: World, ghost rows: map<Address, Fact>)
    requires ValidPlan(plan)
    ensures Listed(world.facts, rows, plan, |plan.specs|, 0)
    ensures world.reasoning == ReasoningEntities(plan)
  {
    var backboneSet := set i | 0 <= i < plan.backbone :: plan.order[i];
    var facts: seq<Fact> := [];
    rows := map[];
    NothingListed(plan);
    for k: nat := 0 to |plan.specs|
      invariant Listed(facts, rows, plan, k, 0)
    {
      facts, rows := GenerateRelation(plan, backboneSet, k, facts, rows);
    }
    world := World(facts, ReasoningEntities(plan));
  }

  /** Membership of the backbone is a matter of position in the shuffled order. */
  lemma InBackbone(plan: Plan, i: nat)
    requires ValidPlan(plan) && i < |plan.order|
    ensures plan.order[i] in (set j | 0 <= j < plan.backbone :: plan.order[j]) <==> i < plan.backbone
  {
    var own := plan.order[i];
    forall j | 0 <= j < plan.backbone && i != j
      ensures plan.order[j] != own
    {
    }
  }

  // ----- the promised counts -----

  ghost function SourcesOf(rows: map<Address, Fact>, relation: string): set<nat> {
    set a | a in rows && a.relation == relation :: a.source
  }

  ghost function TargetsOf(rows: map<Address, Fact>, relation: string): set<Target> {
    set a | a in rows && a.relation == relation :: rows[a].target
  }

  /** The entities at the first k positions of the shuffled order. */
  function Entities(names: Names, order: seq<nat>, k: nat): set<nat>
    requires k <= |order|
  {
    if k == 0 then {} else Entities(names, order, k - 1) + {names.entityOffset + order[k - 1]}
  }

  ghost predicate Stands(names: Names, order: seq<nat>, e: nat, i: nat) {
    i < |order| && e == names.entityOffset + order[i]
  }

  lemma {:induction false} InEntities(names: Names, order: seq<nat>, k: nat, e: nat)
    requires k <= |order|
    ensures e in Entities(names, order, k) <==> exists i: nat :: i < k && Stands(names, order, e, i)
  {
    if k > 0 {
      InEntities(names, order, k - 1, e);
      assert e == names.entityOffset + order[k - 1] ==> Stands(names, order, e, k - 1);
    }
  }

  lemma {:induction false} EntitiesCount(names: Names, order: seq<nat>, k: nat)
    requires k <= |order| && Shuffled(order, |order|)
    ensures |Entities(names, order, k)| == k
  {
    if k > 0 {
      EntitiesCount(names, order, k - 1);
      InEntities(names, order, k - 1, names.entityOffset + order[k - 1]);
    }
  }

  /** Every row is its relation's cell, and vice versa. */
  lemma RowCell(rows: map<Address, Fact>, plan: Plan, a: Address, k: nat) returns (i: nat)
    requires ValidPlan(plan) && HasCells(rows, plan, |plan.specs|, 0) && k < |plan.specs| && a in rows
      && a.relation == plan.specs[k].relation
    ensures IsCell(plan, k, i) && a == CellFact(plan, k, i).Addr() && rows[a] == CellFact(plan, k, i)
  {
    var l: nat, j: nat :| IsCell(plan, l, j) && Before(l, j, |plan.specs|, 0) && a == CellFact(plan, l, j).Addr();
    i := j;
    assert l == k;
  }

  lemma CellRow(rows: map<Address, Fact>, plan: Plan, k: nat, i: nat)
    requires ValidPlan(plan) && HasCells(rows, plan, |plan.specs|, 0) && IsCell(plan, k, i)
    ensures CellFact(plan, k, i).Addr() in rows && rows[CellFact(plan, k, i).Addr()] == CellFact(plan, k, i)
  {
    assert Before(k, i, |plan.specs|, 0);
  }

  function EntityAt(names: Names, order: seq<nat>, i: nat): nat
    requires i < |order|
  {
    names.entityOffset + order[i]
  }

  ghost function SourceAddress(names: Names, order: seq<nat>, relation: string, i: nat): Address
    requires i < |order|
  {
    Address(names.entityOffset + order[i], relation)
  }

  /** One relation's rows: its sources' positions, and where each points. */
  ghost predicate RelationRows(rows: map<Address, Fact>, names: Names, order: seq<nat>, relation: string, size: Size,
                               backbone: nat)
    requires size.targets <= size.sources <= |order| && (size.sources > 0 <==> size.targets > 0) && backbone > 0
  {
    && (forall i: nat {:trigger SourceAddress(names, order, relation, i)} | i < size.sources ::
          && SourceAddress(names, order, relation, i) in rows
          && rows[SourceAddress(names, order, relation, i)].target
               == ToEntity(names.entityOffset + order[TargetPosition(i, size, backbone)]))
    && forall a | a in rows && a.relation == relation ::
         exists i: nat :: i < size.sources && Stands(names, order, a.source, i)
  }

  lemma CellsAreRelationRows(rows: map<Address, Fact>, plan: Plan, k: nat)
    requires ValidPlan(plan) && HasCells(rows, plan, |plan.specs|, 0) && k < |plan.specs|
    ensures RelationRows(rows, plan.names, plan.order, plan.specs[k].relation, plan.sizes[k], plan.backbone)
  {
    forall i: nat | i < plan.sizes[k].sources
      ensures SourceAddress(plan.names, plan.order, plan.specs[k].relation, i) in rows
      ensures rows[SourceAddress(plan.names, plan.order, plan.specs[k].relation, i)].target
              == ToEntity(plan.names.entityOffset + plan.order[TargetPosition(i, plan.sizes[k], plan.backbone)])
    {
      RowAtPosition(rows, plan, k, i);
    }
    forall a | a in rows && a.relation == plan.specs[k].relation
      ensures exists i: nat :: i < plan.sizes[k].sources && Stands(plan.names, plan.order, a.source, i)
    {
      PositionOfRow(rows, plan, k, a);
    }
  }

  lemma {:induction false} RowAtPosition(rows: map<Address, Fact>, plan: Plan, k: nat, i: nat)
    requires ValidPlan(plan) && HasCells(rows, plan, |plan.specs|, 0) && IsCell(plan, k, i)
    ensures SourceAddress(plan.names, plan.order, plan.specs[k].relation, i) in rows
    ensures rows[SourceAddress(plan.names, plan.order, plan.specs[k].relation, i)].target
            == ToEntity(plan.names.entityOffset + plan.order[TargetPosition(i, plan.sizes[k], plan.backbone)])
  {
    CellRow(rows, plan, k, i);
    CellReads(plan, k, i);
  }

  lemma {:induction false} CellReads(plan: Plan, k: nat, i: nat)
    requires |plan.sizes| == |plan.specs| && SizesFit(plan.sizes, |plan.order|) && plan.backbone > 0
      && IsCell(plan, k, i)
    ensures CellFact(plan, k, i).Addr() == SourceAddress(plan.names, plan.order, plan.specs[k].relation, i)
    ensures CellFact(plan, k, i).target
            == ToEntity(plan.names.entityOffset + plan.order[TargetPosition(i, plan.sizes[k], plan.backbone)])
  {
  }

  lemma PositionOfRow(rows: map<Address, Fact>, plan: Plan, k: nat, a: Address)
    requires ValidPlan(plan) && HasCells(rows, plan, |plan.specs|, 0) && k < |plan.specs| && a in rows
      && a.relation == plan.specs[k].relation
    ensures exists i: nat :: i < plan.sizes[k].sources && Stands(plan.names, plan.order, a.source, i)
  {
    var i := RowCell(rows, plan, a, k);
    assert Stands(plan.names, plan.order, a.source, i);
  }

  lemma IsSource(rows: map<Address, Fact>, names: Names, order: seq<nat>, relation: string, size: Size, backbone: nat,
                 e: nat)
    requires size.targets <= size.sources <= |order| && (size.sources > 0 <==> size.targets > 0) && backbone > 0
    requires RelationRows(rows, names, order, relation, size, backbone)
    ensures e in SourcesOf(rows, relation) <==> e in Entities(names, order, size.sources)
  {
    InEntities(names, order, size.sources, e);
    if e in Entities(names, order, size.sources) {
      var i: nat :| i < size.sources && Stands(names, order, e, i);
      assert SourceAddress(names, order, relation, i) in rows;
    }
  }

  lemma IsTarget(rows: map<Address, Fact>, names: Names, order: seq<nat>, relation: string, size: Size, backbone: nat,
                 t: Target)
    requires size.targets <= size.sources <= |order| && (size.sources > 0 <==> size.targets > 0) && backbone > 0
    requires RelationRows(rows, names, order, relation, size, backbone)
    ensures t in TargetsOf(rows, relation) <==> t.ToEntity? && t.entity in Entities(names, order, size.targets)
  {
    if t in TargetsOf(rows, relation) {
      var a :| a in rows && a.relation == relation && rows[a].target == t;
      var i: nat :| i < size.sources && Stands(names, order, a.source, i);
      assert a == SourceAddress(names, order, relation, i);
      InEntities(names, order, size.targets, t.entity);
      assert Stands(names, order, t.entity, TargetPosition(i, size, backbone));
    }
    if t.ToEntity? && t.entity in Entities(names, order, size.targets) {
      InEntities(names, order, size.targets, t.entity);
      var p: nat :| p < size.targets && Stands(names, order, t.entity, p);
      var i := PoolCovered(p, size, backbone);
      assert rows[SourceAddress(names, order, relation, i)].target == t;
    }
  }

  /** A relation has exactly its planned number of subjects, and hits exactly its planned number
      of distinct objects. */
  lemma ExactCounts(rows: map<Address, Fact>, plan: Plan, k: nat)
    requires ValidPlan(plan) && HasCells(rows, plan, |plan.specs|, 0) && k < |plan.specs|
    ensures |SourcesOf(rows, plan.specs[k].relation)| == plan.sizes[k].sources
    ensures |TargetsOf(rows, plan.specs[k].relation)| == plan.sizes[k].targets
  {
    CellsAreRelationRows(rows, plan, k);
    var sources := Entities(plan.names, plan.order, plan.sizes[k].sources);
    forall e
      ensures e in SourcesOf(rows, plan.specs[k].relation) <==> e in sources
    {
      IsSource(rows, plan.names, plan.order, plan.specs[k].relation, plan.sizes[k], plan.backbone, e);
    }
    assert SourcesOf(rows, plan.specs[k].relation) == sources;
    EntitiesCount(plan.names, plan.order, plan.sizes[k].sources);
    var pool := Entities(plan.names, plan.order, plan.sizes[k].targets);
    forall t
      ensures t in TargetsOf(rows, plan.specs[k].relation) <==> t.ToEntity? && t.entity in pool
    {
      IsTarget(rows, plan.names, plan.order, plan.specs[k].relation, plan.sizes[k], plan.backbone, t);
    }
    EntitiesCount(plan.names, plan.order, plan.sizes[k].targets);
    SameCount(pool, TargetsOf(rows, plan.specs[k].relation));
  }

  lemma {:induction false} SameCount(entities: set<nat>, targets: set<Target>)
    requires forall t :: t in targets <==> t.ToEntity? && t.entity in entities
    ensures |targets| == |entities|
    decreases |entities|
  {
    if entities == {} {
      assert targets == {};
    } else {
      var e: nat :| e in entities;
      SameCount(entities - {e}, targets - {ToEntity(e)});
    }
  }
}
