/** Whole schema-shaped worlds: the entity rows and, after them, a literal row of every literal
    relation for every entity (srgm_worlds.py, _schema_relation_specs, the literal rows of
    _generate_schema_world, _entity_ids and _relation_for_kind). */
module LiteralWorlds {
  import opened Wrappers
  import opened SchemaWorlds
  import opened LiteralValues
  import opened LiteralPairs
  import G = GraphSchedule

  datatype WorldError = NoEntityRelations | TooFewLiterals | Unplannable(error: Error)

  datatype Generated<T> = Complete(value: T) | Rejected(error: WorldError)

  /** What a whole world is generated from: the entity rows' plan, the literal relations and the
      namespace of their values. */
  datatype Design = Design(plan: Plan, literals: seq<LiteralSpec>, payload: string)

  function Entities(d: Design): nat { |d.plan.order| }

  function CountKind(literals: seq<LiteralSpec>, kind: LiteralKind): nat {
    if literals == [] then 0
    else CountKind(literals[..|literals| - 1], kind) + if literals[|literals| - 1].kind == kind then 1 else 0
  }

  /** The literal relations of the kind, by their places. */
  ghost function OfKind(literals: seq<LiteralSpec>, kind: LiteralKind): set<nat> {
    set k: nat | k < |literals| && literals[k].kind == kind
  }

  lemma {:induction false} CountIs(literals: seq<LiteralSpec>, kind: LiteralKind)
    ensures CountKind(literals, kind) == |OfKind(literals, kind)|
  {
    if literals == [] {
      assert OfKind(literals, kind) == {};
    } else {
      var front, last := literals[..|literals| - 1], literals[|literals| - 1];
      assert literals == front + [last];
      CountIs(front, kind);
      OneMoreKind(front, last, kind);
    }
  }

  lemma {:induction false} OneMoreKind(literals: seq<LiteralSpec>, spec: LiteralSpec, kind: LiteralKind)
    ensures |OfKind(literals + [spec], kind)| == |OfKind(literals, kind)| + if spec.kind == kind then 1 else 0
  {
    var before := OfKind(literals, kind);
    assert OfKind(literals + [spec], kind) == if spec.kind == kind then before + {|literals|} else before;
  }

  /** No literal relation is another one or an entity relation, as the schema demands of its
      path relations. */
  ghost predicate Separate(specs: seq<Spec>, literals: seq<LiteralSpec>) {
    && (forall k, l {:trigger literals[k], literals[l]} | 0 <= k < l < |literals| ::
         literals[k].relation != literals[l].relation)
    && forall k, l {:trigger specs[k], literals[l]} | 0 <= k < |specs| && 0 <= l < |literals| ::
         specs[k].relation != literals[l].relation
  }

  ghost predicate ValidDesign(d: Design) {
    ValidPlan(d.plan) && Separate(d.plan.specs, d.literals)
  }

  // ----- literal rows -----

  /** The row of the index-th literal relation for a local id. It has no compose code, which no
      path reads; its audit class is peripheral. */
  function LiteralFact(d: Design, index: nat, local: nat): Fact
    requires index < |d.literals|
  {
    Fact(d.plan.names.entityOffset + local, d.literals[index].relation,
         Literal(LiteralValue(d.literals[index], d.payload, local, index, Entities(d))), 0, false)
  }

  /** What a literal row says, word for word. */
  lemma {:induction false} LiteralSays(d: Design, index: nat, local: nat) returns (rest: string)
    requires index < |d.literals|
    ensures var f, relation := LiteralFact(d, index, local), d.literals[index].relation;
      && f.source == d.plan.names.entityOffset + local && f.relation == relation
      && f.target == Literal(d.payload + ":" + relation + ":" + rest) && f.compose == 0 && !f.central
    ensures Says(rest, d.literals[index].kind, local, index, Entities(d))
  {
    rest := ValueSays(d.literals[index], d.payload, local, index, Entities(d));
  }

  ghost predicate IsLiteralCell(d: Design, index: nat, local: nat) { index < |d.literals| && local < Entities(d) }

  /** The rows are the entity rows, and exactly the literal rows before local id `part` of
      literal relation `done`. */
  ghost predicate HasLiterals(rows: map<Address, Fact>, base: map<Address, Fact>, d: Design, done: nat, part: nat) {
    && (forall a | a in base :: a in rows && rows[a] == base[a])
    && (forall k: nat, i: nat | IsLiteralCell(d, k, i) && Before(k, i, done, part) ::
          LiteralFact(d, k, i).Addr() in rows && rows[LiteralFact(d, k, i).Addr()] == LiteralFact(d, k, i))
    && forall a | a in rows && a !in base ::
         exists k: nat, i: nat :: IsLiteralCell(d, k, i) && Before(k, i, done, part) && a == LiteralFact(d, k, i).Addr()
  }

  /** The whole world's rows, listed once each. */
  ghost predicate ListedWith(facts: seq<Fact>, rows: map<Address, Fact>, base: map<Address, Fact>, d: Design, done: nat,
                             part: nat) {
    HasLiterals(rows, base, d, done, part) && ListsRows(facts, rows) && |rows| == |facts|
  }

  /** An entity row's relation is no literal one. */
  lemma {:induction false} EntityRelation(base: map<Address, Fact>, d: Design, a: Address)
    requires ValidDesign(d) && HasCells(base, d.plan, |d.plan.specs|, 0) && a in base
    ensures forall k | 0 <= k < |d.literals| :: d.literals[k].relation != a.relation
  {
    var l: nat, j: nat :| IsCell(d.plan, l, j) && Before(l, j, |d.plan.specs|, 0) && a == CellFact(d.plan, l, j).Addr();
    assert d.plan.specs[l].relation == a.relation;
  }

  lemma {:induction false} LiteralCellsDiffer(d: Design, k: nat, i: nat, l: nat, j: nat)
    requires ValidDesign(d) && k < |d.literals| && l < |d.literals|
      && LiteralFact(d, k, i).Addr() == LiteralFact(d, l, j).Addr()
    ensures k == l && i == j
  {
  }

  /** A literal row's address is not taken before. */
  lemma {:induction false} LiteralIsNew(rows: map<Address, Fact>, base: map<Address, Fact>, d: Design, k: nat, i: nat)
    requires ValidDesign(d) && HasCells(base, d.plan, |d.plan.specs|, 0) && IsLiteralCell(d, k, i)
      && HasLiterals(rows, base, d, k, i)
    ensures LiteralFact(d, k, i).Addr() !in rows
  {
    forall a | a in rows
      ensures a != LiteralFact(d, k, i).Addr()
    {
      if a in base {
        EntityRelation(base, d, a);
      } else {
        var l: nat, j: nat :| IsLiteralCell(d, l, j) && Before(l, j, k, i) && a == LiteralFact(d, l, j).Addr();
        assert l != k || j != i;
        if a == LiteralFact(d, k, i).Addr() {
          LiteralCellsDiffer(d, k, i, l, j);
        }
      }
    }
  }

  lemma {:induction false} AddLiteral(rows: map<Address, Fact>, base: map<Address, Fact>, d: Design, k: nat, i: nat,
                                      fact: Fact, next: nat)
    requires IsLiteralCell(d, k, i) && HasLiterals(rows, base, d, k, i) && fact == LiteralFact(d, k, i)
      && fact.Addr() !in rows && next == i + 1
    ensures HasLiterals(rows[fact.Addr() := fact], base, d, k, next)
  {
    var grown := rows[fact.Addr() := fact];
    forall l: nat, j: nat | IsLiteralCell(d, l, j) && Before(l, j, k, next)
      ensures LiteralFact(d, l, j).Addr() in grown && grown[LiteralFact(d, l, j).Addr()] == LiteralFact(d, l, j)
    {
      if !Before(l, j, k, i) {
        assert l == k && j == i;
      }
    }
    forall a | a in grown && a !in base
      ensures exists l: nat, j: nat ::
        IsLiteralCell(d, l, j) && Before(l, j, k, next) && a == LiteralFact(d, l, j).Addr()
    {
      if a in rows {
        var l: nat, j: nat :| IsLiteralCell(d, l, j) && Before(l, j, k, i) && a == LiteralFact(d, l, j).Addr();
        assert Before(l, j, k, next);
      } else {
        assert Before(k, i, k, next);
      }
    }
  }

  lemma {:induction false} ListLiteral(facts: seq<Fact>, rows: map<Address, Fact>, base: map<Address, Fact>, d: Design,
                                       k: nat, i: nat, fact: Fact, next: nat)
    requires ValidDesign(d) && HasCells(base, d.plan, |d.plan.specs|, 0) && IsLiteralCell(d, k, i)
    requires ListedWith(facts, rows, base, d, k, i) && fact == LiteralFact(d, k, i) && next == i + 1
    ensures ListedWith(facts + [fact], rows[fact.Addr() := fact], base, d, k, next)
  {
    LiteralIsNew(rows, base, d, k, i);
    AddLiteral(rows, base, d, k, i, fact, next);
    ListRow(facts, rows, fact);
  }

  lemma {:induction false} NextLiteral(rows: map<Address, Fact>, base: map<Address, Fact>, d: Design, k: nat, next: nat)
    requires HasLiterals(rows, base, d, k, Entities(d)) && k < |d.literals| && next == k + 1
    ensures HasLiterals(rows, base, d, next, 0)
  {
    forall l: nat, j: nat | IsLiteralCell(d, l, j)
      ensures Before(l, j, k, Entities(d)) <==> Before(l, j, next, 0)
    {
    }
  }

  /** The rows of one literal relation. */
  method GenerateLiteral(d: Design, k: nat, before: seq<Fact>, ghost rowsBefore: map<Address, Fact>,
                         ghost base: map<Address, Fact>, ghost next: nat)
    returns (facts: seq<Fact>, ghost rows: map<Address, Fact>)
    requires ValidDesign(d) && HasCells(base, d.plan, |d.plan.specs|, 0) && k < |d.literals| && next == k + 1
    requires ListedWith(before, rowsBefore, base, d, k, 0)
    ensures ListedWith(facts, rows, base, d, next, 0)
  {
    facts, rows := before, rowsBefore;
    for i: nat := 0 to Entities(d)
      invariant ListedWith(facts, rows, base, d, k, i)
    {
      var fact := LiteralFact(d, k, i);
      ListLiteral(facts, rows, base, d, k, i, fact, i + 1);
      rows := rows[fact.Addr() := fact];
      facts := facts + [fact];
    }
    NextLiteral(rows, base, d, k, next);
  }

  /** All literal rows, after the entity rows. */
  method GenerateLiterals(d: Design, before: seq<Fact>, ghost base: map<Address, Fact>)
    returns (facts: seq<Fact>, ghost rows: map<Address, Fact>)
    requires ValidDesign(d) && Listed(before, base, d.plan, |d.plan.specs|, 0)
    ensures ListedWith(facts, rows, base, d, |d.literals|, 0)
  {
    facts, rows := before, base;
    for k: nat := 0 to |d.literals|
      invariant ListedWith(facts, rows, base, d, k, 0)
    {
      facts, rows := GenerateLiteral(d, k, facts, rows, base, k + 1);
    }
  }

  // ----- the world -----

  /** The world of a design: its rows are the entity cells and the literal cells, each once. */
  ghost predicate IsWorld(facts: seq<Fact>, rows: map<Address, Fact>, base: map<Address, Fact>, d: Design) {
    && ValidDesign(d) && HasCells(base, d.plan, |d.plan.specs|, 0) && ListedWith(facts, rows, base, d, |d.literals|, 0)
    && CountKind(d.literals, Date) >= 2 && CountKind(d.literals, Category) >= 2
    && (exists k :: 0 <= k < |d.plan.specs| && d.plan.specs[k].relation in d.plan.required)
    && forall relation | relation in d.plan.required ::
         exists k :: 0 <= k < |d.plan.specs| && d.plan.specs[k].relation == relation
  }

  /** The whole of _generate_schema_world: the relations it demands, the plan, and the rows. */
  method GenerateSchemaWorld(names: Names, order: seq<nat>, specs: seq<Spec>, literals: seq<LiteralSpec>,
                             payload: string, paths: seq<seq<string>>)
    returns (r: Generated<Design>, world: World, ghost rows: map<Address, Fact>, ghost base: map<Address, Fact>)
    requires Shuffled(order, |order|) && |order| > 0 && ValidSpecs(specs) && Separate(specs, literals)
    requires exists p :: p in paths && p != []
    ensures r.Complete? ==>
      IsWorld(world.facts, rows, base, r.value) && world.reasoning == ReasoningEntities(r.value.plan)
    ensures r.Complete? ==> r.value.literals == literals && r.value.payload == payload && r.value.plan.names == names
                            && r.value.plan.order == order && r.value.plan.specs == specs
                            && r.value.plan.required == Required(paths)
    ensures r == Rejected(NoEntityRelations) <==> specs == []
    ensures r == Rejected(TooFewLiterals) <==>
      specs != [] && (|OfKind(literals, Date)| < 2 || |OfKind(literals, Category)| < 2)
    ensures r == Rejected(Unplannable(UnknownRequired)) ==>
      exists relation :: relation in Required(paths) && forall k | 0 <= k < |specs| :: specs[k].relation != relation
    ensures r.Rejected? && r.error.Unplannable? && r.error.error != UnknownRequired ==>
      exists k :: 0 <= k < |specs| && SizeOf(specs[k], specs[k].relation in Required(paths), |order|)
        == Err(r.error.error)
  {
    CountIs(literals, Date);
    CountIs(literals, Category);
    world, rows, base := World([], []), map[], map[];
    if specs == [] {
      r := Rejected(NoEntityRelations);
      return;
    }
    if CountKind(literals, Date) < 2 || CountKind(literals, Category) < 2 {
      r := Rejected(TooFewLiterals);
      return;
    }
    var planned := MakePlan(names, order, specs, paths);
    if planned.Err? {
      r := Rejected(Unplannable(planned.error));
      return;
    }
    SomeRequired(paths, specs);
    world, base := GenerateRows(planned.value);
    var d := Design(planned.value, literals, payload);
    var facts;
    facts, rows := GenerateLiterals(d, world.facts, base);
    world := World(facts, world.reasoning);
    r := Complete(d);
  }

  // ----- its audit classes -----

  function ClassOf(f: Fact): G.Kind { if f.central then G.Central else G.Peripheral }

  function Classes(facts: seq<Fact>): (w: G.World)
    ensures |w| == |facts| && forall i | 0 <= i < |w| :: w[i] == ClassOf(facts[i])
  {
    seq(|facts|, i requires 0 <= i < |facts| => ClassOf(facts[i]))
  }

  lemma {:induction false} HasClass(facts: seq<Fact>, f: Fact)
    requires f in facts
    ensures G.Count(Classes(facts), ClassOf(f)) > 0
  {
    var i :| 0 <= i < |facts| && facts[i] == f;
    G.CountGrows(Classes(facts), ClassOf(f), i + 1, |facts|);
  }

  /** The first source of a required relation is central. */
  lemma {:induction false} SomeCentral(base: map<Address, Fact>, d: Design) returns (f: Fact)
    requires ValidPlan(d.plan) && HasCells(base, d.plan, |d.plan.specs|, 0)
    requires exists k :: 0 <= k < |d.plan.specs| && d.plan.specs[k].relation in d.plan.required
    ensures f.central && f.Addr() in base && base[f.Addr()] == f
  {
    var k: nat :| k < |d.plan.specs| && d.plan.specs[k].relation in d.plan.required;
    FirstIsCentral(d.plan, k);
    CellRow(base, d.plan, k, 0);
    f := CellFact(d.plan, k, 0);
  }

  lemma {:induction false} FirstIsCentral(plan: Plan, k: nat)
    requires ValidPlan(plan) && k < |plan.specs| && plan.specs[k].relation in plan.required
    ensures IsCell(plan, k, 0) && CellFact(plan, k, 0).central
  {
  }

  /** Every generated world has central and peripheral facts. */
  lemma {:induction false} WorldHasBoth(facts: seq<Fact>, rows: map<Address, Fact>, base: map<Address, Fact>, d: Design)
    requires IsWorld(facts, rows, base, d)
    ensures G.HasBoth(Classes(facts))
  {
    var central := SomeCentral(base, d);
    assert rows[central.Addr()] == central;
    HasClass(facts, central);
    assert Before(0, 0, |d.literals|, 0);
    var peripheral := LiteralFact(d, 0, 0);
    assert rows[peripheral.Addr()] == peripheral;
    HasClass(facts, peripheral);
  }

  /** One generated world with the design that it came from. */
  datatype Made = Made(facts: seq<Fact>, ghost rows: map<Address, Fact>, ghost base: map<Address, Fact>,
    ghost design: Design)

  /** A pass over generated worlds never stops for a missing audit class. */
  method RenderGenerated(worlds: seq<Made>) returns (pass: G.Pass)
    requires worlds != []
    requires forall v | 0 <= v < |worlds| :: IsWorld(worlds[v].facts, worlds[v].rows, worlds[v].base, worlds[v].design)
    ensures pass.end == G.Again && pass.records != []
    ensures forall v: nat, i: nat | v < |worlds| && i < |worlds[v].facts| :: G.FactRecord(v, i) in pass.records
  {
    var classes := seq(|worlds|, v requires 0 <= v < |worlds| => Classes(worlds[v].facts));
    forall v | 0 <= v < |worlds|
      ensures G.HasBoth(classes[v])
    {
      WorldHasBoth(worlds[v].facts, worlds[v].rows, worlds[v].base, worlds[v].design);
    }
    pass := G.RenderPass(classes);
    assert forall v | 0 <= v < |worlds| :: |classes[v]| == |worlds[v].facts|;
  }
}
