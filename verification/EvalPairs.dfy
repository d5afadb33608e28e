/** The evaluation pairs of a generated world: all three tasks together, over a split's planned
    compositions, its dates and its categories (srgm_worlds.py, _generate_eval_pairs and
    _path_compositions). */
module EvalPairs {
  import opened Wrappers
  import opened GraphRows
  import opened LiteralPairs
  import opened LiteralValues
  import L = LiteralWorlds
  import W = SchemaWorlds
  import C = CounterfactualPairs
  import P = SplitCompositions

  // ----- the world's literal columns -----

  function IdOf(d: L.Design, i: nat): nat { d.plan.names.entityOffset + i }

  /** entity_ids: the sources of the world's facts in rising order. */
  function EntityIds(d: L.Design): (ids: seq<nat>)
    ensures |ids| == L.Entities(d) && forall i | 0 <= i < |ids| :: ids[i] == IdOf(d, i)
  {
    seq(L.Entities(d), i requires 0 <= i < L.Entities(d) => IdOf(d, i))
  }

  lemma {:induction false} CellSource(base: map<W.Address, W.Fact>, d: L.Design, a: W.Address) returns (local: nat)
    requires L.ValidDesign(d) && W.HasCells(base, d.plan, |d.plan.specs|, 0) && a in base
    ensures local < L.Entities(d) && a.source == IdOf(d, local)
  {
    var k: nat, i: nat :| W.IsCell(d.plan, k, i) && W.Before(k, i, |d.plan.specs|, 0)
      && a == W.CellFact(d.plan, k, i).Addr();
    local := d.plan.order[i];
  }

  lemma {:induction false} LiteralSource(rows: map<W.Address, W.Fact>, base: map<W.Address, W.Fact>, d: L.Design,
                                         a: W.Address, done: nat)
    returns (local: nat)
    requires L.HasLiterals(rows, base, d, done, 0) && a in rows && a !in base
    ensures local < L.Entities(d) && a.source == IdOf(d, local)
  {
    var k: nat, i: nat :| L.IsLiteralCell(d, k, i) && W.Before(k, i, done, 0) && a == L.LiteralFact(d, k, i).Addr();
    local := i;
  }

  lemma {:induction false} FactIsCell(facts: seq<W.Fact>, rows: map<W.Address, W.Fact>, base: map<W.Address, W.Fact>,
                                      d: L.Design, f: W.Fact)
    requires L.IsWorld(facts, rows, base, d) && f in facts
    ensures f.source in EntityIds(d)
  {
    var local: nat;
    if f.Addr() in base {
      local := CellSource(base, d, f.Addr());
    } else {
      local := LiteralSource(rows, base, d, f.Addr(), |d.literals|);
    }
    assert EntityIds(d)[local] == f.source;
  }

  lemma {:induction false} LiteralRow(facts: seq<W.Fact>, rows: map<W.Address, W.Fact>, base: map<W.Address, W.Fact>,
                                      d: L.Design, k: nat, i: nat)
    requires L.IsWorld(facts, rows, base, d) && L.IsLiteralCell(d, k, i)
    ensures L.LiteralFact(d, k, i).Addr() in rows && rows[L.LiteralFact(d, k, i).Addr()] == L.LiteralFact(d, k, i)
    ensures L.LiteralFact(d, k, i) in facts
  {
    assert W.Before(k, i, |d.literals|, 0);
  }

  /** The entity ids are exactly the sources of the facts, as many as there are names. */
  lemma {:induction false} IdsAreSources(facts: seq<W.Fact>, rows: map<W.Address, W.Fact>, base: map<W.Address, W.Fact>,
                                         d: L.Design, e: nat)
    requires L.IsWorld(facts, rows, base, d)
    ensures e in EntityIds(d) <==> exists f :: f in facts && f.source == e
  {
    var ids := EntityIds(d);
    if e in ids {
      var i: nat :| i < |ids| && ids[i] == e;
      LiteralRow(facts, rows, base, d, 0, i);
      assert L.LiteralFact(d, 0, i).source == e;
    }
    forall f | f in facts
      ensures f.source in ids
    {
      FactIsCell(facts, rows, base, d, f);
    }
  }

  /** _relation_for_kind: the first literal relation of the kind, for development the last. */
  function RelationForKind(literals: seq<LiteralSpec>, kind: LiteralKind, last: bool): (k: nat)
    requires L.CountKind(literals, kind) > 0
    ensures k < |literals| && literals[k].kind == kind
    ensures last ==> forall l | k < l < |literals| :: literals[l].kind != kind
    ensures !last ==> forall l | 0 <= l < k :: literals[l].kind != kind
    decreases |literals|
  {
    var n: nat := |literals| - 1;
    if literals[n].kind == kind && (last || L.CountKind(literals[..n], kind) == 0) then
      NoneBefore(literals[..n], kind);
      n
    else RelationForKind(literals[..n], kind, last)
  }

  lemma {:induction false} NoneBefore(literals: seq<LiteralSpec>, kind: LiteralKind)
    ensures L.CountKind(literals, kind) == 0 <==> forall l | 0 <= l < |literals| :: literals[l].kind != kind
  {
    if literals != [] {
      NoneBefore(literals[..|literals| - 1], kind);
    }
  }

  /** What a literal relation says of every entity. */
  ghost predicate IsColumn(values: Values, d: L.Design, k: nat) {
    && k < |d.literals| && (forall e :: e in values <==> e in EntityIds(d))
    && forall i: nat | i < L.Entities(d) ::
         Gives(values, IdOf(d, i), LiteralValue(d.literals[k], d.payload, i, k, L.Entities(d)))
  }

  /** The rows hold every literal row. */
  ghost predicate Tabulated(rows: map<W.Address, W.Fact>, d: L.Design) {
    forall k: nat, i: nat {:trigger L.IsLiteralCell(d, k, i)} | L.IsLiteralCell(d, k, i) ::
      HasRow(rows, L.LiteralFact(d, k, i))
  }

  ghost predicate HasRow(rows: map<W.Address, W.Fact>, f: W.Fact) { f.Addr() in rows && rows[f.Addr()] == f }

  lemma {:induction false} WorldIsTabulated(facts: seq<W.Fact>, rows: map<W.Address, W.Fact>, base: map<W.Address,
                                            W.Fact>, d: L.Design)
    requires L.IsWorld(facts, rows, base, d)
    ensures Tabulated(rows, d)
  {
    forall k: nat, i: nat | L.IsLiteralCell(d, k, i)
      ensures HasRow(rows, L.LiteralFact(d, k, i))
    {
      LiteralRow(facts, rows, base, d, k, i);
    }
  }

  method Column(rows: map<W.Address, W.Fact>, d: L.Design, k: nat) returns (values: Values)
    requires Tabulated(rows, d) && k < |d.literals|
    ensures IsColumn(values, d, k)
  {
    var ids := EntityIds(d);
    var relation := d.literals[k].relation;
    forall i | 0 <= i < |ids|
      ensures W.Address(ids[i], relation) in rows && rows[W.Address(ids[i], relation)] == L.LiteralFact(d, k, i)
    {
      assert L.IsLiteralCell(d, k, i);
    }
    values := map e | e in ids :: rows[W.Address(e, relation)].target.value;
    forall i: nat | i < L.Entities(d)
      ensures Gives(values, IdOf(d, i), LiteralValue(d.literals[k], d.payload, i, k, L.Entities(d)))
    {
      assert ids[i] in ids;
    }
  }

  // ----- one pair of each task -----

  datatype Pair =
    | PathTask(start: nat, path: seq<string>, composed: C.PathPair)
    | DateTask(a: nat, b: nat, ordered: Twin)
    | EqualityTask(a: nat, b: nat, compared: Twin)

  /** A date pair in the wanted order whose edit, a date of the same relation, reverses it. */
  ghost predicate DateFlips(p: Pair, values: Values, prefix: string, earlierFirst: bool) {
    && p.DateTask? && p.a in values && p.b in values && p.a != p.b && values[p.a] != values[p.b]
    && p.ordered.answer == (if earlierFirst then "<|slot_0|>" else "<|slot_1|>")
         == EarlierSlot(values[p.a], values[p.b])
    && p.ordered.flipped == EarlierSlot(p.ordered.changed, values[p.b]) && p.ordered.flipped != p.ordered.answer
    && exists date :: p.ordered.changed == DateText(Some(prefix), date)
  }

  /** A category pair of the wanted kind whose edit undoes it. */
  ghost predicate EqualityFlips(p: Pair, values: Values, equal: bool) {
    && p.EqualityTask? && p.a in values && p.b in values && p.a != p.b
    && p.compared.answer == (if equal then "yes" else "no") == SameAnswer(values[p.a], values[p.b])
    && p.compared.flipped == SameAnswer(p.compared.changed, values[p.b]) && p.compared.flipped != p.compared.answer
  }

  /** A path pair over the planned path from a backbone entity: the world's answer, and the
      answer of the world with the one edited row. */
  ghost predicate PathFlips(p: Pair, rows: map<W.Address, W.Fact>, plan: W.Plan, path: seq<string>) {
    && p.PathTask? && p.path == path && C.Reasons(plan, p.start)
    && C.Reads(rows, p.start, path, p.composed.used) && p.composed.answer == C.Composed(p.composed.used)
    && p.composed.position < |p.composed.used| && p.composed.changed == C.Edited(p.composed.used[p.composed.position])
    && C.Reads(rows[p.composed.changed.Addr() := p.composed.changed], p.start, path, C.Changed(p.composed))
    && p.composed.flipped == C.Composed(C.Changed(p.composed)) && p.composed.flipped != p.composed.answer
    && C.CodesMove(p.composed)
  }

  /** Two entities whose dates coincide. */
  ghost predicate SameDates(o: Orders) { WholePeriods(o.a - o.b) }

  ghost predicate Undrawn(draws: seq<Orders>) { forall k | 0 <= k < |draws| :: SameDates(draws[k]) }

  ghost predicate Drawable(d: L.Design, draws: seq<Orders>) {
    |draws| == 1000 && forall k | 0 <= k < |draws| :: draws[k].a in EntityIds(d) && draws[k].b in EntityIds(d)
  }

  lemma {:induction false} PrefixedDiffer(prefix: string, s: string, t: string)
    ensures DateText(Some(prefix), s) == DateText(Some(prefix), t) <==> s == t
  {
    var head := prefix + ":";
    assert DateText(Some(prefix), s) == head + s && DateText(Some(prefix), t) == head + t;
    assert (head + s)[|head|..] == s && (head + t)[|head|..] == t;
  }

  lemma {:induction false} DateAt(values: Values, d: L.Design, k: nat, e: nat) returns (local: nat)
    requires IsColumn(values, d, k) && d.literals[k].kind.Date? && e in EntityIds(d)
    ensures e == IdOf(d, local) && e in values
    ensures values[e] == DateText(Some(Prefix(d.payload, d.literals[k].relation)), DateOf(local, k))
  {
    var i: nat :| i < |EntityIds(d)| && EntityIds(d)[i] == e;
    local := i;
    assert Gives(values, IdOf(d, i), LiteralValue(d.literals[k], d.payload, i, k, L.Entities(d)));
  }

  lemma {:induction false} DatesAgree(values: Values, d: L.Design, k: nat, o: Orders)
    requires IsColumn(values, d, k) && d.literals[k].kind.Date? && o.a in EntityIds(d) && o.b in EntityIds(d)
    ensures o.a in values && o.b in values && (values[o.a] == values[o.b] <==> SameDates(o))
  {
    var i := DateAt(values, d, k, o.a);
    var j := DateAt(values, d, k, o.b);
    SameDifference(d, i, j, o);
    PrefixedDates(Prefix(d.payload, d.literals[k].relation), i, j, k);
  }

  lemma {:induction false} SameDifference(d: L.Design, i: nat, j: nat, o: Orders)
    requires o.a == IdOf(d, i) && o.b == IdOf(d, j)
    ensures SameDates(o) <==> WholePeriods(i - j)
  {
    assert o.a - o.b == i - j;
  }

  lemma {:induction false} PrefixedDates(prefix: string, i: nat, j: nat, k: nat)
    ensures DateText(Some(prefix), DateOf(i, k)) == DateText(Some(prefix), DateOf(j, k)) <==> WholePeriods(i - j)
  {
    PrefixedDiffer(prefix, DateOf(i, k), DateOf(j, k));
    DatesCoincide(i, j, k);
  }

  /** The date_ordering pair: none exactly when every draw is of two entities whose local ids
      agree modulo the period. */
  method MakeDatePair(values: Values, d: L.Design, k: nat, draws: seq<Orders>, earlierFirst: bool)
    returns (pair: Option<Pair>)
    requires IsColumn(values, d, k) && d.literals[k].kind.Date? && Drawable(d, draws)
    ensures pair.None? <==> Undrawn(draws)
    ensures pair.Some? ==> DateFlips(pair.value, values, Prefix(d.payload, d.literals[k].relation), earlierFirst)
  {
    forall n | 0 <= n < |draws|
      ensures draws[n].a in values && draws[n].b in values
        && (values[draws[n].a] == values[draws[n].b] <==> SameDates(draws[n]))
    {
      DatesAgree(values, d, k, draws[n]);
    }
    var drawn := DatePair(values, draws, earlierFirst);
    if drawn.None? {
      return None;
    }
    var a, b := drawn.value.a, drawn.value.b;
    ghost var i := DateAt(values, d, k, a);
    ghost var j := DateAt(values, d, k, b);
    FarDateFlips(values[a], values[b], Some(Prefix(d.payload, d.literals[k].relation)), DateOf(i, k), DateOf(j, k));
    var twin := MakeDateTwin(values[a], values[b]);
    pair := Some(DateTask(a, b, twin.value));
  }

  /** Two entities of the column agree and two do not. */
  lemma {:induction false} CategoriesInColumn(values: Values, d: L.Design, k: nat, n: nat)
    requires IsColumn(values, d, k) && d.literals[k].kind.Category? && n == L.Entities(d) >= 16
    ensures 1 < CategoryCount(n) < n && IdOf(d, 0) in values && IdOf(d, CategoryCount(n)) in values
      && IdOf(d, 1) in values
    ensures values[IdOf(d, 0)] == values[IdOf(d, CategoryCount(n))] && values[IdOf(d, 0)] != values[IdOf(d, 1)]
  {
    var payload, relation := d.payload, d.literals[k].relation;
    var category := (i: nat) => CategoryOf(payload, relation, i);
    forall i: nat, j: nat | i < CategoryCount(n) && j < CategoryCount(n) && category(i) == category(j)
      ensures i == j
    {
      CategoriesOfDiffer(payload, relation, i, j);
    }
    var offset := d.plan.names.entityOffset;
    forall i: nat | i < n
      ensures Gives(values, offset + i, category(Pick(i, CategoryCount(n))))
    {
      assert Gives(values, IdOf(d, i), LiteralValue(d.literals[k], d.payload, i, k, n));
    }
    CategoriesSuffice(n, category, values, offset);
  }

  lemma {:induction false} CategoriesAreFound(values: Values, d: L.Design, k: nat, groups: map<string, seq<nat>>,
                                              categories: seq<string>)
    requires IsColumn(values, d, k) && d.literals[k].kind.Category? && L.Entities(d) >= 16
    requires Grouped(groups, values, EntityIds(d), L.Entities(d)) && (forall v :: v in categories <==> v in groups)
    ensures |categories| >= 2 && exists v :: v in groups && |groups[v]| >= 2
  {
    CategoriesInColumn(values, d, k, L.Entities(d));
    var count, ids := CategoryCount(L.Entities(d)), EntityIds(d);
    GroupsSuffice(groups, values, ids, 0, count);
    GroupsSuffice(groups, values, ids, 0, 1);
    var one, other := values[ids[0]], values[ids[1]];
    assert one in categories && other in categories;
    TwoOf(categories, one, other);
  }

  lemma {:induction false} TwoOf(s: seq<string>, one: string, other: string)
    requires one in s && other in s && one != other
    ensures |s| >= 2
  {
    var i :| 0 <= i < |s| && s[i] == one;
    var j :| 0 <= j < |s| && s[j] == other;
    assert i != j;
  }

  /** The entities sorted by category. */
  ghost predicate Sorted(groups: map<string, seq<nat>>, categories: seq<string>, values: Values, d: L.Design) {
    && Grouped(groups, values, EntityIds(d), L.Entities(d)) && (forall v :: v in categories <==> v in groups)
         && NoRepeat(categories)
  }

  /** The balanced_equality pair, which a world of sixteen entities or more never lacks. */
  method MakeCategoryPair(values: Values, d: L.Design, k: nat, groups: map<string, seq<nat>>, categories: seq<string>,
                          equal: bool,
                          first: nat, second: nat, draw: Orders, number: string -> Option<int>) returns (pair: Pair)
    requires IsColumn(values, d, k) && d.literals[k].kind.Category? && L.Entities(d) >= 16
    requires Sorted(groups, categories, values, d) && forall n: nat :: number(Print(n)) == Some(n)
    ensures EqualityFlips(pair, values, equal)
  {
    CategoriesAreFound(values, d, k, groups, categories);
    var drawn := CategoryPair(groups, categories, values, EntityIds(d), equal, first, second, draw);
    var a, b := drawn.value.a, drawn.value.b;
    var twin := MakeEqualityTwin(values[a], values[b], equal, number);
    pair := EqualityTask(a, b, twin);
  }

  /** The backbone stays closed when the literal rows are added. */
  lemma {:induction false} WorldStaysClosed(facts: seq<W.Fact>, rows: map<W.Address, W.Fact>, base: map<W.Address,
                                            W.Fact>, d: L.Design)
    requires L.IsWorld(facts, rows, base, d)
    ensures C.BackboneClosed(d.plan, rows)
  {
    C.WorldsAreClosed(d.plan, base);
  }

  /** The path_composition pair over a planned path, which never fails. */
  method MakePathTask(rows: map<W.Address, W.Fact>, plan: W.Plan, start: nat, path: seq<string>) returns (pair: Pair)
    requires C.BackboneClosed(plan, rows) && C.Reasons(plan, start) && (forall a | a in rows :: rows[a].Addr() == a)
    requires Servable(path, plan.required)
    ensures PathFlips(pair, rows, plan, path)
  {
    C.PathsStay(plan, rows, start, path, |path|);
    var made := C.MakePathPair(rows, start, path);
    pair := PathTask(start, path, made.pair);
  }

  // ----- the compositions of a split -----

  datatype SplitName = Train | Development | ProtectedSeen | ProtectedHeldout

  /** The paths a split's worlds must supply: both protected splits share theirs. */
  function PathsOf(s: P.Splits, split: SplitName): seq<seq<string>> {
    match split
    case Train => s.train
    case Development => s.development
    case ProtectedSeen => s.seen + s.heldout
    case ProtectedHeldout => s.seen + s.heldout
  }

  predicate Fits(path: seq<string>, hops: Option<nat>, atMost: bool) {
    hops.None? || |path| == hops.value || (atMost && |path| < hops.value)
  }

  function Eligible(paths: seq<seq<string>>, hops: Option<nat>, atMost: bool): (eligible: seq<seq<string>>)
    ensures forall p :: p in eligible <==> p in paths && Fits(p, hops, atMost)
  {
    if paths == [] then []
    else
      var rest, last := paths[..|paths| - 1], paths[|paths| - 1];
      assert paths == rest + [last];
      Eligible(rest, hops, atMost) + if Fits(last, hops, atMost) then [last] else []
  }

  /** _path_compositions. */
  function Compositions(s: P.Splits, split: SplitName, hops: Option<nat>): seq<seq<string>> {
    Eligible(PathsOf(s, split), hops, split.Train? || split.Development?)
  }

  ghost predicate GoodHops(hops: Option<nat>) { hops.Some? ==> 1 <= hops.value <= 6 }

  /** A split has a composition of every hop count that may be asked for. */
  lemma {:induction false} CompositionsExist(s: P.Splits, split: SplitName, hops: Option<nat>,
                                             bucket: seq<string> -> nat)
    requires P.Planned(s, bucket) && GoodHops(hops)
    ensures Compositions(s, split, hops) != []
  {
    var path :=
      match split
      case Train => s.train[..4][0]
      case Development => s.development[0]
      case ProtectedSeen => s.heldout[if hops.None? then 0 else hops.value - 1]
      case ProtectedHeldout => s.heldout[if hops.None? then 0 else hops.value - 1];
    if !split.Train? && !split.Development? {
      assert path in s.seen + s.heldout;
    }
    assert path in Compositions(s, split, hops);
  }

  /** A path of required relations, one of which occurs once. */
  ghost predicate Servable(path: seq<string>, required: set<string>) {
    P.HasSingle(path) && forall relation | relation in path :: relation in required
  }

  lemma {:induction false} CompositionsServe(s: P.Splits, split: SplitName, hops: Option<nat>,
                                             bucket: seq<string> -> nat, path: seq<string>)
    requires P.Planned(s, bucket) && path in Compositions(s, split, hops)
    ensures Servable(path, W.Required(PathsOf(s, split)))
  {
    assert path in PathsOf(s, split);
    assert path in s.train || path in s.development || path in s.seen || path in s.heldout;
    assert forall p | p in s.seen :: p in s.train;
  }

  // ----- all three tasks -----

  /** What the generator draws for the pair of each index. */
  datatype Draws = Draws(start: nat -> nat, dates: nat -> seq<Orders>, first: nat -> nat, second: nat -> nat,
    pick: nat -> Orders)

  datatype EvalError = BadHops | TooFewEntities | NoDates

  datatype EvalResult = Made(pairs: seq<Pair>) | Failed(error: EvalError)

  /** Whether the i-th pair from `offset` gets the first of a task's two answers. */
  ghost predicate Alternates(offset: nat, orientation: nat, i: nat) { (offset + i + orientation) % 2 == 0 }

  /** The compositions are taken in turn. */
  function Turn(compositions: seq<seq<string>>, index: nat): (path: seq<string>)
    requires compositions != []
    ensures path in compositions
  {
    compositions[Pick(index, |compositions|)]
  }

  function Due(compositions: seq<seq<string>>, count: nat, offset: nat): (due: seq<seq<string>>)
    requires compositions != []
    ensures |due| == count && forall i | 0 <= i < count :: due[i] == Turn(compositions, offset + i)
  {
    seq(count, i requires 0 <= i < count => Turn(compositions, offset + i))
  }

  ghost predicate PathsDone(pairs: seq<Pair>, rows: map<W.Address, W.Fact>, plan: W.Plan, due: seq<seq<string>>) {
    |pairs| <= |due| && forall i | 0 <= i < |pairs| :: PathFlips(pairs[i], rows, plan, due[i])
  }

  /** The path pair of one index. */
  method PathAt(rows: map<W.Address, W.Fact>, plan: W.Plan, path: seq<string>, start: nat) returns (pair: Pair)
    requires W.ValidPlan(plan) && C.BackboneClosed(plan, rows) && (forall a | a in rows :: rows[a].Addr() == a)
    requires Servable(path, plan.required)
    ensures PathFlips(pair, rows, plan, path)
  {
    var place := Pick(start, plan.backbone);
    var e := W.ReasoningEntities(plan)[place];
    assert W.Stands(plan.names, plan.order, e, place);
    pair := MakePathTask(rows, plan, e, path);
  }

  method PathTasks(rows: map<W.Address, W.Fact>, plan: W.Plan, due: seq<seq<string>>, offset: nat, start: nat -> nat)
    returns (pairs: seq<Pair>)
    requires W.ValidPlan(plan) && C.BackboneClosed(plan, rows) && forall a | a in rows :: rows[a].Addr() == a
    requires forall i | 0 <= i < |due| :: Servable(due[i], plan.required)
    ensures |pairs| == |due| && PathsDone(pairs, rows, plan, due)
  {
    pairs := [];
    for i := 0 to |due|
      invariant |pairs| == i && PathsDone(pairs, rows, plan, due)
    {
      var pair := PathAt(rows, plan, due[i], start(offset + i));
      pairs := OneMore(pairs, pair, rows, plan, due);
    }
  }

  method OneMore(pairs: seq<Pair>, pair: Pair, ghost rows: map<W.Address, W.Fact>, ghost plan: W.Plan,
                 ghost due: seq<seq<string>>)
    returns (more: seq<Pair>)
    requires |pairs| < |due| && PathsDone(pairs, rows, plan, due) && PathFlips(pair, rows, plan, due[|pairs|])
    ensures more == pairs + [pair] && PathsDone(more, rows, plan, due)
  {
    more := pairs + [pair];
  }

  ghost predicate DatesDone(pairs: seq<Pair>, values: Values, prefix: string, offset: nat, orientation: nat) {
    forall i | 0 <= i < |pairs| :: DateFlips(pairs[i], values, prefix, Alternates(offset, orientation, i))
  }

  /** The next index's pair, if its draws hold one. */
  method NextDate(done: seq<Pair>, values: Values, d: L.Design, k: nat, drawn: seq<Orders>, ghost prefix: string,
                  offset: nat, orientation: nat)
    returns (more: Option<seq<Pair>>)
    requires IsColumn(values, d, k) && d.literals[k].kind.Date? && Drawable(d, drawn)
    requires prefix == Prefix(d.payload, d.literals[k].relation)
    requires DatesDone(done, values, prefix, offset, orientation)
    ensures more.None? <==> Undrawn(drawn)
    ensures more.Some? ==> |more.value| == |done| + 1 && DatesDone(more.value, values, prefix, offset, orientation)
  {
    var pair := MakeDatePair(values, d, k, drawn, (offset + |done| + orientation) % 2 == 0);
    if pair.None? {
      return None;
    }
    var longer := OneMoreDate(done, pair.value, values, prefix, offset, orientation);
    more := Some(longer);
  }

  method DateTasks(values: Values, d: L.Design, k: nat, count: nat, offset: nat, orientation: nat,
                   draws: nat -> seq<Orders>)
    returns (pairs: Option<seq<Pair>>)
    requires IsColumn(values, d, k) && d.literals[k].kind.Date? && forall i: nat :: Drawable(d, draws(i))
    ensures pairs.None? <==> exists i :: offset <= i < offset + count && Undrawn(draws(i))
    ensures pairs.Some? ==>
      |pairs.value| == count
        && DatesDone(pairs.value, values, Prefix(d.payload, d.literals[k].relation), offset, orientation)
  {
    var done: seq<Pair> := [];
    ghost var prefix := Prefix(d.payload, d.literals[k].relation);
    for i := 0 to count
      invariant |done| == i && DatesDone(done, values, prefix, offset, orientation)
      invariant forall j | offset <= j < offset + i :: !Undrawn(draws(j))
    {
      var more := NextDate(done, values, d, k, draws(offset + i), prefix, offset, orientation);
      if more.None? {
        return None;
      }
      done := more.value;
    }
    pairs := Some(done);
  }

  method OneMoreDate(pairs: seq<Pair>, pair: Pair, ghost values: Values, ghost prefix: string, ghost offset: nat,
                     ghost orientation: nat)
    returns (more: seq<Pair>)
    requires DatesDone(pairs, values, prefix, offset, orientation)
    requires DateFlips(pair, values, prefix, Alternates(offset, orientation, |pairs|))
    ensures more == pairs + [pair] && DatesDone(more, values, prefix, offset, orientation)
  {
    more := pairs + [pair];
  }

  ghost predicate EqualitiesDone(pairs: seq<Pair>, values: Values, offset: nat, orientation: nat) {
    forall i | 0 <= i < |pairs| :: EqualityFlips(pairs[i], values, Alternates(offset, orientation, i))
  }

  method EqualityTasks(values: Values, d: L.Design, k: nat, count: nat, offset: nat, orientation: nat, draws: Draws,
                       number: string -> Option<int>) returns (pairs: seq<Pair>)
    requires IsColumn(values, d, k) && d.literals[k].kind.Category? && L.Entities(d) >= 16
    requires forall n: nat :: number(Print(n)) == Some(n)
    ensures |pairs| == count && EqualitiesDone(pairs, values, offset, orientation)
  {
    var groups, categories := Groups(values, d, k);
    pairs := [];
    for i := 0 to count
      invariant |pairs| == i && EqualitiesDone(pairs, values, offset, orientation)
    {
      var n: nat := offset + i;
      var even := (offset + i + orientation) % 2 == 0;
      assert even == Alternates(offset, orientation, i);
      var pair := MakeCategoryPair(values, d, k, groups, categories, even,
                                   draws.first(n), draws.second(n), draws.pick(n), number);
      pairs := OneMoreEquality(pairs, pair, values, offset, orientation);
    }
  }

  method Groups(values: Values, d: L.Design, k: nat) returns (groups: map<string, seq<nat>>, categories: seq<string>)
    requires IsColumn(values, d, k)
    ensures Sorted(groups, categories, values, d)
  {
    groups, categories := CategoryGroups(values, EntityIds(d));
  }

  method OneMoreEquality(pairs: seq<Pair>, pair: Pair, ghost values: Values, ghost offset: nat, ghost orientation: nat)
    returns (more: seq<Pair>)
    requires EqualitiesDone(pairs, values, offset, orientation)
    requires EqualityFlips(pair, values, Alternates(offset, orientation, |pairs|))
    ensures more == pairs + [pair] && EqualitiesDone(more, values, offset, orientation)
  {
    more := pairs + [pair];
  }

  lemma {:induction false} RowsAreMapped(facts: seq<W.Fact>, rows: map<W.Address, W.Fact>, mapped: map<W.Address,
                                         W.Fact>)
    requires W.ListsRows(facts, rows) && W.ListsRows(facts, mapped) && forall f | f in facts :: mapped[f.Addr()] == f
    ensures mapped == rows
  {
    forall a | a in rows
      ensures a in mapped && mapped[a] == rows[a]
    {
      assert rows[a] in facts;
    }
    forall a | a in mapped
      ensures a in rows
    {
      assert mapped[a] in facts;
    }
  }

  /** The last relation of its kind, or the first. */
  ghost predicate EndmostOf(literals: seq<LiteralSpec>, kind: LiteralKind, last: bool, k: nat) {
    && k < |literals| && literals[k].kind == kind
    && forall l | 0 <= l < |literals| && literals[l].kind == kind :: if last then l <= k else k <= l
  }

  /** The relations of the two literal tasks. */
  function DateRelation(d: L.Design, split: SplitName): (k: nat)
    requires L.CountKind(d.literals, Date) > 0
    ensures EndmostOf(d.literals, Date, split == Development, k)
  {
    RelationForKind(d.literals, Date, split.Development?)
  }

  function CategoryRelation(d: L.Design, split: SplitName): (k: nat)
    requires L.CountKind(d.literals, Category) > 0
    ensures EndmostOf(d.literals, Category, split == Development, k)
  {
    RelationForKind(d.literals, Category, split.Development?)
  }

  /** The path pairs over a split's compositions. */
  method PlannedPaths(rows: map<W.Address, W.Fact>, plan: W.Plan, splits: P.Splits, split: SplitName, hops: Option<nat>,
                      count: nat, offset: nat,
                      start: nat -> nat, ghost bucket: seq<string> -> nat) returns (pairs: seq<Pair>)
    requires W.ValidPlan(plan) && C.BackboneClosed(plan, rows) && forall a | a in rows :: rows[a].Addr() == a
    requires P.Planned(splits, bucket) && plan.required == W.Required(PathsOf(splits, split)) && GoodHops(hops)
    ensures Compositions(splits, split, hops) != [] && |pairs| == count
    ensures PathsDone(pairs, rows, plan, Due(Compositions(splits, split, hops), count, offset))
  {
    var compositions := Compositions(splits, split, hops);
    CompositionsExist(splits, split, hops, bucket);
    var due := Due(compositions, count, offset);
    forall i | 0 <= i < |due|
      ensures Servable(due[i], plan.required)
    {
      CompositionsServe(splits, split, hops, bucket, due[i]);
    }
    pairs := PathTasks(rows, plan, due, offset, start);
  }

  /** The pairs of the three tasks, once the hop count and the world's size are accepted. */
  method GenerateTasks(mapped: map<W.Address, W.Fact>, d: L.Design, splits: P.Splits, split: SplitName,
                       hops: Option<nat>, count: nat, offset: nat,
                       dateOrientation: nat, equalityOrientation: nat, draws: Draws, number: string -> Option<int>,
                       ghost bucket: seq<string> -> nat)
    returns (pairs: Option<seq<Pair>>, dates: Values, categories: Values)
    requires W.ValidPlan(d.plan) && C.BackboneClosed(d.plan, mapped)
      && (forall a | a in mapped :: mapped[a].Addr() == a) && Tabulated(mapped, d)
    requires L.CountKind(d.literals, Date) > 0 && L.CountKind(d.literals, Category) > 0
    requires P.Planned(splits, bucket) && d.plan.required == W.Required(PathsOf(splits, split)) && GoodHops(hops)
      && L.Entities(d) >= 16
    requires (forall i: nat :: Drawable(d, draws.dates(i))) && forall n: nat :: number(Print(n)) == Some(n)
    ensures IsColumn(dates, d, DateRelation(d, split)) && IsColumn(categories, d, CategoryRelation(d, split))
    ensures pairs.None? <==> exists i :: offset <= i < offset + count && Undrawn(draws.dates(i))
    ensures pairs.Some? ==>
      AllDone(pairs.value, mapped, d, splits, split, hops, count, offset, dateOrientation, equalityOrientation, dates,
        categories)
  {
    dates := Column(mapped, d, DateRelation(d, split));
    categories := Column(mapped, d, CategoryRelation(d, split));
    var paths := PlannedPaths(mapped, d.plan, splits, split, hops, count, offset, draws.start, bucket);
    var ordered := DateTasks(dates, d, DateRelation(d, split), count, offset, dateOrientation, draws.dates);
    if ordered.None? {
      pairs := None;
      return;
    }
    var compared :=
      EqualityTasks(categories, d, CategoryRelation(d, split), count, offset, equalityOrientation, draws, number);
    var all := paths + ordered.value + compared;
    assert all[..count] == paths && all[count..2 * count] == ordered.value && all[2 * count..] == compared;
    pairs := Some(all);
  }

  /** `count` pairs of each task: over the planned compositions in turn, and with alternating
      answers. */
  ghost predicate AllDone(pairs: seq<Pair>, rows: map<W.Address, W.Fact>, d: L.Design, splits: P.Splits,
                          split: SplitName, hops: Option<nat>,
                          count: nat, offset: nat, dateOrientation: nat, equalityOrientation: nat, dates: Values,
                          categories: Values)
  {
    && |pairs| == 3 * count && L.CountKind(d.literals, Date) > 0 && Compositions(splits, split, hops) != []
    && PathsDone(pairs[..count], rows, d.plan, Due(Compositions(splits, split, hops), count, offset))
    && DatesDone(pairs[count..2 * count], dates, Prefix(d.payload, d.literals[DateRelation(d, split)].relation), offset,
         dateOrientation)
    && EqualitiesDone(pairs[2 * count..], categories, offset, equalityOrientation)
  }

  // ----- what the pairs say -----

  /** The paths of a split that may be asked for: up to so many hops in training and development,
      exactly so many in the protected splits, which share theirs. */
  ghost predicate MayAsk(path: seq<string>, s: P.Splits, split: SplitName, hops: Option<nat>) {
    match split
    case Train => path in s.train && (hops.Some? ==> |path| <= hops.value)
    case Development => path in s.development && (hops.Some? ==> |path| <= hops.value)
    case _ => (path in s.seen || path in s.heldout) && (hops.Some? ==> |path| == hops.value)
  }

  lemma {:induction false} CompositionsAre(s: P.Splits, split: SplitName, hops: Option<nat>, path: seq<string>)
    ensures path in Compositions(s, split, hops) <==> MayAsk(path, s, split, hops)
  {
  }

  /** A path pair asks a path that may be asked for, the compositions taken in turn. */
  ghost predicate PathSays(p: Pair, s: P.Splits, split: SplitName, hops: Option<nat>, asked: seq<seq<string>>,
                           index: nat) {
    && p.PathTask? && asked != [] && p.path == asked[index % |asked|] && MayAsk(p.path, s, split, hops)
    && C.CodesMove(p.composed)
  }

  /** A date pair of an even turn has the earlier date first, one of an odd turn last; the edit
      reverses that. */
  ghost predicate DateSays(p: Pair, values: Values, turn: nat) {
    && p.DateTask? && p.a in values && p.b in values
    && p.ordered.answer == (if turn % 2 == 0 then "<|slot_0|>" else "<|slot_1|>")
    && p.ordered.flipped == (if turn % 2 == 0 then "<|slot_1|>" else "<|slot_0|>")
    && (if turn % 2 == 0 then ComesFirst(values[p.a], values[p.b]) && !ComesFirst(p.ordered.changed, values[p.b])
        else ComesFirst(values[p.b], values[p.a]) && ComesFirst(p.ordered.changed, values[p.b]))
  }

  /** A category pair of an even turn agrees, one of an odd turn does not; the edit undoes that. */
  ghost predicate EqualitySays(p: Pair, values: Values, turn: nat) {
    && p.EqualityTask? && p.a in values && p.b in values && p.a != p.b
    && (values[p.a] == values[p.b] <==> turn % 2 == 0) && (p.compared.changed == values[p.b] <==> turn % 2 != 0)
    && p.compared.answer == (if turn % 2 == 0 then "yes" else "no")
    && p.compared.flipped == (if turn % 2 == 0 then "no" else "yes")
  }

  lemma {:induction false} DateFlipsSays(p: Pair, values: Values, prefix: string, turn: nat)
    requires DateFlips(p, values, prefix, turn % 2 == 0)
    ensures DateSays(p, values, turn)
  {
    LessMeans(values[p.a], values[p.b]);
    LessMeans(values[p.b], values[p.a]);
    LessMeans(p.ordered.changed, values[p.b]);
    LessTotal(values[p.a], values[p.b], 0);
    assert "<|slot_0|>"[7] != "<|slot_1|>"[7];
  }

  lemma {:induction false} EqualityFlipsSays(p: Pair, values: Values, turn: nat)
    requires EqualityFlips(p, values, turn % 2 == 0)
    ensures EqualitySays(p, values, turn)
  {
    assert "yes"[0] != "no"[0];
  }

  /** A split's paths in the order of its plan. */
  ghost function AllPaths(s: P.Splits, split: SplitName): seq<seq<string>> {
    if split == Train then s.train else if split == Development then s.development else s.seen + s.heldout
  }

  /** `asked` are the paths that may be asked for, each place of the plan once and in its order. */
  ghost predicate PickedFrom(asked: seq<seq<string>>, all: seq<seq<string>>, places: seq<nat>, hops: Option<nat>,
                             atMost: bool) {
    && |places| == |asked| && (forall j | 0 <= j < |places| :: places[j] < |all| && asked[j] == all[places[j]])
    && (forall i, j | 0 <= i < j < |places| :: places[i] < places[j])
    && forall t | 0 <= t < |all| ::
         t in places <==> hops.None? || (if atMost then |all[t]| <= hops.value else |all[t]| == hops.value)
  }

  lemma {:induction false} EligiblePicked(all: seq<seq<string>>, hops: Option<nat>, atMost: bool)
    returns (places: seq<nat>)
    ensures PickedFrom(Eligible(all, hops, atMost), all, places, hops, atMost)
    decreases |all|
  {
    places := [];
    if all != [] {
      var rest, last := all[..|all| - 1], all[|all| - 1];
      places := EligiblePicked(rest, hops, atMost);
      assert all == rest + [last];
      if Fits(last, hops, atMost) {
        PickedMore(Eligible(rest, hops, atMost), rest, places, hops, atMost, last);
        places := places + [|rest|];
      } else {
        PickedSame(Eligible(rest, hops, atMost), rest, places, hops, atMost, last);
      }
    }
  }

  lemma {:induction false} PickedSame(asked: seq<seq<string>>, all: seq<seq<string>>, places: seq<nat>,
                                      hops: Option<nat>, atMost: bool, last: seq<string>)
    requires PickedFrom(asked, all, places, hops, atMost) && !Fits(last, hops, atMost)
    ensures PickedFrom(asked, all + [last], places, hops, atMost)
  {
    var more := all + [last];
    forall t | 0 <= t < |more|
      ensures t in places <==> t < |all| && t in places
    {
    }
  }

  lemma {:induction false} PickedMore(asked: seq<seq<string>>, all: seq<seq<string>>, places: seq<nat>,
                                      hops: Option<nat>, atMost: bool, last: seq<string>)
    requires PickedFrom(asked, all, places, hops, atMost) && Fits(last, hops, atMost)
    ensures PickedFrom(asked + [last], all + [last], places + [|all|], hops, atMost)
  {
    var more := places + [|all|];
    assert more[|places|] == |all|;
    forall t | 0 <= t < |all|
      ensures t in more <==> t in places
    {
      if t in places {
        var j :| 0 <= j < |places| && places[j] == t;
        assert more[j] == t;
      }
    }
  }

  /** The paths of the split that may be asked for, in the plan's order. */
  ghost predicate Picks(asked: seq<seq<string>>, places: seq<nat>, s: P.Splits, split: SplitName, hops: Option<nat>) {
    PickedFrom(asked, AllPaths(s, split), places, hops, split == Train || split == Development)
  }

  ghost predicate PathsSay(pairs: seq<Pair>, s: P.Splits, split: SplitName, hops: Option<nat>, offset: nat) {
    exists asked, places ::
      Picks(asked, places, s, split, hops)
      && forall i | 0 <= i < |pairs| :: PathSays(pairs[i], s, split, hops, asked, offset + i)
  }

  ghost predicate DatesSay(pairs: seq<Pair>, values: Values, offset: nat, orientation: nat) {
    forall i | 0 <= i < |pairs| :: DateSays(pairs[i], values, offset + i + orientation)
  }

  ghost predicate EqualitiesSay(pairs: seq<Pair>, values: Values, offset: nat, orientation: nat) {
    forall i | 0 <= i < |pairs| :: EqualitySays(pairs[i], values, offset + i + orientation)
  }

  /** What all the pairs say, index by index and task by task. */
  ghost predicate PairsSay(pairs: seq<Pair>, s: P.Splits, split: SplitName, hops: Option<nat>, count: nat, offset: nat,
                           dateOrientation: nat, equalityOrientation: nat, dates: Values, categories: Values) {
    && |pairs| == 3 * count && PathsSay(pairs[..count], s, split, hops, offset)
    && DatesSay(pairs[count..2 * count], dates, offset, dateOrientation)
    && EqualitiesSay(pairs[2 * count..], categories, offset, equalityOrientation)
  }

  lemma {:induction false} DonePathsSay(pairs: seq<Pair>, rows: map<W.Address, W.Fact>, plan: W.Plan, s: P.Splits,
                                        split: SplitName, hops: Option<nat>, offset: nat)
    requires Compositions(s, split, hops) != []
    requires PathsDone(pairs, rows, plan, Due(Compositions(s, split, hops), |pairs|, offset))
    ensures PathsSay(pairs, s, split, hops, offset)
  {
    var asked := Compositions(s, split, hops);
    var places := EligiblePicked(AllPaths(s, split), hops, split.Train? || split.Development?);
    forall i | 0 <= i < |pairs|
      ensures PathSays(pairs[i], s, split, hops, asked, offset + i)
    {
      assert PathFlips(pairs[i], rows, plan, Due(asked, |pairs|, offset)[i]);
      CompositionsAre(s, split, hops, pairs[i].path);
    }
    assert Picks(asked, places, s, split, hops);
  }

  lemma {:induction false} DoneDatesSay(pairs: seq<Pair>, values: Values, prefix: string, offset: nat,
                                        orientation: nat)
    requires DatesDone(pairs, values, prefix, offset, orientation)
    ensures DatesSay(pairs, values, offset, orientation)
  {
    forall i | 0 <= i < |pairs|
      ensures DateSays(pairs[i], values, offset + i + orientation)
    {
      DateFlipsSays(pairs[i], values, prefix, offset + i + orientation);
    }
  }

  lemma {:induction false} DoneEqualitiesSay(pairs: seq<Pair>, values: Values, offset: nat, orientation: nat)
    requires EqualitiesDone(pairs, values, offset, orientation)
    ensures EqualitiesSay(pairs, values, offset, orientation)
  {
    forall i | 0 <= i < |pairs|
      ensures EqualitySays(pairs[i], values, offset + i + orientation)
    {
      EqualityFlipsSays(pairs[i], values, offset + i + orientation);
    }
  }

  lemma {:induction false} AllSay(pairs: seq<Pair>, rows: map<W.Address, W.Fact>, d: L.Design, s: P.Splits,
                                  split: SplitName, hops: Option<nat>, count: nat, offset: nat, dateOrientation: nat,
                                  equalityOrientation: nat, dates: Values, categories: Values)
    requires AllDone(pairs, rows, d, s, split, hops, count, offset, dateOrientation, equalityOrientation, dates,
      categories)
    ensures PairsSay(pairs, s, split, hops, count, offset, dateOrientation, equalityOrientation, dates, categories)
  {
    DonePathsSay(pairs[..count], rows, d.plan, s, split, hops, offset);
    DoneDatesSay(pairs[count..2 * count], dates, Prefix(d.payload, d.literals[DateRelation(d, split)].relation), offset,
                 dateOrientation);
    DoneEqualitiesSay(pairs[2 * count..], categories, offset, equalityOrientation);
  }

  /** All pairs of a generated world over a planned split: `count` of each task, every answer
      flipped by its edit, date and equality answers alternating from index to index. It fails
      only for a hop count outside one to six, for fewer than sixteen entities, or for an index
      all of whose thousand date draws are of entities whole periods apart. */
  method GenerateEvalPairs(facts: seq<W.Fact>, d: L.Design, splits: P.Splits, split: SplitName, hops: Option<nat>,
                           count: nat, offset: nat,
                           dateOrientation: nat, equalityOrientation: nat, draws: Draws, number: string -> Option<int>,
                           ghost rows: map<W.Address, W.Fact>, ghost base: map<W.Address, W.Fact>,
                           ghost bucket: seq<string> -> nat)
    returns (r: EvalResult, ghost dates: Values, ghost categories: Values)
    requires L.IsWorld(facts, rows, base, d) && P.Planned(splits, bucket)
      && d.plan.required == W.Required(PathsOf(splits, split))
    requires (forall i: nat :: Drawable(d, draws.dates(i))) && forall n: nat :: number(Print(n)) == Some(n)
    ensures r == Failed(BadHops) <==> count > 0 && !GoodHops(hops)
    ensures r == Failed(TooFewEntities) <==> count > 0 && GoodHops(hops) && L.Entities(d) < 16
    ensures r == Failed(NoDates) <==>
      && count > 0 && GoodHops(hops) && L.Entities(d) >= 16
      && exists i :: offset <= i < offset + count && Undrawn(draws.dates(i))
    ensures r.Made? && count == 0 ==> r.pairs == []
    ensures r.Made? && count > 0 ==>
      && IsColumn(dates, d, DateRelation(d, split)) && IsColumn(categories, d, CategoryRelation(d, split))
      && AllDone(r.pairs, rows, d, splits, split, hops, count, offset, dateOrientation, equalityOrientation, dates,
           categories)
    ensures r.Made? && count > 0 ==>
      PairsSay(r.pairs, splits, split, hops, count, offset, dateOrientation, equalityOrientation, dates, categories)
  {
    dates, categories := map[], map[];
    if count == 0 {
      r := Made([]);
      return;
    }
    if hops.Some? && (hops.value < 1 || hops.value > 6) {
      r := Failed(BadHops);
      return;
    }
    if L.Entities(d) < 16 {
      r := Failed(TooFewEntities);
      return;
    }
    var mapped := W.RowMap(facts);
    RowsAreMapped(facts, rows, mapped.value);
    WorldIsTabulated(facts, rows, base, d);
    WorldStaysClosed(facts, rows, base, d);
    var pairs;
    pairs, dates, categories :=
      GenerateTasks(mapped.value, d, splits, split, hops, count, offset, dateOrientation, equalityOrientation, draws,
        number, bucket);
    if pairs.None? {
      r := Failed(NoDates);
      return;
    }
    AllSay(pairs.value, rows, d, splits, split, hops, count, offset, dateOrientation, equalityOrientation, dates,
           categories);
    r := Made(pairs.value);
  }

  /** Up to 168000 entities, a single draw of two different ones is enough. */
  lemma {:induction false} SmallWorldsDraw(d: L.Design, draws: seq<Orders>)
    requires Drawable(d, draws) && L.Entities(d) <= DATE_PERIOD && draws[0].a != draws[0].b
    ensures !Undrawn(draws)
  {
    var ids, o := EntityIds(d), draws[0];
    var i: nat :| i < |ids| && ids[i] == o.a;
    var j: nat :| j < |ids| && ids[j] == o.b;
    SameDifference(d, i, j, o);
    NotWhole(i, j);
  }

  lemma {:induction false} NotWhole(i: nat, j: nat)
    requires i < DATE_PERIOD && j < DATE_PERIOD && i != j
    ensures !WholePeriods(i - j)
  {
  }
}
