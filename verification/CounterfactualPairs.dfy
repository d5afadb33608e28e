/** Following paths through a world, and the counterfactual edits whose answers always flip
    (srgm_worlds.py, _follow, _replace and the path task of _generate_eval_pairs). */
module CounterfactualPairs {
  import opened Wrappers
  import opened SchemaWorlds

  // ----- following a path -----

  /** The entity after the first n relations, when every row on the way exists. */
  ghost function Reach(rows: map<Address, Fact>, start: nat, path: seq<string>, n: nat): Option<nat>
    requires n <= |path|
  {
    if n == 0 then Some(start)
    else
      match Reach(rows, start, path, n - 1)
      case None => None
      case Some(e) =>
        if Address(e, path[n - 1]) in rows && rows[Address(e, path[n - 1])].target.ToEntity?
          then Some(rows[Address(e, path[n - 1])].target.entity) else None
  }

  /** The rows a path reads, in order. */
  ghost predicate Reads(rows: map<Address, Fact>, start: nat, path: seq<string>, used: seq<Fact>) {
    && |used| == |path|
    && forall i: nat | i < |path| ::
         && Reach(rows, start, path, i).Some?
         && Address(Reach(rows, start, path, i).value, path[i]) in rows
         && used[i] == rows[Address(Reach(rows, start, path, i).value, path[i])]
  }

  function CodeSum(facts: seq<Fact>, n: nat): nat
    requires n <= |facts|
  {
    if n == 0 then 0 else CodeSum(facts, n - 1) + facts[n - 1].compose
  }

  lemma {:induction false} ReachEarlier(rows: map<Address, Fact>, start: nat, path: seq<string>, m: nat, n: nat)
    requires m <= n <= |path| && Reach(rows, start, path, n).Some?
    ensures Reach(rows, start, path, m).Some?
  {
    if m < n {
      ReachEarlier(rows, start, path, m, n - 1);
    }
  }

  lemma {:induction false} CodeSumPrefix(facts: seq<Fact>, more: seq<Fact>, n: nat)
    requires n <= |facts|
    ensures CodeSum(facts + more, n) == CodeSum(facts, n)
  {
    if n > 0 {
      CodeSumPrefix(facts, more, n - 1);
    }
  }

  /** The composed code of a path's rows. */
  function Composed(facts: seq<Fact>): nat { CodeSum(facts, |facts|) % 4 }

  /** The code after one more step modulo four. */
  ghost function NextAnswer(answer: nat): nat { (answer + 1) % 4 }

  datatype Followed = Followed(end: nat, code: nat, used: seq<Fact>)

  /** None is the missing row, or the row whose target is no entity. */
  method Follow(rows: map<Address, Fact>, start: nat, path: seq<string>) returns (r: Option<Followed>)
    ensures r.Some? <==> Reach(rows, start, path, |path|).Some?
    ensures r.Some? ==> Some(r.value.end) == Reach(rows, start, path, |path|) && Reads(rows, start, path, r.value.used)
    ensures r.Some? ==> r.value.code == Composed(r.value.used)
  {
    var current, compose: nat := start, 0;
    var used: seq<Fact> := [];
    for i: nat := 0 to |path|
      invariant |used| == i && Reach(rows, start, path, i) == Some(current) && compose == CodeSum(used, i) % 4
      invariant forall k: nat | k < i ::
        && Reach(rows, start, path, k).Some? && Address(Reach(rows, start, path, k).value, path[k]) in rows
        && used[k] == rows[Address(Reach(rows, start, path, k).value, path[k])]
    {
      var a := Address(current, path[i]);
      if a !in rows || !rows[a].target.ToEntity? {
        if Reach(rows, start, path, |path|).Some? {
          ReachEarlier(rows, start, path, i + 1, |path|);
        }
        return None;
      }
      CodeSumPrefix(used, [rows[a]], i);
      used := used + [rows[a]];
      compose := (compose + rows[a].compose) % 4;
      current := rows[a].target.entity;
    }
    r := Some(Followed(current, compose, used));
  }

  // ----- the backbone is closed -----

  /** An entity of the reasoning backbone. */
  ghost predicate Reasons(plan: Plan, e: nat) {
    exists i: nat :: i < plan.backbone && Stands(plan.names, plan.order, e, i)
  }

  /** The target of a backbone source's row. */
  lemma {:induction false} BackboneRow(plan: Plan, rows: map<Address, Fact>, k: nat, i: nat, a: Address)
    requires ValidPlan(plan) && HasCells(rows, plan, |plan.specs|, 0) && IsCell(plan, k, i) && i < plan.backbone
    requires a == SourceAddress(plan.names, plan.order, plan.specs[k].relation, i)
    ensures a in rows && rows[a].target.ToEntity? && Reasons(plan, rows[a].target.entity)
  {
    RowAtPosition(rows, plan, k, i);
    BackboneStays(i, plan.sizes[k], plan.backbone);
    assert Stands(plan.names, plan.order, rows[a].target.entity, TargetPosition(i, plan.sizes[k], plan.backbone));
  }

  lemma {:induction false} BackboneStep(plan: Plan, rows: map<Address, Fact>, e: nat, relation: string)
    requires ValidPlan(plan) && HasCells(rows, plan, |plan.specs|, 0) && Reasons(plan, e) && relation in plan.required
    requires exists k :: 0 <= k < |plan.specs| && plan.specs[k].relation == relation
    ensures Address(e, relation) in rows && rows[Address(e, relation)].target.ToEntity?
      && Reasons(plan, rows[Address(e, relation)].target.entity)
  {
    var k: nat :| k < |plan.specs| && plan.specs[k].relation == relation;
    var i: nat :| i < plan.backbone && Stands(plan.names, plan.order, e, i);
    BackboneRow(plan, rows, k, i, Address(e, relation));
  }

  /** Required relations lead from the backbone into the backbone. */
  ghost predicate BackboneClosed(plan: Plan, rows: map<Address, Fact>) {
    forall e, relation | Reasons(plan, e) && relation in plan.required ::
      Address(e, relation) in rows && rows[Address(e, relation)].target.ToEntity?
        && Reasons(plan, rows[Address(e, relation)].target.entity)
  }

  lemma WorldsAreClosed(plan: Plan, rows: map<Address, Fact>)
    requires ValidPlan(plan) && HasCells(rows, plan, |plan.specs|, 0)
    requires forall relation | relation in plan.required ::
      exists k :: 0 <= k < |plan.specs| && plan.specs[k].relation == relation
    ensures BackboneClosed(plan, rows)
  {
    forall e, relation | Reasons(plan, e) && relation in plan.required
      ensures Address(e, relation) in rows && rows[Address(e, relation)].target.ToEntity?
        && Reasons(plan, rows[Address(e, relation)].target.entity)
    {
      BackboneStep(plan, rows, e, relation);
    }
  }

  /** From any backbone entity, every path over required relations, of any length, finds all its
      rows and never leaves the backbone. */
  lemma {:induction false} PathsStay(plan: Plan, rows: map<Address, Fact>, start: nat, path: seq<string>, n: nat)
    requires BackboneClosed(plan, rows) && Reasons(plan, start) && n <= |path|
    requires forall relation | relation in path :: relation in plan.required
    ensures Reach(rows, start, path, n).Some? && Reasons(plan, Reach(rows, start, path, n).value)
  {
    if n > 0 {
      PathsStay(plan, rows, start, path, n - 1);
      assert path[n - 1] in path;
    }
  }

  // ----- the composition pair -----

  predicate OccursOnce(path: seq<string>, p: nat) {
    p < |path| && forall q | 0 <= q < |path| && q != p :: path[q] != path[p]
  }

  /** The first position whose relation occurs once; None is the source's StopIteration. */
  method FirstSingle(path: seq<string>) returns (p: Option<nat>)
    ensures p.Some? <==> exists q :: OccursOnce(path, q)
    ensures p.Some? ==> OccursOnce(path, p.value) && forall q: nat | q < p.value :: !OccursOnce(path, q)
  {
    for i: nat := 0 to |path|
      invariant forall q: nat | q < i :: !OccursOnce(path, q)
    {
      if OccursOnce(path, i) {
        return Some(i);
      }
    }
    p := None;
  }

  function NextCode(code: nat): nat {
    code - code % 4 + (code + 1) % 4
  }

  lemma NextCodeShifts(code: nat, sum: int)
    ensures (sum - code + NextCode(code)) % 4 == (sum % 4 + 1) % 4 && (sum % 4 + 1) % 4 != sum % 4
  {
    assert code == 4 * (code / 4) + code % 4;
  }

  function Edited(fact: Fact): Fact { fact.(compose := NextCode(fact.compose)) }

  lemma {:induction false} SumEdited(facts: seq<Fact>, p: nat, edited: Fact, n: nat)
    requires p < |facts| && n <= |facts|
    ensures CodeSum(facts[p := edited], n) + (if p < n then facts[p].compose else 0) == CodeSum(facts, n)
      + if p < n then edited.compose else 0
  {
    if n > 0 {
      SumEdited(facts, p, edited, n - 1);
    }
  }

  /** On a path whose p-th relation occurs once, only the p-th row has that row's address. */
  lemma OneRowEdited(rows: map<Address, Fact>, start: nat, path: seq<string>, used: seq<Fact>, p: nat, q: nat)
    requires Reads(rows, start, path, used) && OccursOnce(path, p) && q < |path|
    requires forall a | a in rows :: rows[a].Addr() == a
    ensures used[q].Addr() == used[p].Addr() <==> q == p
  {
  }

  /** Following the world with that one row edited visits the same entities ... */
  lemma {:induction false} SameEntities(rows: map<Address, Fact>, start: nat, path: seq<string>, used: seq<Fact>,
                                        p: nat, n: nat)
    requires Reads(rows, start, path, used) && OccursOnce(path, p) && n <= |path|
    requires forall a | a in rows :: rows[a].Addr() == a
    ensures Reach(rows[used[p].Addr() := Edited(used[p])], start, path, n) == Reach(rows, start, path, n)
  {
    if n > 0 {
      SameEntities(rows, start, path, used, p, n - 1);
    }
  }

  /** ... reads the same rows but the edited one ... */
  lemma EditedRows(rows: map<Address, Fact>, start: nat, path: seq<string>, used: seq<Fact>, p: nat)
    requires Reads(rows, start, path, used) && OccursOnce(path, p)
    requires forall a | a in rows :: rows[a].Addr() == a
    ensures Reads(rows[used[p].Addr() := Edited(used[p])], start, path, used[p := Edited(used[p])])
  {
    var edited := rows[used[p].Addr() := Edited(used[p])];
    forall i: nat | i < |path|
      ensures Reach(edited, start, path, i) == Reach(rows, start, path, i)
      ensures used[p := Edited(used[p])][i] == edited[Address(Reach(rows, start, path, i).value, path[i])]
    {
      SameEntities(rows, start, path, used, p, i);
      OneRowEdited(rows, start, path, used, p, i);
    }
  }

  /** ... and composes to the next code modulo four. */
  lemma EditedCode(used: seq<Fact>, p: nat)
    requires p < |used|
    ensures Composed(used[p := Edited(used[p])]) == NextAnswer(Composed(used))
      && NextAnswer(Composed(used)) != Composed(used)
  {
    SumEdited(used, p, Edited(used[p]), |used|);
    NextCodeShifts(used[p].compose, CodeSum(used, |used|));
  }

  function Replaced(used: seq<Fact>, changed: Fact, n: nat): (facts: seq<Fact>)
    requires n <= |used|
    ensures |facts| == n && forall i | 0 <= i < n ::
      facts[i] == if used[i].Addr() == changed.Addr() then changed else used[i]
  {
    if n == 0 then []
    else
      Replaced(used, changed, n - 1)
      + [if used[n - 1].Addr() == changed.Addr() then changed else used[n - 1]]
  }

  datatype PathPair = PathPair(answer: nat, flipped: nat, changed: Fact, used: seq<Fact>, position: nat)

  lemma OneReplaced(rows: map<Address, Fact>, start: nat, path: seq<string>, used: seq<Fact>, p: nat)
    requires Reads(rows, start, path, used) && OccursOnce(path, p)
    requires forall a | a in rows :: rows[a].Addr() == a
    ensures Replaced(used, Edited(used[p]), |used|) == used[p := Edited(used[p])]
  {
    forall q: nat | q < |path|
      ensures used[q].Addr() == used[p].Addr() <==> q == p
    {
      OneRowEdited(rows, start, path, used, p, q);
    }
  }

  /** The rows read once the row at the pair's position is the changed one. */
  function Changed(pair: PathPair): seq<Fact>
    requires pair.position < |pair.used|
  {
    pair.used[pair.position := pair.changed]
  }

  /** The code of a path, and what the edit makes of it: the rows' codes summed modulo four, the
      edited row's code one further within its four, and the flipped answer one further. */
  ghost predicate CodesMove(pair: PathPair) {
    && pair.position < |pair.used| && pair.answer < 4 && pair.flipped < 4
    && (CodeSum(pair.used, |pair.used|) - pair.answer) % 4 == 0 && (pair.flipped - pair.answer - 1) % 4 == 0
    && var before := pair.used[pair.position];
    && pair.changed == before.(compose := pair.changed.compose)
    && pair.changed.compose / 4 == before.compose / 4 && (pair.changed.compose - before.compose - 1) % 4 == 0
  }

  lemma {:induction false} PairCodesMove(pair: PathPair)
    requires pair.position < |pair.used| && pair.answer == Composed(pair.used)
    requires pair.flipped == NextAnswer(pair.answer) && pair.changed == Edited(pair.used[pair.position])
    ensures CodesMove(pair)
  {
    NextIsFurther(pair.used[pair.position].compose);
    NextIsFurther(pair.answer);
  }

  lemma {:induction false} NextIsFurther(code: nat)
    ensures NextCode(code) / 4 == code / 4 && (NextCode(code) - code - 1) % 4 == 0
    ensures ((code + 1) % 4 - code - 1) % 4 == 0
  {
    var q, r := code / 4, code % 4;
    assert code == 4 * q + r;
    if r == 3 {
      assert code + 1 == 4 * (q + 1);
    } else {
      assert code + 1 == 4 * q + (r + 1);
    }
  }

  datatype PathError = MissingRow | NoSingleRelation | NotFlipped

  datatype Outcome<T> = Made(pair: T) | Failed(error: PathError)

  /** The path_composition pair: it is made exactly when the path can be followed and some
      relation occurs once in it, and then the answer moves on by one. */
  method MakePathPair(rows: map<Address, Fact>, start: nat, path: seq<string>) returns (r: Outcome<PathPair>)
    requires forall a | a in rows :: rows[a].Addr() == a
    ensures r.Made? <==> Reach(rows, start, path, |path|).Some? && exists p :: OccursOnce(path, p)
    ensures r.Failed? ==> r.error != NotFlipped
    ensures r.Made? ==> Reads(rows, start, path, r.pair.used) && r.pair.answer == Composed(r.pair.used)
    ensures r.Made? ==> r.pair.flipped == NextAnswer(r.pair.answer) && r.pair.flipped != r.pair.answer
    ensures r.Made? ==> OccursOnce(path, r.pair.position) && r.pair.changed == Edited(r.pair.used[r.pair.position])
    ensures r.Made? ==> CodesMove(r.pair)
    // The world with that one row edited reads the same path to the flipped answer.
    ensures r.Made? ==>
      Reads(rows[r.pair.changed.Addr() := r.pair.changed], start, path, Changed(r.pair))
      && r.pair.flipped == Composed(Changed(r.pair))
  {
    var followed := Follow(rows, start, path);
    if followed.None? {
      return Failed(MissingRow);
    }
    var used := followed.value.used;
    var position := FirstSingle(path);
    if position.None? {
      return Failed(NoSingleRelation);
    }
    var p := position.value;
    var changed := Edited(used[p]);
    var changedRows := Replaced(used, changed, |used|);
    OneReplaced(rows, start, path, used, p);
    EditedRows(rows, start, path, used, p);
    EditedCode(used, p);
    var answer, flipped := Composed(used), Composed(changedRows);
    if flipped == answer {
      return Failed(NotFlipped);
    }
    r := Made(PathPair(answer, flipped, changed, used, p));
    PairCodesMove(r.pair);
    assert Changed(r.pair) == changedRows;
  }

  /** On a generated world, from a backbone entity, no pair over a planned path fails. */
  lemma PlannedPathsNeverMiss(plan: Plan, rows: map<Address, Fact>, start: nat, path: seq<string>,
                              paths: seq<seq<string>>)
    requires ValidPlan(plan) && HasCells(rows, plan, |plan.specs|, 0) && Reasons(plan, start)
    requires plan.required == Required(paths) && path in paths
    requires forall relation | relation in plan.required ::
      exists k :: 0 <= k < |plan.specs| && plan.specs[k].relation == relation
    ensures Reach(rows, start, path, |path|).Some?
  {
    WorldsAreClosed(plan, rows);
    PathsStay(plan, rows, start, path, |path|);
  }
}
