/** How a number of entities is divided into worlds, and the ids and action plans that follow
    (srgm_worlds.py, _iter_world_sizes, iter_worlds and _complete_action_plan). */
module WorldSizes {
  import opened Wrappers

  const MIN_ENTITIES := 16

  function Sum(sizes: seq<nat>, n: nat): nat
    requires n <= |sizes|
  {
    if n == 0 then 0 else Sum(sizes, n - 1) + sizes[n - 1]
  }

  function Total(sizes: seq<nat>): nat { Sum(sizes, |sizes|) }

  lemma {:induction false} SumPrefix(a: seq<nat>, b: seq<nat>, n: nat)
    requires n <= |a| && a <= b
    ensures Sum(a, n) == Sum(b, n)
  {
    if n > 0 {
      SumPrefix(a, b, n - 1);
    }
  }

  lemma {:induction false} TotalSnoc(sizes: seq<nat>, size: nat)
    ensures Total(sizes + [size]) == Total(sizes) + size
  {
    SumPrefix(sizes, sizes + [size], |sizes|);
  }

  /** yield from (size for _ in range(count)). */
  method Repeat(count: nat, size: nat) returns (sizes: seq<nat>)
    ensures |sizes| == count && Total(sizes) == count * size && forall i | 0 <= i < |sizes| :: sizes[i] == size
  {
    sizes := [];
    for i := 0 to count
      invariant |sizes| == i && Total(sizes) == i * size && forall j | 0 <= j < |sizes| :: sizes[j] == size
    {
      TotalSnoc(sizes, size);
      sizes := sizes + [size];
    }
  }

  lemma {:induction false} OneFewer(full: nat, size: nat)
    requires full > 0
    ensures (full - 1) * size + size == full * size
  {
  }

  /** A world no smaller than the least, and no larger than asked, but for one that had to take
      a remainder in because it could not spare enough for a world of its own. */
  ghost predicate FitSize(size: nat, worldSize: nat, remainder: nat) {
    16 <= size && (size <= worldSize || (size == worldSize + remainder && size < 32))
  }

  /** All entities are divided, into worlds that fit; a count that divides evenly is divided evenly. */
  method IterWorldSizes(entities: nat, worldSize: nat) returns (sizes: seq<nat>)
    requires worldSize > 0
    ensures Total(sizes) == entities
    ensures entities >= 16 && worldSize >= 16 ==>
      forall i | 0 <= i < |sizes| :: FitSize(sizes[i], worldSize, entities % worldSize)
    ensures entities % worldSize == 0 ==> forall i | 0 <= i < |sizes| :: sizes[i] == worldSize
    ensures entities / worldSize <= |sizes| <= entities / worldSize + 1
  {
    var full: nat, remainder: nat := Quotient(entities, worldSize), entities % worldSize;
    assert entities == full * worldSize + remainder;
    if remainder == 0 {
      sizes := Repeat(full, worldSize);
      return;
    }
    if full == 0 {
      TotalSnoc([], remainder);
      return [] + [remainder];
    }
    OneFewer(full, worldSize);
    sizes := Repeat(full - 1, worldSize);
    if remainder >= MIN_ENTITIES {
      var combined := worldSize + remainder;
      var first := combined / 2;
      TotalSnoc(sizes, first);
      TotalSnoc(sizes + [first], combined - first);
      return sizes + [first] + [combined - first];
    }
    var deficit := MIN_ENTITIES - remainder;
    var donor := worldSize - deficit;
    if donor >= MIN_ENTITIES {
      TotalSnoc(sizes, donor);
      TotalSnoc(sizes + [donor], MIN_ENTITIES);
      sizes := sizes + [donor] + [MIN_ENTITIES];
    } else {
      TotalSnoc(sizes, worldSize + remainder);
      sizes := sizes + [worldSize + remainder];
    }
  }

  function Quotient(a: nat, b: nat): (q: nat)
    requires b > 0
    ensures q == a / b
  {
    Nonnegative(a, b);
    a / b
  }

  lemma {:induction false} Nonnegative(a: int, b: int)
    requires a >= 0 && b > 0
    ensures a / b >= 0
  {
    var q := a / b;
    assert a == q * b + a % b;
    assert q < 0 ==> q * b <= -b;
  }

  // ----- the worlds' entities -----

  datatype World = World(id: nat, offset: nat, size: nat)

  ghost predicate Owns(w: World, e: nat) { w.offset <= e < w.offset + w.size }

  ghost predicate Owned(worlds: seq<World>, e: nat) { exists k :: 0 <= k < |worlds| && Owns(worlds[k], e) }

  /** Each entity of the range belongs to exactly one world, and no other entity to any. */
  ghost predicate Partitions(worlds: seq<World>, first: nat, total: nat) {
    && (forall e: nat :: Owned(worlds, e) <==> first <= e < first + total)
    && forall j, k, e: nat | 0 <= j < k < |worlds| && Owns(worlds[j], e) :: !Owns(worlds[k], e)
  }

  /** Worlds follow each other without gap or overlap. */
  method IterWorlds(entities: nat, worldSize: nat, idOffset: nat) returns (r: Option<seq<World>>)
    ensures r.Some? <==> entities >= 16 && worldSize >= 16
    ensures r.Some? ==> Partitions(r.value, idOffset * worldSize, entities)
    ensures r.Some? ==>
      forall k | 0 <= k < |r.value| ::
      r.value[k].id == idOffset + k && FitSize(r.value[k].size, worldSize, entities % worldSize)
  {
    if entities < MIN_ENTITIES || worldSize < MIN_ENTITIES {
      return None;
    }
    var sizes := IterWorldSizes(entities, worldSize);
    var first := idOffset * worldSize;
    var worlds := NumberWorlds(sizes, idOffset, first);
    CoversRange(worlds, first, sizes);
    r := Some(worlds);
  }

  method NumberWorlds(sizes: seq<nat>, idOffset: nat, first: nat) returns (worlds: seq<World>)
    ensures Consecutive(worlds, first, sizes, |sizes|) && forall k | 0 <= k < |worlds| :: worlds[k].id == idOffset + k
  {
    worlds := [];
    var offset := first;
    for k := 0 to |sizes|
      invariant Consecutive(worlds, first, sizes, k) && offset == first + Sum(sizes, k)
      invariant forall j | 0 <= j < k :: worlds[j].id == idOffset + j
    {
      worlds := worlds + [World(idOffset + k, offset, sizes[k])];
      offset := offset + sizes[k];
    }
  }

  ghost predicate Consecutive(worlds: seq<World>, first: nat, sizes: seq<nat>, n: nat)
    requires n <= |sizes|
  {
    |worlds| == n && forall k | 0 <= k < n :: worlds[k].offset == first + Sum(sizes, k) && worlds[k].size == sizes[k]
  }

  lemma {:induction false} SumGrows(sizes: seq<nat>, m: nat, n: nat)
    requires m <= n <= |sizes|
    ensures Sum(sizes, m) <= Sum(sizes, n)
  {
    if m < n {
      SumGrows(sizes, m, n - 1);
    }
  }

  lemma {:induction false} CoversRange(worlds: seq<World>, first: nat, sizes: seq<nat>)
    requires Consecutive(worlds, first, sizes, |sizes|)
    ensures Partitions(worlds, first, Total(sizes))
  {
    forall e: nat
      ensures Owned(worlds, e) <==> first <= e < first + Total(sizes)
    {
      if first <= e < first + Total(sizes) {
        var k := OwnerOf(first, sizes, |sizes|, e);
        assert Owns(worlds[k], e);
      }
      forall k | 0 <= k < |worlds| && Owns(worlds[k], e)
        ensures first <= e < first + Total(sizes)
      {
        SumGrows(sizes, k + 1, |sizes|);
      }
    }
    forall j, k, e: nat | 0 <= j < k < |worlds| && Owns(worlds[j], e)
      ensures !Owns(worlds[k], e)
    {
      SumGrows(sizes, j + 1, k);
    }
  }

  lemma {:induction false} OwnerOf(first: nat, sizes: seq<nat>, n: nat, e: nat) returns (k: nat)
    requires n <= |sizes| && first <= e < first + Sum(sizes, n)
    ensures k < n && first + Sum(sizes, k) <= e < first + Sum(sizes, k) + sizes[k]
  {
    var before: nat := n - 1;
    if e >= first + Sum(sizes, before) {
      k := before;
    } else {
      k := OwnerOf(first, sizes, before, e);
    }
  }

  // ----- action plans -----

  /** One read, halt or no-operation. */
  datatype Action = Action(slot: nat, relation: string, outgoing: bool, read: bool, halt: bool)

  const SLOTS := 6

  /** Six actions: the reads, a halt when there is room, and nothing after it. None is the
      source's error. */
  ghost function CompleteActionPlan(asked: seq<Action>): Option<seq<Action>> {
    if !(1 <= |asked| <= SLOTS) || exists i | 0 <= i < |asked| :: !asked[i].read || asked[i].halt then None
    else if |asked| == SLOTS then Some(asked)
    else
      var filler := asked[0];
      Some(asked + [filler.(read := false, halt := true)]
        + seq(SLOTS - 1 - |asked|, _ => filler.(read := false, halt := false)))
  }

  /** What a controller reads before it halts. */
  ghost function Executed(plan: seq<Action>): seq<Action> {
    if plan == [] || plan[0].halt then [] else (if plan[0].read then [plan[0]] else []) + Executed(plan[1..])
  }

  /** A completed plan reads exactly what was asked, in six actions of which at most one halts. */
  lemma {:induction false} PlanReads(asked: seq<Action>)
    requires CompleteActionPlan(asked).Some?
    ensures 1 <= |asked| <= 6 && forall i | 0 <= i < |asked| :: asked[i].read && !asked[i].halt
    ensures var plan := CompleteActionPlan(asked).value; |plan| == 6 && Executed(plan) == asked
    ensures var plan := CompleteActionPlan(asked).value;
      (forall i | 0 <= i < |plan| :: plan[i].halt <==> i == |asked|) && forall i | 0 <= i < |plan| ::
        plan[i].read <==> i < |asked|
  {
    var plan := CompleteActionPlan(asked).value;
    assert plan[..|asked|] == asked;
    ExecutesReads(plan, |asked|);
  }

  lemma {:induction false} ExecutesReads(plan: seq<Action>, n: nat)
    requires n <= |plan| && (forall i | 0 <= i < n :: plan[i].read && !plan[i].halt) && (n < |plan| ==> plan[n].halt)
    ensures Executed(plan) == plan[..n]
    decreases n
  {
    if n > 0 {
      ExecutesReads(plan[1..], n - 1);
      assert plan[..n] == [plan[0]] + plan[1..][..n - 1];
    }
  }

  /** Different requests are different plans. */
  lemma {:induction false} PlansDiffer(a: seq<Action>, b: seq<Action>)
    requires CompleteActionPlan(a).Some? && CompleteActionPlan(b).Some?
    ensures CompleteActionPlan(a) == CompleteActionPlan(b) <==> a == b
  {
    PlanReads(a);
    PlanReads(b);
  }
}
