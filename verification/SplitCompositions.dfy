/** The relation compositions that the splits plan: every one can be edited, and held-out ones
    are never trained on (world_splits.py, _compositions_for and build_split_plan). */
module SplitCompositions {
  import opened Wrappers
  import opened SchemaWorlds
  import opened CounterfactualPairs

  const MAX_CANDIDATES := 100000

  // ----- the product, in order -----

  function Power(n: nat, hops: nat): nat { if hops == 0 then 1 else n * Power(n, hops - 1) }

  function Div(i: nat, n: nat): nat
    requires n > 0
  {
    i / n
  }

  /** The i-th tuple of itertools.product: the last place varies fastest. */
  function Nth(relations: seq<string>, hops: nat, i: nat): (path: seq<string>)
    requires relations != []
    ensures |path| == hops
  {
    if hops == 0 then [] else Nth(relations, hops - 1, Div(i, |relations|)) + [relations[i % |relations|]]
  }

  ghost predicate Distinct<T>(s: seq<T>) {
    forall i, j {:trigger s[i], s[j]} | 0 <= i < j < |s| :: s[i] != s[j]
  }

  lemma {:induction false} DivisionParts(i: nat, n: nat)
    requires n > 0
    ensures i == Div(i, n) * n + i % n && 0 <= i % n < n
  {
  }

  lemma {:induction false} QuotientBelow(i: nat, n: nat, m: nat)
    requires n > 0 && i < n * m
    ensures Div(i, n) < m
  {
    DivisionParts(i, n);
    if Div(i, n) >= m {
      Times(m, Div(i, n), n);
      assert false;
    }
  }

  lemma {:induction false} Times(a: nat, b: nat, n: nat)
    requires a <= b
    ensures n * a <= b * n
  {
  }

  /** Different places in the product hold different tuples. */
  lemma {:induction false} NthDiffer(relations: seq<string>, hops: nat, i: nat, j: nat)
    requires Distinct(relations) && relations != [] && i < Power(|relations|, hops) && j < Power(|relations|, hops)
    ensures Nth(relations, hops, i) == Nth(relations, hops, j) <==> i == j
  {
    if hops > 0 && Nth(relations, hops, i) == Nth(relations, hops, j) {
      var n: nat := |relations|;
      var p, q := Nth(relations, hops - 1, Div(i, n)), Nth(relations, hops - 1, Div(j, n));
      assert p == (p + [relations[i % n]])[..hops - 1] && q == (q + [relations[j % n]])[..hops - 1];
      assert relations[i % n] == (p + [relations[i % n]])[hops - 1];
      QuotientBelow(i, n, Power(n, hops - 1));
      QuotientBelow(j, n, Power(n, hops - 1));
      NthDiffer(relations, hops - 1, Div(i, n), Div(j, n));
      DivisionParts(i, n);
      DivisionParts(j, n);
    }
  }

  // ----- choosing compositions -----

  predicate HasSingle(path: seq<string>) { exists p | 0 <= p < |path| :: OccursOnce(path, p) }

  datatype Quest = Quest(relations: seq<string>, hops: nat, start: nat, stop: nat)

  predicate Wanted(q: Quest, path: seq<string>, bucket: seq<string> -> nat) {
    (q.hops > 1 ==> HasSingle(path)) && q.start <= bucket(path) < q.stop
  }

  /** The wanted tuples among the first n of the product. */
  function Found(q: Quest, n: nat, bucket: seq<string> -> nat): seq<seq<string>>
    requires q.relations != []
  {
    if n == 0 then []
    else
      var path := Nth(q.relations, q.hops, n - 1);
      Found(q, n - 1, bucket) + if Wanted(q, path, bucket) then [path] else []
  }

  /** The whole product, but no more than a hundred thousand of its tuples. */
  function Candidates(q: Quest): (n: nat)
    ensures n <= 100_000 && n <= Power(|q.relations|, q.hops)
    ensures n == 100_000 || n == Power(|q.relations|, q.hops)
  {
    var all := Power(|q.relations|, q.hops);
    if all < MAX_CANDIDATES then all else MAX_CANDIDATES
  }

  /** The first `count` wanted tuples; None is the source's error. */
  method CompositionsFor(q: Quest, count: nat, bucket: seq<string> -> nat) returns (r: Option<seq<seq<string>>>)
    requires q.relations != [] && count > 0
    ensures r.Some? <==> |Found(q, Candidates(q), bucket)| >= count
    ensures r.Some? ==> |r.value| == count && r.value <= Found(q, Candidates(q), bucket)
  {
    var found: seq<seq<string>> := [];
    for i: nat := 0 to Candidates(q)
      invariant found == Found(q, i, bucket) && |found| < count
    {
      var path := Nth(q.relations, q.hops, i);
      FoundGrows(q, i + 1, Candidates(q), bucket);
      if Wanted(q, path, bucket) {
        found := found + [path];
        if |found| == count {
          return Some(found);
        }
      }
    }
    r := None;
  }

  lemma {:induction false} FoundGrows(q: Quest, m: nat, n: nat, bucket: seq<string> -> nat)
    requires q.relations != [] && m <= n
    ensures Found(q, m, bucket) <= Found(q, n, bucket)
    decreases n
  {
    if m < n {
      FoundGrows(q, m, n - 1, bucket);
    }
  }

  ghost predicate Among(q: Quest, n: nat, path: seq<string>)
    requires q.relations != []
  {
    exists i: nat :: i < n && path == Nth(q.relations, q.hops, i)
  }

  lemma {:induction false} FoundAmong(q: Quest, n: nat, bucket: seq<string> -> nat, k: nat)
    requires q.relations != [] && k < |Found(q, n, bucket)|
    ensures Among(q, n, Found(q, n, bucket)[k])
  {
    if k < |Found(q, n - 1, bucket)| {
      FoundAmong(q, n - 1, bucket, k);
      var i: nat :| i < n - 1 && Found(q, n - 1, bucket)[k] == Nth(q.relations, q.hops, i);
      assert i < n && Found(q, n, bucket)[k] == Nth(q.relations, q.hops, i);
    } else {
      assert Found(q, n, bucket)[k] == Nth(q.relations, q.hops, n - 1);
    }
  }

  lemma {:induction false} FoundIffWanted(q: Quest, n: nat, bucket: seq<string> -> nat, path: seq<string>)
    requires q.relations != []
    ensures path in Found(q, n, bucket) <==> Among(q, n, path) && Wanted(q, path, bucket)
  {
    if n > 0 {
      FoundIffWanted(q, n - 1, bucket, path);
      var last := Nth(q.relations, q.hops, n - 1);
      if Among(q, n - 1, path) {
        var i: nat :| i < n - 1 && path == Nth(q.relations, q.hops, i);
        assert i < n;
      }
      assert Among(q, n, path) <==> Among(q, n - 1, path) || path == last;
    }
  }

  /** The relation at this place occurs nowhere else. */
  ghost predicate Alone(path: seq<string>, p: int) {
    0 <= p < |path| && forall r | 0 <= r < |path| :: path[r] == path[p] ==> r == p
  }

  lemma {:induction false} SingleMeans(path: seq<string>)
    ensures HasSingle(path) <==> exists p :: Alone(path, p)
  {
    if HasSingle(path) {
      var p :| 0 <= p < |path| && OccursOnce(path, p);
      assert Alone(path, p);
    }
    if p :| Alone(path, p) {
      assert OccursOnce(path, p);
    }
  }

  /** A tuple is found exactly when it is one of the first n, its bucket is in range and, beyond one
      hop, some relation of it occurs once. */
  lemma {:induction false} FoundExactly(q: Quest, n: nat, bucket: seq<string> -> nat, path: seq<string>)
    requires q.relations != []
    ensures path in Found(q, n, bucket) <==>
      && Among(q, n, path) && q.start <= bucket(path) && bucket(path) < q.stop
      && (q.hops <= 1 || exists p :: Alone(path, p))
  {
    FoundIffWanted(q, n, bucket, path);
    SingleMeans(path);
  }

  /** Every tuple of the relations has its place in the product. */
  lemma {:induction false} NthOfEvery(relations: seq<string>, path: seq<string>) returns (i: nat)
    requires relations != [] && forall r | r in path :: r in relations
    ensures i < Power(|relations|, |path|) && path == Nth(relations, |path|, i)
    decreases |path|
  {
    i := 0;
    if path != [] {
      var front, last := path[..|path| - 1], path[|path| - 1];
      var j := NthOfEvery(relations, front);
      assert last in path;
      var k: nat :| k < |relations| && relations[k] == last;
      i := j * |relations| + k;
      PlaceIn(j, k, |relations|, Power(|relations|, |front|), i);
      assert path == front + [last];
    }
  }

  lemma {:induction false} PlaceIn(j: nat, k: nat, n: nat, m: nat, i: nat)
    requires k < n && j < m && i == j * n + k
    ensures Div(i, n) == j && i % n == k && i < n * m
  {
    DivisionParts(i, n);
    OnlyQuotient(j, k, Div(i, n), i % n, n);
    Times(j + 1, m, n);
  }

  lemma {:induction false} OnlyQuotient(j: nat, k: nat, p: nat, r: nat, n: nat)
    requires k < n && r < n && j * n + k == p * n + r
    ensures j == p && k == r
  {
    OneTimeMore(j, p, n);
    OneTimeMore(p, j, n);
  }

  /** What is found is wanted, of the right length, and found once. */
  lemma {:induction false} FoundAre(q: Quest, n: nat, bucket: seq<string> -> nat)
    requires Distinct(q.relations) && q.relations != [] && n <= Power(|q.relations|, q.hops)
    ensures forall k | 0 <= k < |Found(q, n, bucket)| ::
      |Found(q, n, bucket)[k]| == q.hops && Wanted(q, Found(q, n, bucket)[k], bucket)
    ensures Distinct(Found(q, n, bucket))
  {
    if n > 0 {
      FoundAre(q, n - 1, bucket);
      var before := Found(q, n - 1, bucket);
      forall k | 0 <= k < |before|
        ensures before[k] != Nth(q.relations, q.hops, n - 1)
      {
        FoundAmong(q, n - 1, bucket, k);
        var i: nat :| i < n - 1 && before[k] == Nth(q.relations, q.hops, i);
        NthDiffer(q.relations, q.hops, i, n - 1);
      }
    }
  }

  /** A composition of one or more hops that was chosen has a relation that occurs once. */
  lemma {:induction false} WantedHasSingle(q: Quest, path: seq<string>, bucket: seq<string> -> nat)
    requires Wanted(q, path, bucket) && |path| == q.hops >= 1
    ensures HasSingle(path)
  {
    if q.hops == 1 {
      assert OccursOnce(path, 0);
    }
  }

  // ----- the split plan -----

  datatype Splits = Splits(development: seq<seq<string>>, train: seq<seq<string>>, seen: seq<seq<string>>,
    heldout: seq<seq<string>>)

  /** Compositions of bucket range [start, stop), each with a relation that occurs once. */
  ghost predicate Chosen(paths: seq<seq<string>>, start: nat, stop: nat, bucket: seq<string> -> nat) {
    Distinct(paths) && forall k | 0 <= k < |paths| :: start <= bucket(paths[k]) < stop && HasSingle(paths[k])
  }

  ghost predicate Sound(s: Splits, bucket: seq<string> -> nat) {
    && Chosen(s.development, 80, 90, bucket) && Chosen(s.train, 0, 80, bucket) && Chosen(s.heldout, 90, 100, bucket)
    && |s.development| == 4 && |s.train| == 8 && |s.heldout| == 6 && s.seen == s.train[..4]
  }

  /** Held-out, development and training compositions have nothing in common. */
  lemma {:induction false} SplitsDisjoint(s: Splits, bucket: seq<string> -> nat)
    requires Sound(s, bucket)
    ensures forall p | p in s.train :: p !in s.development && p !in s.heldout
    ensures forall p | p in s.development :: p !in s.heldout
    ensures forall p | p in s.seen :: p in s.train
  {
  }

  /** One composition per hop count, two for training. */
  method PerHop(relations: seq<string>, maxHops: nat, start: nat, stop: nat, count: nat, bucket: seq<string> -> nat)
    returns (r: Option<seq<seq<seq<string>>>>)
    requires Distinct(relations) && relations != [] && count > 0
    ensures r.Some? <==> Enough(relations, maxHops, start, stop, count, bucket)
    ensures r.Some? ==>
      |r.value| == maxHops && forall h | 0 <= h < maxHops :: OfHop(r.value[h], h + 1, start, stop, count, bucket)
  {
    var perHop: seq<seq<seq<string>>> := [];
    for h: nat := 0 to maxHops
      invariant |perHop| == h && forall g | 0 <= g < h :: OfHop(perHop[g], g + 1, start, stop, count, bucket)
      invariant forall g | 1 <= g <= h ::
        |Found(Quest(relations, g, start, stop), Candidates(Quest(relations, g, start, stop)), bucket)| >= count
    {
      var q := Quest(relations, h + 1, start, stop);
      var found := CompositionsFor(q, count, bucket);
      if found.None? {
        return None;
      }
      FoundAre(q, Candidates(q), bucket);
      FirstAreOfHop(Found(q, Candidates(q), bucket), found.value, q, bucket);
      perHop := perHop + [found.value];
    }
    r := Some(perHop);
  }

  ghost predicate OfHop(paths: seq<seq<string>>, hops: nat, start: nat, stop: nat, count: nat,
                        bucket: seq<string> -> nat) {
    |paths| == count && Chosen(paths, start, stop, bucket) && forall k | 0 <= k < |paths| :: |paths[k]| == hops
  }

  lemma {:induction false} FirstAreOfHop(all: seq<seq<string>>, first: seq<seq<string>>, q: Quest,
                                         bucket: seq<string> -> nat)
    requires first <= all && Distinct(all) && q.hops >= 1 && forall k | 0 <= k < |all| ::
      |all[k]| == q.hops && Wanted(q, all[k], bucket)
    ensures OfHop(first, q.hops, q.start, q.stop, |first|, bucket)
  {
    forall k | 0 <= k < |first|
      ensures first[k] == all[k] && HasSingle(first[k])
    {
      WantedHasSingle(q, all[k], bucket);
    }
  }

  /** One path of each length, from one up. */
  ghost predicate ByHops(paths: seq<seq<string>>) { forall h | 0 <= h < |paths| :: |paths[h]| == h + 1 }

  /** The k-th composition of each hop count. */
  method Column(perHop: seq<seq<seq<string>>>, k: nat, ghost start: nat, ghost stop: nat, ghost count: nat,
                ghost bucket: seq<string> -> nat)
    returns (paths: seq<seq<string>>)
    requires k < count && forall h | 0 <= h < |perHop| :: OfHop(perHop[h], h + 1, start, stop, count, bucket)
    ensures |paths| == |perHop| && ByHops(paths) && forall h | 0 <= h < |paths| ::
      k < |perHop[h]| && paths[h] == perHop[h][k]
    ensures Chosen(paths, start, stop, bucket)
  {
    paths := [];
    for h := 0 to |perHop|
      invariant |paths| == h && forall g | 0 <= g < h ::
        paths[g] == perHop[g][k] && |paths[g]| == g + 1 && start <= bucket(paths[g]) < stop && HasSingle(paths[g])
    {
      assert OfHop(perHop[h], h + 1, start, stop, count, bucket);
      paths := paths + [perHop[h][k]];
    }
  }

  lemma {:induction false} TwoColumns(perHop: seq<seq<seq<string>>>, a: seq<seq<string>>, b: seq<seq<string>>,
                                      start: nat, stop: nat, bucket: seq<string> -> nat)
    requires |a| == |b| == |perHop| && Chosen(a, start, stop, bucket) && Chosen(b, start, stop, bucket)
    requires forall h | 0 <= h < |perHop| :: OfHop(perHop[h], h + 1, start, stop, 2, bucket)
    requires ByHops(a) && ByHops(b) && forall h | 0 <= h < |perHop| ::
      1 < |perHop[h]| && a[h] == perHop[h][0] && b[h] == perHop[h][1]
    ensures Chosen(a + b, start, stop, bucket)
  {
    forall i, j | 0 <= i < |a| && 0 <= j < |b|
      ensures a[i] != b[j]
    {
      assert OfHop(perHop[i], i + 1, start, stop, 2, bucket);
      assert perHop[i][0] != perHop[i][1];
    }
    var all := a + b;
    forall i, j | 0 <= i < j < |all|
      ensures all[i] != all[j]
    {
      if i < |a| <= j {
        assert all[i] == a[i] && all[j] == b[j - |a|];
      }
    }
  }

  /** Every hop count up to maxHops has enough compositions in the bucket range. */
  ghost predicate Enough(relations: seq<string>, maxHops: nat, start: nat, stop: nat, count: nat,
                         bucket: seq<string> -> nat)
    requires relations != []
  {
    forall h | 1 <= h <= maxHops ::
      |Found(Quest(relations, h, start, stop), Candidates(Quest(relations, h, start, stop)), bucket)| >= count
  }

  /** What a split plan holds: sound compositions, one of every length, two for training. */
  ghost predicate Planned(s: Splits, bucket: seq<string> -> nat) {
    && Sound(s, bucket)
    && ByHops(s.train[..4]) && ByHops(s.train[4..]) && ByHops(s.development) && ByHops(s.heldout)
  }

  /** The compositions of every split, or the error, exactly when there is no relation or some
      split has too few compositions of some length. */
  method BuildSplitPlan(relations: seq<string>, bucket: seq<string> -> nat) returns (r: Option<Splits>)
    requires Distinct(relations)
    ensures r.Some? <==>
      && relations != [] && Enough(relations, 4, 0, 80, 2, bucket) && Enough(relations, 4, 80, 90, 1, bucket)
      && Enough(relations, 6, 90, 100, 1, bucket)
    ensures r.Some? ==> Planned(r.value, bucket)
  {
    if relations == [] {
      return None;
    }
    var train := PerHop(relations, 4, 0, 80, 2, bucket);
    if train.None? {
      return None;
    }
    var seen := Column(train.value, 0, 0, 80, 2, bucket);
    var second := Column(train.value, 1, 0, 80, 2, bucket);
    TwoColumns(train.value, seen, second, 0, 80, bucket);
    var developmentPerHop := PerHop(relations, 4, 80, 90, 1, bucket);
    if developmentPerHop.None? {
      return None;
    }
    var development := Column(developmentPerHop.value, 0, 80, 90, 1, bucket);
    var heldoutPerHop := PerHop(relations, 6, 90, 100, 1, bucket);
    if heldoutPerHop.None? {
      return None;
    }
    var heldout := Column(heldoutPerHop.value, 0, 90, 100, 1, bucket);
    assert (seen + second)[..4] == seen && (seen + second)[4..] == second;
    r := Some(Splits(development, seen + second, seen, heldout));
  }

  /** In a generated world, a planned composition always yields a counterfactual pair. */
  lemma {:induction false} PlannedPairsAreMade(plan: Plan, rows: map<Address, Fact>, start: nat, path: seq<string>,
                                               paths: seq<seq<string>>, low: nat, high: nat, bucket: seq<string> -> nat)
    requires ValidPlan(plan) && HasCells(rows, plan, |plan.specs|, 0) && Reasons(plan, start)
    requires plan.required == Required(paths) && path in paths && Chosen(paths, low, high, bucket)
    requires forall relation | relation in plan.required ::
      exists k :: 0 <= k < |plan.specs| && plan.specs[k].relation == relation
    ensures Reach(rows, start, path, |path|).Some? && exists p :: OccursOnce(path, p)
  {
    PlannedPathsNeverMiss(plan, rows, start, path, paths);
    assert HasSingle(path);
  }
}
