/** The six-hop loop over all roots, and its accounting (wikidata_paths.py, _write_paths). */
module WikidataBuild {
  import opened Wrappers
  import opened GraphRows
  import opened PathReplay
  import opened WikidataPaths
  import opened WikidataTwins

  const MAX_PATH_ROOTS := 10_000

  // ----- what the loop should count and emit -----

  ghost predicate Roots(source: Source, roots: seq<Triple>) {
    forall r | 0 <= r < |roots| :: IsRoot(source, roots[r])
  }

  /** How many of the first n roots have this outcome at hop h. */
  ghost function CountAt(source: Source, roots: seq<Triple>, n: nat, h: nat, outcome: Outcome): nat
    requires Roots(source, roots) && n <= |roots| && h >= 1
  {
    if n == 0 then 0
    else CountAt(source, roots, n - 1, h, outcome) + if OutcomeAt(source, roots[n - 1], h) == outcome then 1 else 0
  }

  /** A root's outcome is one of five: surviving or one of four exclusions. */
  lemma {:induction false} OutcomeKinds(source: Source, root: Triple, h: nat)
    requires IsRoot(source, root) && h >= 1
    ensures OutcomeAt(source, root, h) in {Survivor, Excluded(AmbiguousAddress), Excluded(MissingHop),
      Excluded(RepeatedAddress), Excluded(NoAlternative)}
  {
    if h > 1 {
      OutcomeKinds(source, root, h - 1);
    }
  }

  /** Each root is counted once at each hop. */
  lemma {:induction false} CountsCover(source: Source, roots: seq<Triple>, n: nat, h: nat)
    requires Roots(source, roots) && n <= |roots| && h >= 1
    ensures n == CountAt(source, roots, n, h, Survivor) + CountAt(source, roots, n, h, Excluded(AmbiguousAddress))
      + CountAt(source, roots, n, h, Excluded(MissingHop)) + CountAt(source, roots, n, h, Excluded(RepeatedAddress))
      + CountAt(source, roots, n, h, Excluded(NoAlternative))
    ensures CountAt(source, roots, n, h, Excluded(SelectionBound)) == 0
  {
    if n > 0 {
      CountsCover(source, roots, n - 1, h);
      OutcomeKinds(source, roots[n - 1], h);
    }
  }

  /** The surviving paths, root by root and hop by hop: all hops of the first n roots, and the
      first h hops of the next. */
  ghost function Survivors(source: Source, roots: seq<Triple>, n: nat, h: nat): seq<seq<Triple>>
    requires Roots(source, roots) && n <= |roots| && h <= MAX_HOPS && (h > 0 ==> n < |roots|)
    decreases n, h
  {
    if h > 0 then
      Survivors(source, roots, n, h - 1) + if OutcomeAt(source, roots[n], h) == Survivor
        then [WalkTo(source, roots[n], h).rows] else []
    else if n > 0 then Survivors(source, roots, n - 1, MAX_HOPS)
    else []
  }

  /** A path of one of the first n roots, or of at most h hops of the next. */
  ghost predicate FromBefore(path: seq<Triple>, roots: seq<Triple>, n: nat, h: nat) {
    path != [] && exists r: nat :: r < |roots| && path[0] == roots[r] && (r < n || (r == n && |path| <= h))
  }

  lemma {:induction false} BeforeStays(path: seq<Triple>, roots: seq<Triple>, n: nat, h: nat, m: nat, k: nat)
    requires FromBefore(path, roots, n, h) && (n < m || (n == m && h <= k))
    ensures FromBefore(path, roots, m, k)
  {
    var r: nat :| r < |roots| && path[0] == roots[r] && (r < n || (r == n && |path| <= h));
    assert r < m || (r == m && |path| <= k);
  }

  /** Paths of the first n roots and h hops of the next, no two of one root and length. */
  ghost predicate Apart(paths: seq<seq<Triple>>, roots: seq<Triple>, n: nat, h: nat) {
    && (forall i | 0 <= i < |paths| :: FromBefore(paths[i], roots, n, h))
    && forall i, j {:trigger paths[i], paths[j]} | 0 <= i < j < |paths| ::
         paths[i][0] != paths[j][0] || |paths[i]| != |paths[j]|
  }

  lemma {:induction false} ApartLater(paths: seq<seq<Triple>>, roots: seq<Triple>, n: nat, h: nat, m: nat, k: nat)
    requires Apart(paths, roots, n, h) && (n < m || (n == m && h <= k))
    ensures Apart(paths, roots, m, k)
  {
    forall i | 0 <= i < |paths|
      ensures FromBefore(paths[i], roots, m, k)
    {
      BeforeStays(paths[i], roots, n, h, m, k);
    }
  }

  lemma {:induction false} ApartWith(paths: seq<seq<Triple>>, roots: seq<Triple>, n: nat, h: nat, path: seq<Triple>)
    requires 1 <= h && n < |roots| && Apart(paths, roots, n, h - 1) && |path| == h && path[0] == roots[n]
    requires forall i, j {:trigger roots[i], roots[j]} | 0 <= i < j < |roots| :: roots[i] != roots[j]
    ensures Apart(paths + [path], roots, n, h)
  {
    ApartLater(paths, roots, n, h - 1, n, h);
    forall i | 0 <= i < |paths|
      ensures paths[i][0] != path[0] || |paths[i]| != h
    {
      assert FromBefore(paths[i], roots, n, h - 1);
    }
  }

  /** Survivors of distinct roots differ in their root or in their number of hops. */
  lemma {:induction false} SurvivorsDiffer(source: Source, selected: set<Triple>, roots: seq<Triple>, n: nat, h: nat)
    requires Finalized(source.tables, selected) && DistinctOrder(source.order) && Roots(source, roots)
    requires forall i, j {:trigger roots[i], roots[j]} | 0 <= i < j < |roots| :: roots[i] != roots[j]
    requires n <= |roots| && h <= MAX_HOPS && (h > 0 ==> n < |roots|)
    ensures Apart(Survivors(source, roots, n, h), roots, n, h)
    decreases n, h
  {
    if h > 0 {
      SurvivorsDiffer(source, selected, roots, n, h - 1);
      var earlier := Survivors(source, roots, n, h - 1);
      if OutcomeAt(source, roots[n], h) == Survivor {
        WalksHaveShape(source, selected, roots[n], h);
        ApartWith(earlier, roots, n, h, WalkTo(source, roots[n], h).rows);
      } else {
        ApartLater(earlier, roots, n, h - 1, n, h);
      }
    } else if n > 0 {
      SurvivorsDiffer(source, selected, roots, n - 1, MAX_HOPS);
      ApartLater(Survivors(source, roots, n, h), roots, n - 1, MAX_HOPS, n, h);
    }
  }

  // ----- the loop's state -----

  datatype Cell = Cell(hop: nat, reason: Reason)

  datatype Emission = Emission(rows: seq<Triple>, alternative: nat, key: string)

  datatype Output = Output(pairCount: nat, originals: seq<Item>, counterfactuals: seq<Item>, published: map<Key, nat>)

  datatype State = State(exclusions: map<Cell, nat>, survivors: map<nat, nat>, output: Output)

  const PATH_REASONS := {AmbiguousAddress, MissingHop, RepeatedAddress, NoAlternative, SelectionBound}

  predicate IsHop(h: nat) { 1 <= h <= MAX_HOPS }

  /** Every emission a path with an alternative, in the order of the survivors, and its items
      written two by two. */
  ghost predicate Logged(output: Output, log: seq<Emission>, paths: seq<seq<Triple>>, source: Source, names: Names) {
    && |log| == |paths| && output.pairCount == 2 * |log| && |output.originals| == |output.counterfactuals| == 2 * |log|
    && (forall k | 0 <= k < |log| :: log[k].rows == paths[k] && Emittable(log[k], source))
    && (forall k | 0 <= k < |log| :: Written(output, log[k], k, names))
    && Publishes(output.published, log, source)
  }

  ghost predicate Emittable(e: Emission, source: Source) {
    PathShape(source, e.rows)
      && IsSuccessor(RangeOf(source.tables, e.rows[|e.rows| - 1].relation), e.rows[|e.rows| - 1].obj, e.alternative)
  }

  /** Its four items stand at place k, under the key of its root and hop count. */
  ghost predicate Written(output: Output, e: Emission, k: nat, names: Names) {
    && e.rows != [] && e.key == names.keyOf(e.rows[0], |e.rows|) && 2 * k + 1 < |output.originals|
         && 2 * k + 1 < |output.counterfactuals|
    && output.originals[2 * k] == TraversalItem(e.rows, e.alternative, e.key, names, false)
    && output.originals[2 * k + 1] == EqualityItem(e.rows, e.alternative, e.key, names, false)
    && output.counterfactuals[2 * k] == TraversalItem(e.rows, e.alternative, e.key, names, true)
    && output.counterfactuals[2 * k + 1] == EqualityItem(e.rows, e.alternative, e.key, names, true)
  }

  ghost predicate EmittedAt(log: seq<Emission>, a: Key) {
    exists k, i {:trigger log[k].rows[i]} :: 0 <= k < |log| && 0 <= i < |log[k].rows| && KeyOf(log[k].rows[i]) == a
  }

  /** published_rows is a part of the unique addresses: exactly the emitted rows. */
  ghost predicate Publishes(published: map<Key, nat>, log: seq<Emission>, source: Source) {
    && (forall a | a in published :: a in source.tables.unique && published[a] == source.tables.unique[a])
    && (forall k, i | 0 <= k < |log| && 0 <= i < |log[k].rows| :: KeyOf(log[k].rows[i]) in published)
    && forall a {:trigger EmittedAt(log, a)} | a in published :: EmittedAt(log, a)
  }

  lemma {:induction false} EmittedStays(log: seq<Emission>, e: Emission, a: Key)
    ensures EmittedAt(log, a) ==> EmittedAt(log + [e], a)
    ensures (exists i :: 0 <= i < |e.rows| && KeyOf(e.rows[i]) == a) ==> EmittedAt(log + [e], a)
  {
    var all := log + [e];
    assert all[|log|] == e;
    if EmittedAt(log, a) {
      var k, i :| 0 <= k < |log| && 0 <= i < |log[k].rows| && KeyOf(log[k].rows[i]) == a;
      assert all[k].rows[i] == log[k].rows[i];
    } else if i :| 0 <= i < |e.rows| && KeyOf(e.rows[i]) == a {
      assert all[|log|].rows[i] == e.rows[i];
    }
  }

  /** INSERT OR IGNORE of a path's rows: nothing already there is ever different. */
  method Publish(published: map<Key, nat>, e: Emission, ghost log: seq<Emission>, ghost source: Source)
    returns (more: map<Key, nat>)
    requires Publishes(published, log, source) && PathShape(source, e.rows)
    ensures Publishes(more, log + [e], source)
  {
    more := published;
    forall a | a in published
      ensures EmittedAt(log + [e], a)
    {
      EmittedStays(log, e, a);
    }
    for i := 0 to |e.rows|
      invariant published.Keys <= more.Keys && forall a {:trigger EmittedAt(log + [e], a)} | a in more ::
        EmittedAt(log + [e], a)
      invariant forall a | a in more :: a in source.tables.unique && more[a] == source.tables.unique[a]
      invariant forall j | 0 <= j < i :: KeyOf(e.rows[j]) in more
    {
      EmittedStays(log, e, KeyOf(e.rows[i]));
      if KeyOf(e.rows[i]) !in more {
        more := more[KeyOf(e.rows[i]) := e.rows[i].obj];
      }
    }
  }

  /** _independently_replay_original_rows: None is the source's assertion failure. */
  method ReplayOriginalRows(tables: Tables, rows: seq<Triple>, provenance: string)
    returns (replayed: Option<seq<GraphRow>>)
    requires rows != []
    ensures replayed.Some? <==>
              (forall i | 0 < i < |rows| :: rows[i].subject == rows[i - 1].obj) && forall i | 0 <= i < |rows| ::
                LookupNext(tables, rows[i].subject, rows[i].relation) == Found(rows[i])
    ensures replayed.Some? ==> replayed.value == BaseRows(rows, provenance)
  {
    var endpoint := rows[0].subject;
    var out: seq<GraphRow> := [];
    for i := 0 to |rows|
      invariant endpoint == if i == 0 then rows[0].subject else rows[i - 1].obj
      invariant forall k | 0 < k < i :: rows[k].subject == rows[k - 1].obj
      invariant forall k | 0 <= k < i :: LookupNext(tables, rows[k].subject, rows[k].relation) == Found(rows[k])
      invariant out == BaseRows(rows[..i], provenance)
    {
      if rows[i].subject != endpoint || LookupNext(tables, rows[i].subject, rows[i].relation) != Found(rows[i]) {
        return None;
      }
      out := out + [BaseRow(rows[i], provenance)];
      endpoint := rows[i].obj;
    }
    assert rows[..|rows|] == rows;
    replayed := Some(out);
  }

  lemma PathReplays(source: Source, selected: set<Triple>, rows: seq<Triple>)
    requires Finalized(source.tables, selected) && PathShape(source, rows)
    ensures forall i | 0 <= i < |rows| :: LookupNext(source.tables, rows[i].subject, rows[i].relation) == Found(rows[i])
  {
    forall i | 0 <= i < |rows|
      ensures LookupNext(source.tables, rows[i].subject, rows[i].relation) == Found(rows[i])
    {
      var a := KeyOf(rows[i]);
      assert a in source.tables.unique && a in source.tables.stats;
      SoleElement(source.tables.stats[a], Sole(source.tables.stats[a]), source.tables.unique[a]);
    }
  }

  datatype Twins = Twins(originals: seq<Item>, counterfactuals: seq<Item>)

  /** Replays, emits and checks one surviving path; no check ever fails. */
  method CheckedTwins(rows: seq<Triple>, alternative: nat, key: string, source: Source, names: Names,
                      ghost selected: set<Triple>)
    returns (twins: Option<Twins>)
    requires Finalized(source.tables, selected) && PathShape(source, rows) && alternative != rows[|rows| - 1].obj
    ensures twins
      == Some(Twins(Originals(rows, alternative, key, names), Counterfactuals(rows, alternative, key, names)))
  {
    PathReplays(source, selected, rows);
    var replayed := ReplayOriginalRows(source.tables, rows, Provenance(names));
    if replayed.None? {
      return None;
    }
    var originals, counterfactuals := EmitPathPairs(rows, alternative, key, names);
    EmittedTwins(source, rows, alternative, key, names);
    var ok := ReplayAndValidate(replayed.value, originals, counterfactuals, names.factId);
    if !ok {
      return None;
    }
    twins := Some(Twins(originals, counterfactuals));
  }

  /** What one emission appends. */
  ghost predicate Appends(output: Output, next: Output, e: Emission, names: Names) {
    && e.rows != [] && next.originals == output.originals + Originals(e.rows, e.alternative, e.key, names)
    && next.counterfactuals == output.counterfactuals + Counterfactuals(e.rows, e.alternative, e.key, names)
    && next.pairCount == output.pairCount + 2
  }

  lemma {:induction false} WrittenStays(output: Output, next: Output, e: Emission, earlier: Emission, k: nat,
                                        names: Names)
    requires Appends(output, next, e, names) && Written(output, earlier, k, names)
    ensures Written(next, earlier, k, names)
  {
  }

  lemma {:induction false} WrittenLast(output: Output, next: Output, e: Emission, k: nat, names: Names)
    requires Appends(output, next, e, names) && |output.originals| == |output.counterfactuals| == 2 * k
    requires e.rows != [] && e.key == names.keyOf(e.rows[0], |e.rows|)
    ensures Written(next, e, k, names) && |next.originals| == |next.counterfactuals| == 2 * k + 2
  {
  }

  lemma {:induction false} LogGrows(output: Output, next: Output, log: seq<Emission>, paths: seq<seq<Triple>>,
                                    e: Emission, source: Source,
                                    names: Names)
    requires Logged(output, log, paths, source, names) && Emittable(e, source)
    requires e.key == names.keyOf(e.rows[0], |e.rows|)
    requires Appends(output, next, e, names) && Publishes(next.published, log + [e], source)
    ensures Logged(next, log + [e], paths + [e.rows], source, names)
  {
    forall k | 0 <= k < |log|
      ensures Written(next, log[k], k, names)
    {
      WrittenStays(output, next, e, log[k], k, names);
    }
    WrittenLast(output, next, e, |log|, names);
  }

  /** Publishes and writes one surviving path. */
  method EmitSurvivor(output: Output, rows: seq<Triple>, alternative: nat, key: string, source: Source, names: Names,
                      ghost selected: set<Triple>, ghost log: seq<Emission>, ghost paths: seq<seq<Triple>>)
    returns (next: Option<Output>)
    requires Finalized(source.tables, selected) && Emittable(Emission(rows, alternative, key), source)
    requires key == names.keyOf(rows[0], |rows|)
    requires Logged(output, log, paths, source, names)
    ensures next.Some? && Logged(next.value, log + [Emission(rows, alternative, key)], paths + [rows], source, names)
  {
    ghost var e := Emission(rows, alternative, key);
    var twins := CheckedTwins(rows, alternative, key, source, names, selected);
    if twins.None? {
      return None;
    }
    var published := Publish(output.published, Emission(rows, alternative, key), log, source);
    var after := Output(output.pairCount + |twins.value.originals|, output.originals + twins.value.originals,
                        output.counterfactuals + twins.value.counterfactuals, published);
    LogGrows(output, after, log, paths, e, source, names);
    next := Some(after);
  }

  // ----- one root -----

  ghost predicate At(rows: seq<Triple>, failure: Option<Reason>, source: Source, root: Triple, h: nat)
    requires IsRoot(source, root) && h >= 1
  {
    WalkTo(source, root, h) == if failure.None? then Going(rows) else Stopped(failure.value)
  }

  method Indices(order: seq<string>) returns (indices: map<string, nat>)
    requires DistinctOrder(order)
    ensures forall relation :: relation in indices <==> relation in order
    ensures forall relation | relation in order :: indices[relation] == IndexIn(order, relation)
  {
    indices := map[];
    for i: nat := 0 to |order|
      invariant forall relation :: relation in indices <==> exists j :: 0 <= j < i && order[j] == relation
      invariant forall relation | relation in indices ::
        indices[relation] < |order| && order[indices[relation]] == relation
    {
      indices := indices[order[i] := i];
    }
  }

  /** The sticky part of one hop: looks the next row up unless the walk has already failed. */
  method Advance(rows: seq<Triple>, failure: Option<Reason>, hop: nat, root: Triple, source: Source,
                 indices: map<string, nat>)
    returns (longer: seq<Triple>, failed: Option<Reason>)
    requires IsRoot(source, root) && IsHop(hop) && DistinctOrder(source.order)
    requires forall relation | relation in source.order ::
      relation in indices && indices[relation] == IndexIn(source.order, relation)
    requires if hop == 1 then rows == [root] && failure.None? else At(rows, failure, source, root, hop - 1)
    ensures At(longer, failed, source, root, hop)
  {
    longer, failed := rows, failure;
    if hop > 1 && failure.None? {
      var relation := source.order[(indices[root.relation] + hop - 1) % |source.order|];
      var found := LookupNext(source.tables, rows[|rows| - 1].obj, relation);
      if found.Failed? {
        failed := Some(found.reason);
      } else {
        longer := rows + [found.row];
        if exists i :: 0 <= i < |rows| && KeyOf(rows[i]) == KeyOf(found.row) {
          failed := Some(RepeatedAddress);
        }
      }
    }
  }

  // ----- the counters -----

  /** Hops up to h have counted root n as well. */
  ghost function Counted(n: nat, h: nat, j: nat): nat { if j <= h then n + 1 else n }

  /** The counters after all hops of n roots and h hops of the next. */
  ghost predicate Tallied(state: State, source: Source, roots: seq<Triple>, n: nat, h: nat, bound: nat)
    requires Roots(source, roots) && n <= |roots| && h <= MAX_HOPS && (h > 0 ==> n < |roots|)
  {
    && (forall j, r | IsHop(j) && r in PATH_REASONS ::
         Cell(j, r) in state.exclusions && state.exclusions[Cell(j, r)]
         == ExcludedAt(source, roots, Counted(n, h, j), j, r, bound))
    && forall j | IsHop(j) ::
         j in state.survivors && state.survivors[j] == CountAt(source, roots, Counted(n, h, j), j, Survivor)
  }

  ghost function ExcludedAt(source: Source, roots: seq<Triple>, n: nat, h: nat, reason: Reason, bound: nat): nat
    requires Roots(source, roots) && n <= |roots| && h >= 1
  {
    CountAt(source, roots, n, h, Excluded(reason)) + if reason == SelectionBound then bound else 0
  }

  lemma CountStep(source: Source, roots: seq<Triple>, n: nat, h: nat, outcome: Outcome)
    requires Roots(source, roots) && n < |roots| && h >= 1
    ensures CountAt(source, roots, n + 1, h, outcome) == CountAt(source, roots, n, h, outcome)
      + if OutcomeAt(source, roots[n], h) == outcome then 1 else 0
  {
  }

  /** The new counts of hop h, when root n had this outcome there. */
  ghost predicate Bumped(state: State, next: State, h: nat, outcome: Outcome) {
    && (forall c | c in state.exclusions ::
         c in next.exclusions && next.exclusions[c] == state.exclusions[c]
         + if outcome == Excluded(c.reason) && c.hop == h then 1 else 0)
    && forall j | j in state.survivors ::
         j in next.survivors && next.survivors[j] == state.survivors[j] + if outcome == Survivor && j == h then 1 else 0
  }

  lemma {:induction false} TallyStep(state: State, next: State, source: Source, roots: seq<Triple>, n: nat, h: nat,
                                     bound: nat, done: nat)
    requires Roots(source, roots) && n < |roots| && IsHop(h) && done == h - 1
    requires Tallied(state, source, roots, n, done, bound)
    requires Bumped(state, next, h, OutcomeAt(source, roots[n], h))
    ensures Tallied(next, source, roots, n, h, bound)
  {
    var outcome := OutcomeAt(source, roots[n], h);
    forall j, r | IsHop(j) && r in PATH_REASONS
      ensures Cell(j, r) in next.exclusions && next.exclusions[Cell(j, r)]
        == ExcludedAt(source, roots, Counted(n, h, j), j, r, bound)
    {
      assert Cell(j, r) in state.exclusions;
      if j == h {
        CountStep(source, roots, n, h, Excluded(r));
      }
    }
    forall j | IsHop(j)
      ensures j in next.survivors && next.survivors[j] == CountAt(source, roots, Counted(n, h, j), j, Survivor)
    {
      if j == h {
        CountStep(source, roots, n, h, Survivor);
      }
    }
  }

  lemma {:induction false} TallyNextRoot(state: State, source: Source, roots: seq<Triple>, n: nat, bound: nat,
                                         next: nat)
    requires Roots(source, roots) && n < |roots| && next == n + 1
    requires Tallied(state, source, roots, n, MAX_HOPS, bound)
    ensures Tallied(state, source, roots, next, 0, bound)
  {
    forall j | IsHop(j)
      ensures Counted(n, MAX_HOPS, j) == Counted(next, 0, j)
    {
    }
  }

  // ----- the loops -----

  ghost predicate HasCells(state: State) {
    && (forall j, r | IsHop(j) && r in PATH_REASONS :: Cell(j, r) in state.exclusions)
    && forall j | IsHop(j) :: j in state.survivors
  }

  function Exclude(state: State, hop: nat, reason: Reason): State
    requires Cell(hop, reason) in state.exclusions
  {
    state.(exclusions := state.exclusions[Cell(hop, reason) := state.exclusions[Cell(hop, reason)] + 1])
  }

  lemma ExcludeBumps(state: State, hop: nat, reason: Reason)
    requires HasCells(state) && IsHop(hop) && reason in PATH_REASONS
    ensures Bumped(state, Exclude(state, hop, reason), hop, Excluded(reason)) && HasCells(Exclude(state, hop, reason))
  {
  }

  function Survive(state: State, hop: nat, output: Output): State
    requires hop in state.survivors
  {
    State(state.exclusions, state.survivors[hop := state.survivors[hop] + 1], output)
  }

  lemma SurviveBumps(state: State, hop: nat, output: Output)
    requires HasCells(state) && IsHop(hop)
    ensures Bumped(state, Survive(state, hop, output), hop, Survivor) && HasCells(Survive(state, hop, output))
  {
  }

  /** A path that has not failed: excluded for want of an alternative, or emitted. */
  method RecordPath(state: State, rows: seq<Triple>, hop: nat, root: Triple, source: Source, names: Names,
                    ghost selected: set<Triple>, ghost log: seq<Emission>, ghost paths: seq<seq<Triple>>)
    returns (next: Option<State>, ghost survives: bool, ghost longer: seq<Emission>)
    requires Finalized(source.tables, selected) && PathShape(source, rows) && IsHop(hop)
    requires rows[0] == root && |rows| == hop
    requires HasCells(state) && Logged(state.output, log, paths, source, names)
    ensures survives <==> !(RangeOf(source.tables, rows[|rows| - 1].relation) <= {rows[|rows| - 1].obj})
    ensures next.Some? && Bumped(state, next.value, hop, if survives then Survivor else Excluded(NoAlternative))
      && HasCells(next.value)
    ensures Logged(next.value.output, longer, if survives then paths + [rows] else paths, source, names)
  {
    var last := rows[|rows| - 1];
    var alternative := AlternativeTarget(source.tables, last.relation, last.obj);
    survives, longer := alternative.Some?, log;
    if alternative.None? {
      ExcludeBumps(state, hop, NoAlternative);
      return Some(Exclude(state, hop, NoAlternative)), survives, longer;
    }
    var key := names.keyOf(root, hop);
    longer := log + [Emission(rows, alternative.value, key)];
    var output := EmitSurvivor(state.output, rows, alternative.value, key, source, names, selected, log, paths);
    if output.None? {
      return None, survives, longer;
    }
    SurviveBumps(state, hop, output.value);
    next := Some(Survive(state, hop, output.value));
  }

  /** Exactly one counter of this hop moves: an exclusion's or the survivors', and a survivor is emitted. */
  method RecordHop(state: State, rows: seq<Triple>, failure: Option<Reason>, hop: nat, root: Triple, source: Source,
                   names: Names,
                   ghost selected: set<Triple>, ghost log: seq<Emission>, ghost paths: seq<seq<Triple>>)
    returns (next: Option<State>, ghost longer: seq<Emission>)
    requires Finalized(source.tables, selected) && DistinctOrder(source.order) && IsRoot(source, root) && IsHop(hop)
      && At(rows, failure, source, root, hop)
    requires HasCells(state) && Logged(state.output, log, paths, source, names)
    ensures next.Some? && Bumped(state, next.value, hop, OutcomeAt(source, root, hop)) && HasCells(next.value)
    ensures Logged(next.value.output, longer, if OutcomeAt(source, root, hop) == Survivor
      then paths + [WalkTo(source, root, hop).rows] else paths, source, names)
  {
    if failure.Some? {
      OutcomeKinds(source, root, hop);
      ExcludeBumps(state, hop, failure.value);
      next, longer := Some(Exclude(state, hop, failure.value)), log;
    } else {
      WalksHaveShape(source, selected, root, hop);
      ghost var survives;
      next, survives, longer := RecordPath(state, rows, hop, root, source, names, selected, log, paths);
      assert OutcomeAt(source, root, hop) == if survives then Survivor else Excluded(NoAlternative);
    }
  }

  ghost predicate Progress(state: State, log: seq<Emission>, source: Source, names: Names, roots: seq<Triple>, n: nat,
                           h: nat, bound: nat)
    requires Roots(source, roots) && n <= |roots| && h <= MAX_HOPS && (h > 0 ==> n < |roots|)
  {
    && HasCells(state) && Tallied(state, source, roots, n, h, bound)
    && Logged(state.output, log, Survivors(source, roots, n, h), source, names)
  }

  /** The survivors once hop `hop` of root n is counted; `done` is the hop before. */
  ghost function OneMoreHop(source: Source, roots: seq<Triple>, n: nat, hop: nat, done: nat): seq<seq<Triple>>
    requires Roots(source, roots) && n < |roots| && IsHop(hop) && done == hop - 1
  {
    if OutcomeAt(source, roots[n], hop) == Survivor
    then Survivors(source, roots, n, done) + [WalkTo(source, roots[n], hop).rows]
    else Survivors(source, roots, n, done)
  }

  lemma {:induction false} SurvivorsStep(source: Source, roots: seq<Triple>, n: nat, hop: nat, done: nat)
    requires Roots(source, roots) && n < |roots| && IsHop(hop) && done == hop - 1
    ensures Survivors(source, roots, n, hop) == OneMoreHop(source, roots, n, hop, done)
  {
  }

  /** What a counted hop leaves. */
  lemma {:induction false} HopDone(state: State, next: State, longer: seq<Emission>, source: Source, names: Names,
                                   roots: seq<Triple>, n: nat, hop: nat, bound: nat, done: nat,
                                   paths: seq<seq<Triple>>)
    requires Roots(source, roots) && n < |roots| && IsHop(hop) && done == hop - 1
    requires Tallied(state, source, roots, n, done, bound) && HasCells(next)
    requires Bumped(state, next, hop, OutcomeAt(source, roots[n], hop))
    requires paths == OneMoreHop(source, roots, n, hop, done) && Logged(next.output, longer, paths, source, names)
    ensures Progress(next, longer, source, names, roots, n, hop, bound)
  {
    TallyStep(state, next, source, roots, n, hop, bound, done);
    SurvivorsStep(source, roots, n, hop, done);
    assert Survivors(source, roots, n, hop) == paths;
  }

  /** One hop of one root. */
  method VisitHop(state: State, rows: seq<Triple>, failure: Option<Reason>, hop: nat, source: Source,
                  indices: map<string, nat>, names: Names,
                  roots: seq<Triple>, n: nat, ghost bound: nat, ghost selected: set<Triple>, ghost log: seq<Emission>,
                  ghost done: nat)
    returns (next: Option<State>, newRows: seq<Triple>, newFailure: Option<Reason>, ghost longer: seq<Emission>)
    requires Finalized(source.tables, selected) && DistinctOrder(source.order) && Roots(source, roots) && n < |roots|
      && IsHop(hop)
    requires forall relation | relation in source.order ::
      relation in indices && indices[relation] == IndexIn(source.order, relation)
    requires done == hop - 1 && Progress(state, log, source, names, roots, n, done, bound)
    requires if done == 0 then rows == [roots[n]] && failure.None? else At(rows, failure, source, roots[n], done)
    ensures next.Some? && Progress(next.value, longer, source, names, roots, n, hop, bound)
      && At(newRows, newFailure, source, roots[n], hop)
  {
    newRows, newFailure := Advance(rows, failure, hop, roots[n], source, indices);
    next, longer :=
      RecordHop(state, newRows, newFailure, hop, roots[n], source, names, selected, log,
        Survivors(source, roots, n, done));
    HopDone(state, next.value, longer, source, names, roots, n, hop, bound, done,
      OneMoreHop(source, roots, n, hop, done));
  }

  lemma {:induction false} NextRoot(state: State, log: seq<Emission>, source: Source, names: Names, roots: seq<Triple>,
                                    n: nat, bound: nat, next: nat)
    requires Roots(source, roots) && n < |roots| && next == n + 1
    requires Progress(state, log, source, names, roots, n, MAX_HOPS, bound)
    ensures Progress(state, log, source, names, roots, next, 0, bound)
  {
    TallyNextRoot(state, source, roots, n, bound, next);
  }

  /** All six hops of one root: one outcome each. */
  method VisitRoot(state: State, source: Source, indices: map<string, nat>, names: Names, roots: seq<Triple>, n: nat,
                   ghost bound: nat, ghost selected: set<Triple>, ghost log: seq<Emission>, ghost following: nat)
    returns (next: Option<State>, ghost longer: seq<Emission>)
    requires Finalized(source.tables, selected) && DistinctOrder(source.order) && Roots(source, roots) && n < |roots|
    requires following == n + 1
    requires forall relation | relation in source.order ::
      relation in indices && indices[relation] == IndexIn(source.order, relation)
    requires Progress(state, log, source, names, roots, n, 0, bound)
    ensures next.Some? && Progress(next.value, longer, source, names, roots, following, 0, bound)
  {
    var rows, failure := [roots[n]], None;
    var current := state;
    longer := log;
    ghost var done: nat := 0;
    for hop: nat := 1 to MAX_HOPS + 1
      invariant done == hop - 1 && Progress(current, longer, source, names, roots, n, done, bound)
      invariant if done == 0 then rows == [roots[n]] && failure.None? else At(rows, failure, source, roots[n], done)
    {
      next, rows, failure, longer :=
        VisitHop(current, rows, failure, hop, source, indices, names, roots, n, bound, selected, longer, done);
      current := next.value;
      done := hop;
    }
    NextRoot(current, longer, source, names, roots, n, bound, following);
    next := Some(current);
  }

  // ----- the accounting -----

  datatype CandidateAccounting = CandidateAccounting(candidates: nat, surviving: nat, exclusions: map<Reason, nat>)

  datatype PathAccounting = PathAccounting(candidates: nat, surviving: nat, exclusions: map<Reason, nat>,
    perHop: seq<CandidateAccounting>)

  function SumReasons(m: map<Reason, nat>): nat
    requires m.Keys == PATH_REASONS
  {
    m[AmbiguousAddress] + m[MissingHop] + m[RepeatedAddress] + m[NoAlternative] + m[SelectionBound]
  }

  /** CandidateAccounting's own check. */
  predicate ValidCandidates(c: CandidateAccounting) {
    c.exclusions.Keys == PATH_REASONS && c.candidates == c.surviving + SumReasons(c.exclusions)
  }

  function Add(a: CandidateAccounting, b: CandidateAccounting): CandidateAccounting
    requires a.exclusions.Keys == b.exclusions.Keys == PATH_REASONS
  {
    CandidateAccounting(a.candidates + b.candidates, a.surviving + b.surviving, map reason | reason in PATH_REASONS ::
      a.exclusions[reason] + b.exclusions[reason])
  }

  /** The sum of the first n hops. */
  function TotalOf(perHop: seq<CandidateAccounting>, n: nat): (total: CandidateAccounting)
    requires n <= |perHop| && forall h | 0 <= h < |perHop| :: perHop[h].exclusions.Keys == PATH_REASONS
    ensures total.exclusions.Keys == PATH_REASONS
  {
    if n == 0 then CandidateAccounting(0, 0, map reason | reason in PATH_REASONS :: 0)
      else Add(TotalOf(perHop, n - 1), perHop[n - 1])
  }

  /** PathAccounting's own checks: six balanced hops, and totals that balance and are their sum. */
  predicate ValidPaths(p: PathAccounting) {
    && ValidCandidates(CandidateAccounting(p.candidates, p.surviving, p.exclusions))
    && |p.perHop| == MAX_HOPS && (forall h | 0 <= h < MAX_HOPS :: ValidCandidates(p.perHop[h]))
    && CandidateAccounting(p.candidates, p.surviving, p.exclusions) == TotalOf(p.perHop, MAX_HOPS)
  }

  /** Sums of balanced hops balance, so the total's own check adds nothing. */
  lemma {:induction false} TotalBalances(perHop: seq<CandidateAccounting>, n: nat)
    requires n <= |perHop| && forall h | 0 <= h < |perHop| ::
      perHop[h].exclusions.Keys == PATH_REASONS && ValidCandidates(perHop[h])
    ensures ValidCandidates(TotalOf(perHop, n))
  {
    if n > 0 {
      TotalBalances(perHop, n - 1);
    }
  }

  function HopAccounting(state: State, h: nat, uniqueCount: nat): CandidateAccounting
    requires IsHop(h) && HasCells(state)
  {
    CandidateAccounting(uniqueCount, state.survivors[h], map reason | reason in PATH_REASONS ::
      state.exclusions[Cell(h, reason)])
  }

  lemma HopBalances(state: State, source: Source, roots: seq<Triple>, bound: nat, h: nat)
    requires Roots(source, roots) && HasCells(state) && Tallied(state, source, roots, |roots|, 0, bound) && IsHop(h)
    ensures ValidCandidates(HopAccounting(state, h, |roots| + bound))
  {
    CountsCover(source, roots, |roots|, h);
    var m := HopAccounting(state, h, |roots| + bound).exclusions;
    assert forall r | r in PATH_REASONS :: m[r] == ExcludedAt(source, roots, Counted(|roots|, 0, h), h, r, bound);
  }

  /** The survivors of hops 1 to k. */
  ghost function SurvivorsTo(source: Source, roots: seq<Triple>, n: nat, h: nat, k: nat): nat
    requires Roots(source, roots) && n <= |roots| && h <= MAX_HOPS && (h > 0 ==> n < |roots|)
  {
    if k == 0 then 0
    else
      SurvivorsTo(source, roots, n, h, k - 1)
      + CountAt(source, roots, Counted(n, h, k), k, Survivor)
  }

  lemma {:induction false} SurvivorsToStep(source: Source, roots: seq<Triple>, n: nat, h: nat, k: nat)
    requires Roots(source, roots) && n < |roots| && IsHop(h)
    ensures SurvivorsTo(source, roots, n, h, k) == SurvivorsTo(source, roots, n, h - 1, k)
      + if k >= h && OutcomeAt(source, roots[n], h) == Survivor then 1 else 0
  {
    if k > 0 {
      SurvivorsToStep(source, roots, n, h, k - 1);
      if k == h {
        CountStep(source, roots, n, h, Survivor);
      }
    }
  }

  lemma {:induction false} SurvivorsToNextRoot(source: Source, roots: seq<Triple>, n: nat, k: nat)
    requires Roots(source, roots) && n < |roots| && k <= MAX_HOPS
    ensures SurvivorsTo(source, roots, n, MAX_HOPS, k) == SurvivorsTo(source, roots, n + 1, 0, k)
  {
    if k > 0 {
      SurvivorsToNextRoot(source, roots, n, k - 1);
    }
  }

  /** As many paths are emitted as survivors are counted. */
  lemma {:induction false} SurvivorTotal(source: Source, roots: seq<Triple>, n: nat, h: nat)
    requires Roots(source, roots) && n <= |roots| && h <= MAX_HOPS && (h > 0 ==> n < |roots|)
    ensures |Survivors(source, roots, n, h)| == SurvivorsTo(source, roots, n, h, MAX_HOPS)
    decreases n, h
  {
    if h > 0 {
      SurvivorTotal(source, roots, n, h - 1);
      SurvivorsStep(source, roots, n, h, h - 1);
      SurvivorsToStep(source, roots, n, h, MAX_HOPS);
    } else if n > 0 {
      SurvivorTotal(source, roots, n - 1, MAX_HOPS);
      SurvivorsToNextRoot(source, roots, n - 1, MAX_HOPS);
    } else {
      NoneYet(source, roots, MAX_HOPS);
    }
  }

  lemma {:induction false} NoneYet(source: Source, roots: seq<Triple>, k: nat)
    requires Roots(source, roots)
    ensures SurvivorsTo(source, roots, 0, 0, k) == 0
  {
    if k > 0 {
      NoneYet(source, roots, k - 1);
    }
  }

  function PerHop(state: State, uniqueCount: nat): (perHop: seq<CandidateAccounting>)
    requires HasCells(state)
    ensures |perHop| == MAX_HOPS && forall h | 0 <= h < MAX_HOPS ::
      perHop[h] == HopAccounting(state, h + 1, uniqueCount)
  {
    seq(MAX_HOPS, h requires 0 <= h < MAX_HOPS => HopAccounting(state, h + 1, uniqueCount))
  }

  ghost predicate AllCounted(perHop: seq<CandidateAccounting>, uniqueCount: nat) {
    forall h | 0 <= h < |perHop| :: perHop[h].exclusions.Keys == PATH_REASONS && perHop[h].candidates == uniqueCount
  }

  lemma {:induction false} TotalCandidates(perHop: seq<CandidateAccounting>, uniqueCount: nat, k: nat)
    requires k <= |perHop| && AllCounted(perHop, uniqueCount)
    ensures TotalOf(perHop, k).candidates == k * uniqueCount
  {
    if k > 0 {
      TotalCandidates(perHop, uniqueCount, k - 1);
      assert (k - 1) * uniqueCount + uniqueCount == k * uniqueCount;
    }
  }

  lemma {:induction false} TotalOneMore(perHop: seq<CandidateAccounting>, k: nat, before: nat)
    requires 0 < k <= |perHop| && before == k - 1 && forall h | 0 <= h < |perHop| ::
      perHop[h].exclusions.Keys == PATH_REASONS
    ensures TotalOf(perHop, k).surviving == TotalOf(perHop, before).surviving + perHop[before].surviving
  {
  }

  lemma {:induction false} SurvivorsOneMore(source: Source, roots: seq<Triple>, k: nat, before: nat)
    requires Roots(source, roots) && k > 0 && before == k - 1
    ensures SurvivorsTo(source, roots, |roots|, 0, k)
      == SurvivorsTo(source, roots, |roots|, 0, before) + CountAt(source, roots, |roots|, k, Survivor)
  {
  }

  lemma {:induction false} TotalSurvivors(perHop: seq<CandidateAccounting>, source: Source, roots: seq<Triple>,
                                          uniqueCount: nat, k: nat)
    requires Roots(source, roots) && k <= |perHop| && AllCounted(perHop, uniqueCount)
    requires forall h: nat | h < |perHop| :: perHop[h].surviving == CountAt(source, roots, |roots|, h + 1, Survivor)
    ensures TotalOf(perHop, k).surviving == SurvivorsTo(source, roots, |roots|, 0, k)
  {
    if k > 0 {
      var before: nat := k - 1;
      TotalSurvivors(perHop, source, roots, uniqueCount, before);
      TotalOneMore(perHop, k, before);
      SurvivorsOneMore(source, roots, k, before);
      assert perHop[before].surviving == CountAt(source, roots, |roots|, before + 1, Survivor);
    }
  }

  lemma {:induction false} HopsBalance(state: State, source: Source, roots: seq<Triple>, bound: nat,
                                       perHop: seq<CandidateAccounting>)
    requires Roots(source, roots) && HasCells(state) && Tallied(state, source, roots, |roots|, 0, bound)
    requires perHop == PerHop(state, |roots| + bound)
    ensures forall h | 0 <= h < MAX_HOPS :: ValidCandidates(perHop[h])
    ensures ValidCandidates(TotalOf(perHop, MAX_HOPS))
  {
    forall h | 0 <= h < MAX_HOPS
      ensures ValidCandidates(perHop[h])
    {
      HopBalances(state, source, roots, bound, h + 1);
    }
    TotalBalances(perHop, MAX_HOPS);
  }

  lemma {:induction false} TotalsCount(state: State, source: Source, roots: seq<Triple>, bound: nat,
                                       perHop: seq<CandidateAccounting>)
    requires Roots(source, roots) && HasCells(state) && Tallied(state, source, roots, |roots|, 0, bound)
    requires perHop == PerHop(state, |roots| + bound)
    ensures TotalOf(perHop, MAX_HOPS).candidates == MAX_HOPS * (|roots| + bound)
    ensures TotalOf(perHop, MAX_HOPS).surviving == |Survivors(source, roots, |roots|, 0)|
  {
    FinalCounts(state, source, roots, bound, perHop);
    forall h: nat | h < MAX_HOPS
      ensures perHop[h].surviving == CountAt(source, roots, |roots|, h + 1, Survivor)
    {
      assert IsHop(h + 1);
    }
    TotalCandidates(perHop, |roots| + bound, MAX_HOPS);
    TotalSurvivors(perHop, source, roots, |roots| + bound, MAX_HOPS);
    SurvivorTotal(source, roots, |roots|, 0);
  }

  /** The accounting as the constructors check it; None is their failure, or the drift assertion's. */
  method Summarize(state: State, uniqueCount: nat, ghost source: Source, ghost roots: seq<Triple>, ghost bound: nat)
    returns (p: Option<PathAccounting>)
    requires Roots(source, roots) && uniqueCount == |roots| + bound && HasCells(state)
      && Tallied(state, source, roots, |roots|, 0, bound)
    requires state.output.pairCount == 2 * |Survivors(source, roots, |roots|, 0)|
    ensures p.Some? && ValidPaths(p.value)
    ensures p.value.candidates == MAX_HOPS * uniqueCount && p.value.surviving == |Survivors(source, roots, |roots|, 0)|
    ensures p.value.perHop == PerHop(state, uniqueCount)
  {
    var perHop := PerHop(state, uniqueCount);
    HopsBalance(state, source, roots, bound, perHop);
    TotalsCount(state, source, roots, bound, perHop);
    var total := TotalOf(perHop, MAX_HOPS);
    if state.output.pairCount != 2 * total.surviving {
      return None;
    }
    var accounting := PathAccounting(uniqueCount * MAX_HOPS, total.surviving, total.exclusions, perHop);
    p := if ValidPaths(accounting) then Some(accounting) else None;
  }

  method VisitRoots(source: Source, roots: seq<Triple>, names: Names, bound: nat, ghost selected: set<Triple>)
    returns (state: State, ghost log: seq<Emission>)
    requires Finalized(source.tables, selected) && DistinctOrder(source.order) && Roots(source, roots)
    ensures Progress(state, log, source, names, roots, |roots|, 0, bound)
  {
    var indices := Indices(source.order);
    state := Initial(bound);
    log := [];
    StartsTallied(state, source, roots, bound);
    for n: nat := 0 to |roots|
      invariant Progress(state, log, source, names, roots, n, 0, bound)
    {
      var next;
      next, log := VisitRoot(state, source, indices, names, roots, n, bound, selected, log, n + 1);
      state := next.value;
    }
  }

  /** Per hop, the survivors and the exclusions are counted as the roots' outcomes say, and the
      roots beyond the bound as excluded for it. */
  ghost predicate CountsOutcomes(perHop: seq<CandidateAccounting>, source: Source, roots: seq<Triple>, bound: nat)
    requires Roots(source, roots)
  {
    && |perHop| == MAX_HOPS
    && (forall h | IsHop(h) :: perHop[h - 1].surviving == CountAt(source, roots, |roots|, h, Survivor))
    && forall h, reason | IsHop(h) && reason in PATH_REASONS ::
         reason in perHop[h - 1].exclusions && perHop[h - 1].exclusions[reason]
           == ExcludedAt(source, roots, |roots|, h, reason, bound)
  }

  /** The whole of _write_paths. */
  method WritePaths(source: Source, ranked: seq<Triple>, names: Names, ghost selected: set<Triple>)
    returns (p: Option<PathAccounting>, output: Output, ghost log: seq<Emission>, ghost roots: seq<Triple>)
    requires Finalized(source.tables, selected) && DistinctOrder(source.order) && Roots(source, ranked)
    ensures roots == ranked[..Least2(|ranked|, MAX_PATH_ROOTS)] && Roots(source, roots)
    ensures Logged(output, log, Survivors(source, roots, |roots|, 0), source, names)
    ensures p.Some? && ValidPaths(p.value) && p.value.candidates == MAX_HOPS * |ranked| && p.value.surviving == |log|
    ensures CountsOutcomes(p.value.perHop, source, roots, |ranked| - |roots|)
  {
    var uniqueCount := |ranked|;
    var limit := Least2(uniqueCount, MAX_PATH_ROOTS);
    var chosen := ranked[..limit];
    roots := chosen;
    var bound: nat := uniqueCount - limit;
    var state;
    state, log := VisitRoots(source, chosen, names, bound, selected);
    output := state.output;
    p := Summarize(state, uniqueCount, source, roots, bound);
    FinalCounts(state, source, roots, bound, p.value.perHop);
  }

  function Least2(a: nat, b: nat): nat { if a < b then a else b }

  function Initial(bound: nat): State {
    State(map h: nat, reason | 1 <= h <= MAX_HOPS && reason in PATH_REASONS ::
      Cell(h, reason) := if reason == SelectionBound then bound else 0,
          map h: nat | 1 <= h <= MAX_HOPS && IsHop(h) :: 0, Output(0, [], [], map[]))
  }

  lemma StartsTallied(state: State, source: Source, roots: seq<Triple>, bound: nat)
    requires Roots(source, roots) && state == Initial(bound)
    ensures HasCells(state) && Tallied(state, source, roots, 0, 0, bound)
  {
  }

  lemma FinalCounts(state: State, source: Source, roots: seq<Triple>, bound: nat, perHop: seq<CandidateAccounting>)
    requires Roots(source, roots) && HasCells(state) && Tallied(state, source, roots, |roots|, 0, bound)
      && perHop == PerHop(state, |roots| + bound)
    ensures forall h | IsHop(h) :: perHop[h - 1].surviving == CountAt(source, roots, |roots|, h, Survivor)
    ensures forall h, reason | IsHop(h) && reason in PATH_REASONS ::
      reason in perHop[h - 1].exclusions && perHop[h - 1].exclusions[reason]
        == ExcludedAt(source, roots, |roots|, h, reason, bound)
  {
  }
}
