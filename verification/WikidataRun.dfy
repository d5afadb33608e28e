/** The whole build: the loop's accounts and emissions, read off the selected triples, and the
    audit of the published store (wikidata_paths.py, the end of _build_wikidata_paths). */
module WikidataRun {
  import opened Wrappers
  import opened GraphRows
  import opened PathReplay
  import opened WikidataPaths
  import opened WikidataTwins
  import opened WikidataBuild
  import opened WikidataOutcomes

  // ----- the published store and its audit -----

  /** _published_graph_rows, packed: one row for each published address. */
  function PublishedStore(published: map<Key, nat>, provenance: string): map<Address, GraphRow> {
    map a | a in published ::
      Address(a.subject, a.relation, true) := BaseRow(Triple(a.subject, a.relation, published[a]), provenance)
  }

  lemma StoreHolds(output: Output, log: seq<Emission>, paths: seq<seq<Triple>>, source: Source, names: Names, k: nat)
    requires Logged(output, log, paths, source, names) && k < |log|
    ensures Holds(PublishedStore(output.published, Provenance(names)),
      VariantRows(log[k].rows, log[k].alternative, names, false))
  {
    var base := VariantRows(log[k].rows, log[k].alternative, names, false);
    forall i | 0 <= i < |base|
      ensures base[i].Addr() in PublishedStore(output.published, Provenance(names))
        && PublishedStore(output.published, Provenance(names))[base[i].Addr()] == base[i]
    {
      var a := KeyOf(log[k].rows[i]);
      assert a in output.published && output.published[a] == source.tables.unique[a];
    }
  }

  lemma EmissionConfirmed(output: Output, e: Emission, source: Source, names: Names, k: nat, store: map<Address,
                          GraphRow>)
    requires Written(output, e, k, names) && Emittable(e, source)
      && Holds(store, VariantRows(e.rows, e.alternative, names, false))
    ensures Confirms(store, output.originals[2 * k], output.counterfactuals[2 * k], names.factId)
    ensures Confirms(store, output.originals[2 * k + 1], output.counterfactuals[2 * k + 1], names.factId)
  {
    EmittedConfirmed(source, e.rows, e.alternative, e.key, names, store, true);
    EmittedConfirmed(source, e.rows, e.alternative, e.key, names, store, false);
  }

  /** Every emitted pair is confirmed by the store that was published. */
  lemma OutputConfirmed(output: Output, log: seq<Emission>, paths: seq<seq<Triple>>, source: Source, names: Names,
                        i: nat)
    requires Logged(output, log, paths, source, names) && i < |output.originals|
    ensures Confirms(PublishedStore(output.published, Provenance(names)), output.originals[i],
      output.counterfactuals[i], names.factId)
  {
    var k := i / 2;
    assert Written(output, log[k], k, names) && Emittable(log[k], source);
    StoreHolds(output, log, paths, source, names, k);
    EmissionConfirmed(output, log[k], source, names, k, PublishedStore(output.published, Provenance(names)));
    assert i == 2 * k || i == 2 * k + 1;
  }

  /** The rows at the ranked addresses. */
  function RootsAt(tables: Tables, ranked: seq<Key>): (roots: seq<Triple>)
    requires forall i | 0 <= i < |ranked| :: ranked[i] in tables.unique
    ensures |roots| == |ranked|
    ensures forall i | 0 <= i < |ranked| ::
      roots[i] == Triple(ranked[i].subject, ranked[i].relation, tables.unique[ranked[i]])
  {
    seq(|ranked|, i requires 0
      <= i < |ranked| => Triple(ranked[i].subject, ranked[i].relation, tables.unique[ranked[i]]))
  }

  /** What a build leaves: the accounts of every root's outcome at every hop, and one emission per
      survivor, in order, written and published. `ranked` are all the unique addresses. */
  ghost predicate Built(selected: set<Triple>, order: seq<string>, ranked: seq<Key>, names: Names, tables: Tables,
                        p: PathAccounting, output: Output, log: seq<Emission>)
  {
    var source := Source(tables, order);
    && Finalized(tables, selected) && (forall i | 0 <= i < |ranked| :: ranked[i] in tables.unique)
    && var roots := RootsAt(tables, ranked)[..Least2(|ranked|, MAX_PATH_ROOTS)];
    && Roots(source, roots) && ValidPaths(p) && CountsOutcomes(p.perHop, source, roots, |ranked| - |roots|)
    && p.candidates == MAX_HOPS * |ranked| && p.surviving == |log|
    && Logged(output, log, Survivors(source, roots, |roots|, 0), source, names)
  }

  /** Finalizes the tables and writes the paths. */
  method BuildPaths(selected: set<Triple>, order: seq<string>, ranked: seq<Key>, names: Names)
    returns (p: Option<PathAccounting>, output: Output, tables: Tables, ghost log: seq<Emission>)
    requires DistinctOrder(order) && forall t | t in selected :: t.relation in order
    requires forall i, j {:trigger ranked[i], ranked[j]} | 0 <= i < j < |ranked| :: ranked[i] != ranked[j]
    requires forall a :: a in ranked <==> |ObjectsAt(selected, a)| == 1
    ensures p.Some? && Built(selected, order, ranked, names, tables, p.value, output, log)
  {
    tables := FinalizeAddresses(selected);
    var source := Source(tables, order);
    RankedRoots(selected, tables, order, ranked);
    ghost var chosen;
    p, output, log, chosen := WritePaths(source, RootsAt(tables, ranked), names, selected);
  }

  /** Builds, accounts and audits: on every set of source triples nothing fails, the accounts are
      those of the outcomes, every survivor is emitted in order, exactly the emitted rows are
      published, each the only object of its address, and the audit counts four items a
      surviving path. */
  method BuildWikidataPaths(selected: set<Triple>, order: seq<string>, ranked: seq<Key>, names: Names)
    returns (p: Option<PathAccounting>, output: Output, audited: Option<nat>, ghost tables: Tables,
      ghost log: seq<Emission>)
    requires DistinctOrder(order) && forall t | t in selected :: t.relation in order
    requires forall i, j {:trigger ranked[i], ranked[j]} | 0 <= i < j < |ranked| :: ranked[i] != ranked[j]
    requires forall a :: a in ranked <==> |ObjectsAt(selected, a)| == 1
    ensures p.Some? && Built(selected, order, ranked, names, tables, p.value, output, log)
    ensures HopsReported(selected, order, ranked, p.value.perHop)
    ensures |log| == p.value.surviving && LogReported(selected, order, ranked, log)
    ensures forall k | 0 <= k < |log| :: Asked(output, log[k], k, names)
    ensures audited == Some(4 * p.value.surviving)
    ensures forall a :: a in output.published <==> EmittedAt(log, a)
    ensures forall a | a in output.published :: ObjectsAt(selected, a) == {output.published[a]}
  {
    p, output, tables, log := BuildPaths(selected, order, ranked, names);
    BuiltHopsReported(selected, order, ranked, names, tables, p.value, output, log);
    BuiltLogReported(selected, order, ranked, names, tables, p.value, output, log);
    AllAsked(selected, order, ranked, names, tables, p.value, output, log);
    audited := AuditPublished(output, names, selected, order, ranked, tables, p.value, log);
  }

  /** Publishes the store and audits every emitted pair against it. */
  method AuditPublished(output: Output, names: Names, ghost selected: set<Triple>, ghost order: seq<string>,
                        ghost ranked: seq<Key>,
                        ghost tables: Tables, ghost p: PathAccounting, ghost log: seq<Emission>)
                          returns (audited: Option<nat>)
    requires Built(selected, order, ranked, names, tables, p, output, log)
    ensures audited == Some(4 * p.surviving)
    ensures forall a :: a in output.published <==> EmittedAt(log, a)
    ensures forall a | a in output.published :: ObjectsAt(selected, a) == {output.published[a]}
  {
    BuiltIsConfirmed(selected, order, ranked, names, tables, p, output, log);
    audited := AuditMaterialized(PublishedStore(output.published, Provenance(names)), output.originals,
      output.counterfactuals, names.factId);
  }

  lemma {:induction false} BuiltIsConfirmed(selected: set<Triple>, order: seq<string>, ranked: seq<Key>, names: Names,
                                            tables: Tables,
                                            p: PathAccounting, output: Output, log: seq<Emission>)
    requires Built(selected, order, ranked, names, tables, p, output, log)
    ensures |output.originals| == |output.counterfactuals| == 2 * p.surviving
    ensures forall i | 0 <= i < |output.originals| ::
      Confirms(PublishedStore(output.published, Provenance(names)), output.originals[i], output.counterfactuals[i],
        names.factId)
    ensures forall a :: a in output.published <==> EmittedAt(log, a)
    ensures forall a | a in output.published :: ObjectsAt(selected, a) == {output.published[a]}
  {
    var source := Source(tables, order);
    var roots := RootsAt(tables, ranked)[..Least2(|ranked|, MAX_PATH_ROOTS)];
    forall i | 0 <= i < |output.originals|
      ensures Confirms(PublishedStore(output.published, Provenance(names)), output.originals[i],
        output.counterfactuals[i], names.factId)
    {
      OutputConfirmed(output, log, Survivors(source, roots, |roots|, 0), source, names, i);
    }
    PublishedSole(selected, tables, output.published);
  }

  /** When the digest has no collisions, no two emissions share a key. */
  lemma {:induction false} EmittedKeysDiffer(selected: set<Triple>, order: seq<string>, ranked: seq<Key>, names: Names,
                                             tables: Tables, p: PathAccounting, output: Output, log: seq<Emission>)
    requires Built(selected, order, ranked, names, tables, p, output, log) && DistinctOrder(order)
    requires forall i, j {:trigger ranked[i], ranked[j]} | 0 <= i < j < |ranked| :: ranked[i] != ranked[j]
    requires forall r, s, g: nat, h: nat {:trigger names.keyOf(r, g), names.keyOf(s, h)} ::
      names.keyOf(r, g) == names.keyOf(s, h) ==> r == s && g == h
    ensures forall k, l {:trigger log[k], log[l]} | 0 <= k < l < |log| :: log[k].key != log[l].key
  {
    var source := Source(tables, order);
    var roots := RootsAt(tables, ranked)[..Least2(|ranked|, MAX_PATH_ROOTS)];
    forall i, j | 0 <= i < j < |roots|
      ensures roots[i] != roots[j]
    {
      assert KeyOf(roots[i]) == ranked[i] && KeyOf(roots[j]) == ranked[j];
    }
    SurvivorsDiffer(source, selected, roots, |roots|, 0);
    LoggedKeysDiffer(output, log, Survivors(source, roots, |roots|, 0), roots, source, names);
  }

  lemma {:induction false} LoggedKeysDiffer(output: Output, log: seq<Emission>, paths: seq<seq<Triple>>,
                                            roots: seq<Triple>, source: Source, names: Names)
    requires Logged(output, log, paths, source, names) && Apart(paths, roots, |roots|, 0)
    requires forall r, s, g: nat, h: nat {:trigger names.keyOf(r, g), names.keyOf(s, h)} ::
      names.keyOf(r, g) == names.keyOf(s, h) ==> r == s && g == h
    ensures forall k, l {:trigger log[k], log[l]} | 0 <= k < l < |log| :: log[k].key != log[l].key
  {
    forall k, l | 0 <= k < l < |log|
      ensures log[k].key != log[l].key
    {
      assert Written(output, log[k], k, names) && Written(output, log[l], l, names);
      assert log[k].rows == paths[k] && log[l].rows == paths[l];
    }
  }

  lemma RankedRoots(selected: set<Triple>, tables: Tables, order: seq<string>, ranked: seq<Key>)
    requires Finalized(tables, selected) && forall t | t in selected :: t.relation in order
    requires forall a :: a in ranked <==> |ObjectsAt(selected, a)| == 1
    ensures forall i | 0 <= i < |ranked| :: ranked[i] in tables.unique && ranked[i].relation in order
  {
    forall i | 0 <= i < |ranked|
      ensures ranked[i] in tables.unique && ranked[i].relation in order
    {
      assert ranked[i] in ranked;
      assert |ObjectsAt(selected, ranked[i])| == 1;
      assert ObjectsAt(selected, ranked[i]) != {};
      SelectedAddress(selected, ranked[i]);
    }
  }

  lemma PublishedSole(selected: set<Triple>, tables: Tables, published: map<Key, nat>)
    requires Finalized(tables, selected)
    requires forall a | a in published :: a in tables.unique && published[a] == tables.unique[a]
    ensures forall a | a in published :: ObjectsAt(selected, a) == {published[a]}
  {
    forall a | a in published
      ensures ObjectsAt(selected, a) == {published[a]}
    {
      SoleElement(tables.stats[a], Sole(tables.stats[a]), tables.unique[a]);
    }
  }

  // ----- the build, read off the triples -----

  /** The root at this address has this outcome at hop h. */
  ghost predicate RootEnds(selected: set<Triple>, order: seq<string>, a: Key, h: nat, outcome: Outcome) {
    exists o: nat :: Only(selected, Triple(a.subject, a.relation, o))
      && Ends(selected, order, Triple(a.subject, a.relation, o), h, outcome)
  }

  /** The roots, by their places among the first n, that have this outcome at hop h. */
  ghost function Ended(selected: set<Triple>, order: seq<string>, ranked: seq<Key>, n: nat, h: nat,
                       outcome: Outcome): set<nat>
    requires n <= |ranked|
  {
    set i: nat | i < n && RootEnds(selected, order, ranked[i], h, outcome)
  }

  /** The accounts of one hop: how many of the first ten thousand roots survive it or fail it for
      each reason, and how many roots are beyond them. */
  ghost predicate HopReported(c: CandidateAccounting, selected: set<Triple>, order: seq<string>, ranked: seq<Key>,
                              h: nat) {
    var n := if |ranked| < 10_000 then |ranked| else 10_000;
    && c.candidates == |ranked| && c.surviving == |Ended(selected, order, ranked, n, h, Survivor)|
    && c.exclusions.Keys == {AmbiguousAddress, MissingHop, RepeatedAddress, NoAlternative, SelectionBound}
    && c.exclusions[SelectionBound] == |ranked| - n
    && forall reason | reason in c.exclusions && reason != SelectionBound ::
         c.exclusions[reason] == |Ended(selected, order, ranked, n, h, Excluded(reason))|
  }

  /** What is emitted for a path: its own end and the next one its last relation reaches. */
  ghost predicate EmissionReported(e: Emission, selected: set<Triple>, order: seq<string>, ranked: seq<Key>) {
    && SolePath(selected, order, e.rows) && |e.rows| <= 6
    && (exists i :: 0 <= i < |ranked| && i < 10_000 && KeyOf(e.rows[0]) == ranked[i])
    && NextReached(selected, e.rows[|e.rows| - 1], e.alternative)
  }

  lemma {:induction false} RootEnded(source: Source, selected: set<Triple>, root: Triple, a: Key, h: nat,
                                     outcome: Outcome)
    requires Finalized(source.tables, selected) && IsRoot(source, root) && DistinctOrder(source.order)
    requires root == Triple(a.subject, a.relation, root.obj) && h >= 1
    ensures OutcomeAt(source, root, h) == outcome <==> RootEnds(selected, source.order, a, h, outcome)
  {
    UniqueIsOnly(source.tables, selected, root);
    OutcomeEnds(source, selected, root, h);
    if RootEnds(selected, source.order, a, h, outcome) {
      var o: nat :| Only(selected, Triple(a.subject, a.relation, o))
        && Ends(selected, source.order, Triple(a.subject, a.relation, o), h, outcome);
      assert Triple(a.subject, a.relation, o) == root;
      OneOutcome(selected, source.order, root, h, outcome, OutcomeAt(source, root, h));
    }
  }

  lemma {:induction false} EndedStep(selected: set<Triple>, order: seq<string>, ranked: seq<Key>, n: nat, next: nat,
                                     h: nat, outcome: Outcome)
    requires n < |ranked| && next == n + 1
    ensures |Ended(selected, order, ranked, next, h, outcome)|
         == |Ended(selected, order, ranked, n, h, outcome)|
            + if RootEnds(selected, order, ranked[n], h, outcome) then 1 else 0
  {
    if RootEnds(selected, order, ranked[n], h, outcome) {
      EndedMore(selected, order, ranked, n, next, h, outcome);
    } else {
      EndedSame(selected, order, ranked, n, next, h, outcome);
    }
  }

  lemma {:induction false} EndedMore(selected: set<Triple>, order: seq<string>, ranked: seq<Key>, n: nat, next: nat,
                                     h: nat, outcome: Outcome)
    requires n < |ranked| && next == n + 1 && RootEnds(selected, order, ranked[n], h, outcome)
    ensures |Ended(selected, order, ranked, next, h, outcome)| == |Ended(selected, order, ranked, n, h, outcome)| + 1
  {
    var before, after := Ended(selected, order, ranked, n, h, outcome),
      Ended(selected, order, ranked, next, h, outcome);
    forall i: nat
      ensures i in after <==> i in before || i == n
    {
    }
    OneMore(before, after, n);
  }

  lemma {:induction false} OneMore(before: set<nat>, after: set<nat>, n: nat)
    requires n !in before && forall i :: i in after <==> i in before || i == n
    ensures |after| == |before| + 1
  {
    assert after == before + {n};
  }

  lemma {:induction false} EndedSame(selected: set<Triple>, order: seq<string>, ranked: seq<Key>, n: nat, next: nat,
                                     h: nat, outcome: Outcome)
    requires n < |ranked| && next == n + 1 && !RootEnds(selected, order, ranked[n], h, outcome)
    ensures Ended(selected, order, ranked, next, h, outcome) == Ended(selected, order, ranked, n, h, outcome)
  {
  }

  /** The roots are the rows at the ranked addresses. */
  ghost predicate RootsOf(roots: seq<Triple>, ranked: seq<Key>) {
    |roots| <= |ranked| && forall i | 0 <= i < |roots| :: KeyOf(roots[i]) == ranked[i]
  }

  /** The loop counts a root exactly when the triples give it the outcome. */
  ghost predicate CountsRoots(source: Source, selected: set<Triple>, ranked: seq<Key>, roots: seq<Triple>, h: nat,
                              outcome: Outcome)
    requires Roots(source, roots) && h >= 1 && |roots| <= |ranked|
  {
    forall i | 0 <= i < |roots| ::
      OutcomeAt(source, roots[i], h) == outcome <==> RootEnds(selected, source.order, ranked[i], h, outcome)
  }

  lemma {:induction false} CountIsEnded(source: Source, selected: set<Triple>, ranked: seq<Key>, roots: seq<Triple>,
                                        n: nat, h: nat, outcome: Outcome)
    requires Roots(source, roots) && h >= 1 && n <= |roots| <= |ranked|
    requires CountsRoots(source, selected, ranked, roots, h, outcome)
    ensures CountAt(source, roots, n, h, outcome) == |Ended(selected, source.order, ranked, n, h, outcome)|
  {
    if n == 0 {
      assert Ended(selected, source.order, ranked, 0, h, outcome) == {};
    } else {
      CountIsEnded(source, selected, ranked, roots, n - 1, h, outcome);
      EndedStep(selected, source.order, ranked, n - 1, n, h, outcome);
      assert OutcomeAt(source, roots[n - 1], h) == outcome
        <==> RootEnds(selected, source.order, ranked[n - 1], h, outcome);
    }
  }

  lemma {:induction false} AllCounted(source: Source, selected: set<Triple>, ranked: seq<Key>, roots: seq<Triple>,
                                      h: nat, outcome: Outcome)
    requires Finalized(source.tables, selected) && DistinctOrder(source.order) && Roots(source, roots) && h >= 1
    requires RootsOf(roots, ranked)
    ensures CountAt(source, roots, |roots|, h, outcome)
         == |Ended(selected, source.order, ranked, |roots|, h, outcome)|
  {
    forall i | 0 <= i < |roots|
      ensures OutcomeAt(source, roots[i], h) == outcome <==> RootEnds(selected, source.order, ranked[i], h, outcome)
    {
      CountedOrNot(source, selected, ranked, roots, i, h, outcome);
    }
    CountIsEnded(source, selected, ranked, roots, |roots|, h, outcome);
  }

  lemma {:induction false} CountedOrNot(source: Source, selected: set<Triple>, ranked: seq<Key>, roots: seq<Triple>,
                                        i: nat, h: nat, outcome: Outcome)
    requires Finalized(source.tables, selected) && DistinctOrder(source.order) && Roots(source, roots) && h >= 1
    requires i < |roots| && RootsOf(roots, ranked)
    ensures OutcomeAt(source, roots[i], h) == outcome <==> RootEnds(selected, source.order, ranked[i], h, outcome)
  {
    assert KeyOf(roots[i]) == ranked[i];
    RootEnded(source, selected, roots[i], ranked[i], h, outcome);
  }

  /** The counts of one hop are the numbers of the roots so ended. */
  ghost predicate CountsEnded(source: Source, selected: set<Triple>, ranked: seq<Key>, roots: seq<Triple>, h: nat)
    requires Roots(source, roots) && h >= 1 && |roots| <= |ranked|
  {
    forall outcome ::
      CountAt(source, roots, |roots|, h, outcome) == |Ended(selected, source.order, ranked, |roots|, h, outcome)|
  }

  lemma {:induction false} HopIsReported(source: Source, selected: set<Triple>, ranked: seq<Key>, roots: seq<Triple>,
                                         perHop: seq<CandidateAccounting>, h: nat)
    requires Roots(source, roots) && IsHop(h) && |roots| == Least2(|ranked|, MAX_PATH_ROOTS)
    requires CountsEnded(source, selected, ranked, roots, h)
    requires CountsOutcomes(perHop, source, roots, |ranked| - |roots|) && ValidCandidates(perHop[h - 1])
    ensures HopReported(perHop[h - 1], selected, source.order, ranked, h)
  {
    CandidatesReported(source, roots, perHop[h - 1], h, |ranked| - |roots|);
    ReasonsReported(source, selected, ranked, roots, perHop[h - 1].exclusions, h, |ranked| - |roots|);
    assert perHop[h - 1].surviving == CountAt(source, roots, |roots|, h, Survivor);
  }

  lemma {:induction false} CandidatesReported(source: Source, roots: seq<Triple>, c: CandidateAccounting, h: nat,
                                              bound: nat)
    requires Roots(source, roots) && h >= 1 && ValidCandidates(c)
    requires c.surviving == CountAt(source, roots, |roots|, h, Survivor)
    requires forall reason | reason in PATH_REASONS ::
      c.exclusions[reason] == ExcludedAt(source, roots, |roots|, h, reason, bound)
    ensures c.candidates == |roots| + bound && c.exclusions[SelectionBound] == bound
  {
    CountsCover(source, roots, |roots|, h);
  }

  lemma {:induction false} ReasonsReported(source: Source, selected: set<Triple>, ranked: seq<Key>, roots: seq<Triple>,
                                           exclusions: map<Reason, nat>, h: nat, bound: nat)
    requires Roots(source, roots) && h >= 1 && |roots| <= |ranked|
    requires CountsEnded(source, selected, ranked, roots, h) && exclusions.Keys == PATH_REASONS
    requires forall reason | reason in PATH_REASONS ::
      exclusions[reason] == ExcludedAt(source, roots, |roots|, h, reason, bound)
    ensures exclusions[SelectionBound] == CountAt(source, roots, |roots|, h, Excluded(SelectionBound)) + bound
    ensures forall reason | reason in PATH_REASONS && reason != SelectionBound ::
      exclusions[reason] == CountAt(source, roots, |roots|, h, Excluded(reason))
        == |Ended(selected, source.order, ranked, |roots|, h, Excluded(reason))|
  {
  }

  lemma {:induction false} OutcomesCounted(source: Source, selected: set<Triple>, ranked: seq<Key>, roots: seq<Triple>,
                                           h: nat)
    requires Finalized(source.tables, selected) && DistinctOrder(source.order) && Roots(source, roots) && h >= 1
    requires RootsOf(roots, ranked)
    ensures CountsEnded(source, selected, ranked, roots, h)
  {
    forall outcome
      ensures CountAt(source, roots, |roots|, h, outcome)
           == |Ended(selected, source.order, ranked, |roots|, h, outcome)|
    {
      AllCounted(source, selected, ranked, roots, h, outcome);
    }
  }

  lemma {:induction false} HopsAreReported(source: Source, selected: set<Triple>, ranked: seq<Key>, roots: seq<Triple>,
                                           perHop: seq<CandidateAccounting>)
    requires Finalized(source.tables, selected) && DistinctOrder(source.order) && Roots(source, roots)
    requires RootsOf(roots, ranked) && |roots| == Least2(|ranked|, MAX_PATH_ROOTS)
    requires CountsOutcomes(perHop, source, roots, |ranked| - |roots|)
    requires forall h | 0 <= h < |perHop| :: ValidCandidates(perHop[h])
    ensures HopsReported(selected, source.order, ranked, perHop)
  {
    forall h | 0 <= h < 6
      ensures HopReported(perHop[h], selected, source.order, ranked, h + 1)
    {
      var hop: nat := h + 1;
      OutcomesCounted(source, selected, ranked, roots, hop);
      HopIsReported(source, selected, ranked, roots, perHop, hop);
    }
  }

  // ----- emissions, read off the triples -----

  lemma {:induction false} ShapeIsSole(source: Source, selected: set<Triple>, rows: seq<Triple>)
    requires Finalized(source.tables, selected) && PathShape(source, rows)
    ensures SolePath(selected, source.order, rows)
  {
    forall i | 0 <= i < |rows|
      ensures Only(selected, rows[i])
    {
      UniqueIsOnly(source.tables, selected, rows[i]);
    }
    forall i | 0 < i < |rows|
      ensures GoesOn(source.order, rows[i - 1].relation, rows[i].relation)
    {
      RelationGoesOn(source.order, rows[0].relation, i, i + 1);
    }
    forall i, j | 0 <= i < j < |rows|
      ensures !SameAddress(rows[i], rows[j])
    {
      assert KeyOf(rows[i]) != KeyOf(rows[j]);
    }
  }

  lemma {:induction false} EmittableIsReported(source: Source, selected: set<Triple>, ranked: seq<Key>,
                                               roots: seq<Triple>, e: Emission)
    requires Finalized(source.tables, selected) && Emittable(e, source) && RootsOf(roots, ranked)
    requires |roots| <= 10_000 && FromBefore(e.rows, roots, |roots|, 0)
    ensures EmissionReported(e, selected, source.order, ranked)
  {
    ShapeIsSole(source, selected, e.rows);
    RangeOfLast(source.tables, selected, e.rows[|e.rows| - 1]);
    var r: nat :| r < |roots| && e.rows[0] == roots[r];
    assert KeyOf(e.rows[0]) == ranked[r];
  }

  /** Paths of different roots or of different lengths. */
  ghost predicate Distinct(a: seq<Triple>, b: seq<Triple>) {
    a != [] && b != [] && (a[0] != b[0] || |a| != |b|)
  }

  /** The accounts of all six hops, read off the selected triples ... */
  ghost predicate HopsReported(selected: set<Triple>, order: seq<string>, ranked: seq<Key>,
                               perHop: seq<CandidateAccounting>) {
    |perHop| == 6 && forall h | 0 <= h < 6 :: HopReported(perHop[h], selected, order, ranked, h + 1)
  }

  /** ... and every emitted path with its two ends, no two of one root and length. */
  ghost predicate LogReported(selected: set<Triple>, order: seq<string>, ranked: seq<Key>, log: seq<Emission>) {
    && (forall k | 0 <= k < |log| :: EmissionReported(log[k], selected, order, ranked))
    && forall k, l {:trigger log[k], log[l]} | 0 <= k < l < |log| :: Distinct(log[k].rows, log[l].rows)
  }

  lemma {:induction false} EmissionsReported(selected: set<Triple>, source: Source, ranked: seq<Key>,
                                             roots: seq<Triple>, paths: seq<seq<Triple>>, log: seq<Emission>)
    requires Finalized(source.tables, selected) && RootsOf(roots, ranked) && |roots| <= 10_000
    requires |log| == |paths| && forall k | 0 <= k < |log| :: log[k].rows == paths[k] && Emittable(log[k], source)
    requires Apart(paths, roots, |roots|, 0)
    ensures LogReported(selected, source.order, ranked, log)
  {
    forall k | 0 <= k < |log|
      ensures EmissionReported(log[k], selected, source.order, ranked)
    {
      assert FromBefore(paths[k], roots, |roots|, 0);
      EmittableIsReported(source, selected, ranked, roots, log[k]);
    }
    forall k, l | 0 <= k < l < |log|
      ensures Distinct(log[k].rows, log[l].rows)
    {
      assert paths[k][0] != paths[l][0] || |paths[k]| != |paths[l]|;
    }
  }

  lemma {:induction false} BuiltHopsReported(selected: set<Triple>, order: seq<string>, ranked: seq<Key>, names: Names,
                                             tables: Tables, p: PathAccounting, output: Output, log: seq<Emission>)
    requires Built(selected, order, ranked, names, tables, p, output, log) && DistinctOrder(order)
    ensures HopsReported(selected, order, ranked, p.perHop)
  {
    var source := Source(tables, order);
    var roots := RootsAt(tables, ranked)[..Least2(|ranked|, MAX_PATH_ROOTS)];
    FirstRoots(tables, ranked, roots);
    HopsAreReported(source, selected, ranked, roots, p.perHop);
  }

  lemma {:induction false} BuiltLogReported(selected: set<Triple>, order: seq<string>, ranked: seq<Key>, names: Names,
                                            tables: Tables, p: PathAccounting, output: Output, log: seq<Emission>)
    requires Built(selected, order, ranked, names, tables, p, output, log) && DistinctOrder(order)
    requires forall i, j {:trigger ranked[i], ranked[j]} | 0 <= i < j < |ranked| :: ranked[i] != ranked[j]
    ensures LogReported(selected, order, ranked, log)
  {
    var source := Source(tables, order);
    var roots := RootsAt(tables, ranked)[..Least2(|ranked|, MAX_PATH_ROOTS)];
    FirstRoots(tables, ranked, roots);
    SurvivorsReported(selected, source, ranked, roots, log);
  }

  lemma {:induction false} FirstRoots(tables: Tables, ranked: seq<Key>, roots: seq<Triple>)
    requires forall i | 0 <= i < |ranked| :: ranked[i] in tables.unique
    requires roots == RootsAt(tables, ranked)[..Least2(|ranked|, MAX_PATH_ROOTS)]
    ensures RootsOf(roots, ranked)
  {
  }

  lemma {:induction false} SurvivorsReported(selected: set<Triple>, source: Source, ranked: seq<Key>,
                                             roots: seq<Triple>, log: seq<Emission>)
    requires Finalized(source.tables, selected) && DistinctOrder(source.order) && Roots(source, roots)
    requires RootsOf(roots, ranked) && |roots| <= 10_000
    requires forall i, j {:trigger ranked[i], ranked[j]} | 0 <= i < j < |ranked| :: ranked[i] != ranked[j]
    requires |log| == |Survivors(source, roots, |roots|, 0)|
    requires forall k | 0 <= k < |log| ::
      log[k].rows == Survivors(source, roots, |roots|, 0)[k] && Emittable(log[k], source)
    ensures LogReported(selected, source.order, ranked, log)
  {
    DistinctRoots(roots, ranked);
    SurvivorsDiffer(source, selected, roots, |roots|, 0);
    EmissionsReported(selected, source, ranked, roots, Survivors(source, roots, |roots|, 0), log);
  }

  lemma {:induction false} DistinctRoots(roots: seq<Triple>, ranked: seq<Key>)
    requires RootsOf(roots, ranked)
    requires forall i, j {:trigger ranked[i], ranked[j]} | 0 <= i < j < |ranked| :: ranked[i] != ranked[j]
    ensures forall i, j {:trigger roots[i], roots[j]} | 0 <= i < j < |roots| :: roots[i] != roots[j]
  {
    forall i, j | 0 <= i < j < |roots|
      ensures roots[i] != roots[j]
    {
      assert KeyOf(roots[i]) == ranked[i] && KeyOf(roots[j]) == ranked[j];
    }
  }

  // ----- the questions -----

  /** The four items of a path: where it ends and where its counterfactual does, and whether that is
      the end that the key's parity picked. */
  ghost predicate Asked(output: Output, e: Emission, k: nat, names: Names) {
    && e.rows != [] && 2 * k + 1 < |output.originals| && 2 * k + 1 < |output.counterfactuals|
    && var end, compared := e.rows[|e.rows| - 1].obj, if names.even(e.key) then e.rows[|e.rows| - 1].obj
         else e.alternative;
    && var question := names.phrase(e.rows, e.key) + "Return the exact endpoint Q ID.";
    && var equality :=
         names.phrase(e.rows, e.key) + "Does the endpoint equal " + ("Q" + Print(compared)) + "? Answer yes or no.";
    && output.originals[2 * k].prompt == output.counterfactuals[2 * k].prompt == question
    && output.originals[2 * k].answer == "Q" + Print(end)
    && output.counterfactuals[2 * k].answer == "Q" + Print(e.alternative)
    && output.originals[2 * k + 1].prompt == output.counterfactuals[2 * k + 1].prompt == equality
    && output.originals[2 * k + 1].answer == (if compared == end then "yes" else "no")
    && output.counterfactuals[2 * k + 1].answer == (if compared == end then "no" else "yes")
  }

  lemma {:induction false} WrittenIsAsked(output: Output, e: Emission, k: nat, names: Names)
    requires Written(output, e, k, names) && e.alternative != e.rows[|e.rows| - 1].obj
    ensures Asked(output, e, k, names)
  {
  }

  lemma {:induction false} AllAsked(selected: set<Triple>, order: seq<string>, ranked: seq<Key>, names: Names,
                                    tables: Tables, p: PathAccounting, output: Output, log: seq<Emission>)
    requires Built(selected, order, ranked, names, tables, p, output, log)
    ensures forall k | 0 <= k < |log| :: Asked(output, log[k], k, names)
  {
    forall k | 0 <= k < |log|
      ensures Asked(output, log[k], k, names)
    {
      assert Emittable(log[k], Source(tables, order));
      WrittenIsAsked(output, log[k], k, names);
    }
  }
}
