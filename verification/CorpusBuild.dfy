/** The whole build: replay the frozen plan through the writer, with the expected payload
    counts and the record schedule taken from that same plan, and publish what verifies
    (relational_build.py, from plan.seal to writer.finalize; payload_inventory.py,
    bind_expected_occurrences). */
module CorpusBuild {
  import opened Wrappers
  import opened Tokens
  import opened OccurrenceTable
  import opened PlanTable
  import opened SchedulePlan
  import opened SidecarAudit
  import S = Spans
  import L = OccurrenceLedger
  import W = CorpusWriting
  import PatternScan

  // ----- binding the expected counts -----

  function EntryIdentity(e: Entry): Identity {
    Identity(e.factId, e.field, e.text, e.tokenIds)
  }

  function Rebound(e: Entry, counts: map<Identity, nat>): Entry {
    e.(expected := Some(if e.train then GetCount(counts, EntryIdentity(e)) else 0))
  }

  predicate KnownIdentity(entries: seq<Entry>, id: Identity) {
    exists e :: e in entries && e.train && EntryIdentity(e) == id
  }

  /** Every counted identity must be a train entry; then each train entry expects its count. */
  function BindExpectedOccurrences(entries: seq<Entry>, counts: map<Identity, nat>): (bound: Option<seq<Entry>>)
    ensures bound.Some? <==> forall id | id in counts :: KnownIdentity(entries, id)
    ensures bound.Some? ==> BoundTo(entries, counts, bound.value)
    ensures bound.Some? ==>
      forall i, e | 0 <= i < |entries| && e == entries[i] ::
        bound.value[i].expected
        == Some(if e.train then GetCount(counts, Identity(e.factId, e.field, e.text, e.tokenIds)) else 0)
  {
    if exists id | id in counts :: !KnownIdentity(entries, id) then None
    else Some(seq(|entries|, i requires 0 <= i < |entries| => Rebound(entries[i], counts)))
  }

  /** Binding changes only the expected counts. */
  ghost predicate BoundTo(entries: seq<Entry>, counts: map<Identity, nat>, bound: seq<Entry>) {
    |bound| == |entries| && forall i | 0 <= i < |entries| :: bound[i] == Rebound(entries[i], counts)
  }

  lemma {:induction false} BoundTells(entries: seq<Entry>, counts: map<Identity, nat>, bound: seq<Entry>, train: bool,
                                      p: seq<Token>, f: string)
    requires BoundTo(entries, counts, bound)
    ensures Tells(bound, train, p) <==> Tells(entries, train, p)
    ensures TellsFact(bound, p, f) <==> TellsFact(entries, p, f)
  {
    forall i | 0 <= i < |entries|
      ensures bound[i] in bound && entries[i] in entries && bound[i] == Rebound(entries[i], counts)
    {
    }
  }

  lemma {:induction false} BoundKeepsPatterns(entries: seq<Entry>, counts: map<Identity, nat>, bound: seq<Entry>)
    requires BoundTo(entries, counts, bound)
    ensures InventoryFacts(bound) == InventoryFacts(entries) && ProtectedPatterns(bound) == ProtectedPatterns(entries)
  {
    forall p: seq<Token>, f, train
      ensures Tells(bound, train, p) <==> Tells(entries, train, p)
      ensures TellsFact(bound, p, f) <==> TellsFact(entries, p, f)
    {
      BoundTells(entries, counts, bound, train, p, f);
    }
    forall p: seq<Token> | p in InventoryFacts(bound)
      ensures InventoryFacts(bound)[p] == InventoryFacts(entries)[p]
    {
    }
  }

  // ----- the frozen counts are met -----

  /** The rows that satisfy P. */
  ghost function Where(rows: seq<SpanRow>, P: SpanRow -> bool): (ids: set<nat>)
    ensures forall i: nat :: i in ids <==> i < |rows| && P(rows[i])
  {
    set i: nat | i < |rows| && P(rows[i])
  }

  lemma {:induction false} WhereGrows(rows: seq<SpanRow>, sorted: seq<S.Span>, more: seq<SpanRow>, n: nat,
                                      P: SpanRow -> bool, f: S.Span -> nat)
    requires n <= |more| == |sorted| && forall i | 0 <= i < |more| :: f(sorted[i]) == if P(more[i]) then 1 else 0
    ensures |Where(rows + more[..n], P)| == |Where(rows, P)| + S.Tally(sorted, n, f)
  {
    if n == 0 {
      assert rows + more[..0] == rows;
    } else {
      WhereGrows(rows, sorted, more, n - 1, P, f);
      var before, after := rows + more[..n - 1], rows + more[..n];
      assert after == before + [more[n - 1]];
      if P(more[n - 1]) {
        assert Where(after, P) == Where(before, P) + {|before|};
      } else {
        assert Where(after, P) == Where(before, P);
      }
    }
  }

  ghost function HasIdentity(id: Identity): SpanRow -> bool {
    (row: SpanRow) => row.role.Payload? && row.tokenBytes == id.tokenIds && FactOf(row) == id.factId
                      && row.field == Some(id.field) && row.text == Some(id.text)
  }

  ghost predicate CountableRecord(r: PlannedRecord) {
    forall j | 0 <= j < |r.spans| && r.spans[j].role.Payload? :: Countable(r.spans[j], |r.tokenIds|)
  }

  lemma {:induction false} SortedCountable(r: PlannedRecord, i: nat)
    requires CountableRecord(r) && i < |S.SortSpans(r.spans)| && S.SortSpans(r.spans)[i].role.Payload?
    ensures Countable(S.SortSpans(r.spans)[i], |r.tokenIds|)
  {
    S.SortPermutes(r.spans);
    assert S.SortSpans(r.spans)[i] in multiset(r.spans);
    var j :| 0 <= j < |r.spans| && r.spans[j] == S.SortSpans(r.spans)[i];
  }

  lemma {:induction false} RecordIdentities(r: PlannedRecord, index: int, start: int, external: int -> bool,
                                            id: Identity, i: nat)
    requires CountableRecord(r) && S.AllInDocument(S.SortSpans(r.spans), |r.tokenIds|) && i < |S.SortSpans(r.spans)|
    ensures Occurrence(id, r.tokenIds)(S.SortSpans(r.spans)[i])
      == if HasIdentity(id)(L.RowOf(S.SortSpans(r.spans)[i], index, r.component, start, r.tokenIds, external)) then 1
        else 0
  {
    if S.SortSpans(r.spans)[i].role.Payload? {
      SortedCountable(r, i);
    }
  }

  lemma {:induction false} TableIdentities(records: seq<PlannedRecord>, n: nat, external: int -> bool, id: Identity)
    requires Sortable(records, n) && forall i | 0 <= i < n :: CountableRecord(records[i])
    ensures |Where(TableOf(records, n, external), HasIdentity(id))| == Occurrences(records, n, id)
  {
    if n == 0 {
      assert Where([], HasIdentity(id)) == {};
    } else {
      TableIdentities(records, n - 1, external, id);
      var r := records[n - 1];
      var sorted, before := S.SortSpans(r.spans), TableOf(records, n - 1, external);
      var more := L.RowsOf(sorted, n - 1, r.component, StartOf(records, n - 1), r.tokenIds, external);
      forall i | 0 <= i < |more|
        ensures Occurrence(id, r.tokenIds)(sorted[i]) == if HasIdentity(id)(more[i]) then 1 else 0
      {
        RecordIdentities(r, n - 1, StartOf(records, n - 1), external, id, i);
      }
      WhereGrows(before, sorted, more, |more|, HasIdentity(id), Occurrence(id, r.tokenIds));
      assert more[..|more|] == more;
      S.SortTally(r.spans, Occurrence(id, r.tokenIds));
    }
  }

  /** The counts frozen from the plan are what the verifier observes in the ledger. */
  lemma {:induction false} FrozenCountsMet(records: seq<PlannedRecord>, external: int -> bool, entries: seq<Entry>,
                                           counts: map<Identity, nat>, bound: seq<Entry>)
    requires Sortable(records, |records|) && AllCountable(records) && CountsOf(counts, records, |records|)
    requires BoundTo(entries, counts, bound)
    ensures var rows := TableOf(records, |records|, external);
      CountsAsExpected(rows, Having(rows, S.Payload), bound)
  {
    var rows := TableOf(records, |records|, external);
    assert forall i | 0 <= i < |records| :: CountableRecord(records[i]);
    forall e | e in bound && e.train && e.expected.Some?
      ensures |Observed(rows, Having(rows, S.Payload), e)| == e.expected.value
    {
      var i :| 0 <= i < |bound| && bound[i] == e;
      var id := EntryIdentity(entries[i]);
      assert e == Rebound(entries[i], counts);
      TableIdentities(records, |records|, external, id);
      assert Observed(rows, Having(rows, S.Payload), e) == Where(rows, HasIdentity(id));
      assert GetCount(counts, id) == Occurrences(records, |records|, id);
    }
  }

  lemma {:induction false} RowCountable(records: seq<PlannedRecord>, n: nat, external: int -> bool, i: nat)
    requires Sortable(records, n) && (forall k | 0 <= k < n :: CountableRecord(records[k]))
    requires i < |TableOf(records, n, external)|
    ensures var row := TableOf(records, n, external)[i]; row.role.Payload? ==> row.field.Some? && row.text.Some?
  {
    var r, before := records[n - 1], TableOf(records, n - 1, external);
    if i < |before| {
      RowCountable(records, n - 1, external, i);
    } else if S.SortSpans(r.spans)[i - |before|].role.Payload? {
      SortedCountable(r, i - |before|);
    }
  }

  /** Every tagged payload of the ledger is a train entry of the bound inventory. */
  lemma {:induction false} FrozenPayloadsKnown(records: seq<PlannedRecord>, external: int -> bool, entries: seq<Entry>,
                                               counts: map<Identity, nat>, bound: seq<Entry>)
    requires Sortable(records, |records|) && AllCountable(records) && CountsOf(counts, records, |records|)
    requires BoundTo(entries, counts, bound) && forall id | id in counts :: KnownIdentity(entries, id)
    ensures var rows := TableOf(records, |records|, external);
      KnownPayloads(rows, Having(rows, S.Payload), bound)
  {
    var rows := TableOf(records, |records|, external);
    assert forall k | 0 <= k < |records| :: CountableRecord(records[k]);
    forall i | i in Having(rows, S.Payload)
      ensures exists e :: e in bound && e.train && SameIdentity(rows[i], e)
    {
      RowCountable(records, |records|, external, i);
      var id := Identity(FactOf(rows[i]), rows[i].field.value, rows[i].text.value, rows[i].tokenBytes);
      TableIdentities(records, |records|, external, id);
      assert i in Where(rows, HasIdentity(id));
      assert GetCount(counts, id) == Occurrences(records, |records|, id);
      assert KnownIdentity(entries, id);
      var e :| e in entries && e.train && EntryIdentity(e) == id;
      var j :| 0 <= j < |entries| && entries[j] == e;
      assert bound[j] in bound && SameIdentity(rows[i], bound[j]);
    }
  }

  // ----- the frozen schedule is sound -----

  ghost function RecordRanges(records: seq<PlannedRecord>, n: nat): seq<Range>
    requires n <= |records|
  {
    if n == 0 then []
    else
      RecordRanges(records, n - 1)
      + [Range(records[n - 1].tokenStart, records[n - 1].tokenStart + |records[n - 1].tokenIds|)]
  }

  lemma {:induction false} ScheduleRanges(records: seq<PlannedRecord>, n: nat)
    requires n <= |records|
    ensures PatternScan.Rows(ScheduleLines(records)[..n]) == RecordRanges(records, n)
    ensures |RecordRanges(records, n)| == n
    ensures forall i | 0 <= i < n ::
      RecordRanges(records, n)[i] == Range(records[i].tokenStart, records[i].tokenStart + |records[i].tokenIds|)
  {
    if n > 0 {
      ScheduleRanges(records, n - 1);
      assert ScheduleLines(records)[..n][..n - 1] == ScheduleLines(records)[..n - 1];
    }
  }

  ghost predicate AllNonempty(records: seq<PlannedRecord>) {
    forall i | 0 <= i < |records| :: records[i].tokenIds != []
  }

  /** Each range starts where the ranges before it end, and the last one ends at `size`. */
  ghost predicate Tiled(ranges: seq<Range>, size: int) {
    && (forall i | 0 <= i < |ranges| :: ranges[i].start == PatternScan.End(ranges[..i]))
    && PatternScan.End(ranges) == size
  }

  ghost predicate AllPositive(ranges: seq<Range>) {
    forall i | 0 <= i < |ranges| :: ranges[i].start < ranges[i].end
  }

  lemma {:induction false} RangesTiled(records: seq<PlannedRecord>, ranges: seq<Range>)
    requires Planned(records) && ranges == RecordRanges(records, |records|)
    ensures Tiled(ranges, StartOf(records, |records|))
  {
    ScheduleRanges(records, |records|);
    forall i | 0 <= i < |ranges|
      ensures ranges[i].start == PatternScan.End(ranges[..i])
    {
      RangeStarts(records, i);
    }
    if records != [] {
      RangeStarts(records, |records| - 1);
    }
  }

  lemma {:induction false} RangesPositive(records: seq<PlannedRecord>, ranges: seq<Range>)
    requires ranges == RecordRanges(records, |records|)
    ensures AllPositive(ranges) <==> AllNonempty(records)
  {
    ScheduleRanges(records, |records|);
    forall i | 0 <= i < |records|
      ensures ranges[i].start < ranges[i].end <==> records[i].tokenIds != []
    {
    }
  }

  lemma {:induction false} LinesWellFormed(records: seq<PlannedRecord>, lines: seq<PatternScan.Line>)
    requires lines == ScheduleLines(records)
    ensures PatternScan.Malformed !in lines
    ensures PatternScan.Rows(lines) == RecordRanges(records, |records|)
    ensures PatternScan.Rows(lines) == [] <==> records == []
  {
    ScheduleRanges(records, |records|);
    assert lines[..|records|] == lines;
  }

  lemma TiledPartition(lines: seq<PatternScan.Line>, ranges: seq<Range>, size: nat)
    requires PatternScan.Malformed !in lines && PatternScan.Rows(lines) == ranges && Tiled(ranges, size)
    ensures ScheduleSound(Scheduled(lines), size) <==> ranges != [] && AllPositive(ranges)
    ensures Records(Scheduled(lines), size) == ranges
  {
  }

  /** The schedule written from a plan partitions its stream exactly when there is a record
      and none is empty. */
  lemma {:induction false} FrozenScheduleSound(records: seq<PlannedRecord>, lines: seq<PatternScan.Line>,
                                               ranges: seq<Range>, size: nat)
    requires Planned(records) && size == StartOf(records, |records|)
    requires lines == ScheduleLines(records) && ranges == RecordRanges(records, |records|)
    ensures ScheduleSound(Scheduled(lines), size) <==> records != [] && AllNonempty(records)
    ensures Records(Scheduled(lines), size) == ranges
  {
    LinesWellFormed(records, lines);
    RangesTiled(records, ranges);
    RangesPositive(records, ranges);
    TiledPartition(lines, ranges, size);
  }

  lemma {:induction false} RangeStarts(records: seq<PlannedRecord>, i: nat)
    requires Planned(records) && i < |records|
    ensures |RecordRanges(records, |records|)| == |records|
    ensures var ranges := RecordRanges(records, |records|);
      ranges[i].start == StartOf(records, i) == PatternScan.End(ranges[..i]) && ranges[i].end == StartOf(records, i + 1)
  {
    ScheduleRanges(records, |records|);
    assert records[i].tokenStart == StartOf(records, i);
    if i > 0 {
      assert records[i - 1].tokenStart == StartOf(records, i - 1);
    }
  }

  // ----- the build -----

  datatype Outcome =
    | Published(tokens: seq<Token>, sidecars: Sidecars, audit: Audit)
    | BadMetadata
    | UnknownPayloads
    | RecordRefused(index: nat)
    | Leaked(result: Result)

  /** Spans of every planned record are well formed and reach its last token. */
  ghost predicate AllWellFormed(records: seq<PlannedRecord>, n: nat) {
    n <= |records| && forall i {:trigger ReachesEnd(records[i])} | 0 <= i < n :: ReachesEnd(records[i])
  }

  ghost predicate ReachesEnd(r: PlannedRecord) {
    S.WellFormed(multiset(r.spans)) && S.LastEnd(S.SortSpans(r.spans)) == |r.tokenIds|
  }

  /** No payload text leaks: every occurrence of an inventory payload inside a record is
      tagged with one of its facts, and no protected payload occurs. */
  ghost predicate NoLeak(tokens: seq<Token>, rows: seq<SpanRow>, entries: seq<Entry>, records: seq<Range>) {
    && NoUntagged(tokens, rows, Having(rows, S.Payload), InventoryFacts(entries), records)
    && NoProtected(tokens, ProtectedPatterns(entries), records)
  }

  /** Whether the plan may be published, read off the plan and the inventory alone. */
  ghost predicate Publishable(records: seq<PlannedRecord>, entries: seq<Entry>, external: int -> bool)
    requires Sortable(records, |records|)
  {
    var rows := TableOf(records, |records|, external);
    && AllWellFormed(records, |records|) && AllDescribed(records) && AllNonempty(records)
    && (forall id | Occurrences(records, |records|, id) > 0 :: KnownIdentity(entries, id))
    && Having(rows, S.Payload) != {}
    && NoLeak(StreamOf(records, |records|), rows, entries, RecordRanges(records, |records|))
  }

  /** One planned record through the writer. */
  method ReplayRecord(r: PlannedRecord, writer: W.CorpusWriter, external: int -> bool) returns (ok: bool)
    requires writer.Valid() && PlannedAlone(r) && S.AllInDocument(S.SortSpans(r.spans), |r.tokenIds|)
    modifies writer, writer.spool
    ensures ok <==> ReachesEnd(r)
    ensures ok ==>
      && writer.Valid() && writer.tokens == old(writer.tokens) + r.tokenIds && writer.records == old(writer.records) + 1
      && writer.spool.spans == old(writer.spool.spans)
         + L.RowsOf(S.SortSpans(r.spans), old(writer.records), r.component, old(writer.total), r.tokenIds, external)
  {
    var outcome := writer.Add(r.component, r.tokenIds, r.spans, external);
    ok := outcome.Added?;
  }

  /** The first i records have been replayed into these tokens and rows. */
  ghost predicate Replayed(records: seq<PlannedRecord>, i: nat, external: int -> bool, tokens: seq<Token>,
                           rows: seq<SpanRow>) {
    Sortable(records, i) && AllWellFormed(records, i) && tokens == StreamOf(records, i)
      && rows == TableOf(records, i, external)
  }

  lemma {:induction false} ReplayedMore(records: seq<PlannedRecord>, i: nat, external: int -> bool, tokens: seq<Token>,
                                        rows: seq<SpanRow>)
    requires i < |records| && Sortable(records, i + 1) && Replayed(records, i, external, tokens, rows)
      && ReachesEnd(records[i])
    ensures |tokens| == StartOf(records, i)
    ensures var r := records[i];
      Replayed(records, i + 1, external, tokens + r.tokenIds,
               rows + L.RowsOf(S.SortSpans(r.spans), i, r.component, StartOf(records, i), r.tokenIds, external))
  {
    StreamLength(records, i);
  }

  /** The i-th record; false when the writer refuses it. */
  method ReplayAt(records: seq<PlannedRecord>, i: nat, writer: W.CorpusWriter, external: int -> bool, ghost next: nat)
    returns (ok: bool)
    requires Planned(records) && Sortable(records, |records|) && i < |records| && next == i + 1
    requires writer.Valid() && writer.records == i
    requires Replayed(records, i, external, writer.tokens, writer.spool.spans)
    modifies writer, writer.spool
    ensures ok <==> ReachesEnd(records[i])
    ensures ok ==> writer.Valid() && writer.records == next
    ensures ok ==> Replayed(records, next, external, writer.tokens, writer.spool.spans)
  {
    assert PlannedAlone(records[i]);
    ghost var tokens, rows := writer.tokens, writer.spool.spans;
    ok := ReplayRecord(records[i], writer, external);
    if ok {
      ReplayedMore(records, i, external, tokens, rows);
    }
  }

  /** Replays the records one by one; stops at the first one the writer refuses. */
  method Replay(records: seq<PlannedRecord>, writer: W.CorpusWriter, external: int -> bool)
    returns (refused: Option<nat>)
    requires Planned(records) && Sortable(records, |records|)
    requires writer.Valid() && writer.tokens == [] && writer.spool.spans == [] && writer.records == 0
    modifies writer, writer.spool
    ensures refused.None? <==> AllWellFormed(records, |records|)
    ensures refused.None? ==> writer.Valid() && writer.records == |records|
    ensures refused.None? ==> Replayed(records, |records|, external, writer.tokens, writer.spool.spans)
  {
    for i := 0 to |records|
      invariant writer.Valid() && writer.records == i
      invariant Replayed(records, i, external, writer.tokens, writer.spool.spans)
    {
      var ok := ReplayAt(records, i, writer, external, i + 1);
      if !ok {
        return Some(i);
      }
    }
    return None;
  }

  /** Random is zero exactly on the selected controls, which are the lowest-ranked of each
      key and as many as the payloads of that key; the other sidecars follow the payloads. */
  ghost predicate PublishedMasks(sidecars: Sidecars, rows: seq<SpanRow>, total: int, rank: nat -> nat,
                                 selected: set<nat>) {
    && ZeroOn(sidecars.random, total, rows, selected)
    && L.Matched(rows, rank, Having(rows, S.Payload), Having(rows, S.RandomControl), selected)
    && W.MasksSound(sidecars.split, sidecars.selective, total, rows) && W.AllOnes(sidecars.dense, total)
  }

  lemma {:induction false} WellFormedDisjoint(records: seq<PlannedRecord>)
    requires AllWellFormed(records, |records|)
    ensures AllDisjoint(records, |records|)
  {
    forall i | 0 <= i < |records|
      ensures S.Disjoint(S.SortSpans(records[i].spans))
    {
      assert ReachesEnd(records[i]);
      S.SortPermutes(records[i].spans);
      S.DisjointIffWellFormed(S.SortSpans(records[i].spans));
    }
  }

  /** Only the numbers of rows matter in a selection, and those are of controls. */
  lemma {:induction false} SelectedRows(random: seq<L.Byte>, rows: seq<SpanRow>, total: int, rank: nat -> nat,
                                        selected: set<nat>, some: set<nat>)
    requires ZeroOn(random, total, rows, selected)
    requires L.Matched(rows, rank, Having(rows, S.Payload), Having(rows, S.RandomControl), selected)
    requires some == set i | i in selected && i < |rows|
    ensures ZeroOn(random, total, rows, some) && some <= Having(rows, S.RandomControl)
    ensures L.Matched(rows, rank, Having(rows, S.Payload), Having(rows, S.RandomControl), some)
  {
    forall p
      ensures Masked(rows, some, p) <==> Masked(rows, selected, p)
    {
    }
    forall key
      ensures ByKey(rows, some, key) == ByKey(rows, selected, key)
    {
    }
    forall i | i in some
      ensures i in Having(rows, S.RandomControl)
    {
      assert i in ByKey(rows, selected, rows[i].key);
      assert L.Lowest(rank, ByKey(rows, Having(rows, S.RandomControl), rows[i].key),
        |ByKey(rows, Having(rows, S.Payload), rows[i].key)|, ByKey(rows, selected, rows[i].key));
    }
  }

  /** Published sidecars weigh every stream position as the planned spans say. */
  lemma {:induction false} PublishedIsWeighed(sidecars: Sidecars, records: seq<PlannedRecord>, rows: seq<SpanRow>,
                                              total: int, external: int -> bool, rank: nat -> nat)
    requires Planned(records) && Sortable(records, |records|) && AllWellFormed(records, |records|)
    requires rows == TableOf(records, |records|, external)
    requires exists selected :: PublishedMasks(sidecars, rows, total, rank, selected)
    ensures Weighed(sidecars, records, total, external, rank)
  {
    var places := PlacesOf(records, |records|);
    var selected :| PublishedMasks(sidecars, rows, total, rank, selected);
    WellFormedDisjoint(records);
    PlacesLedgered(records, |records|);
    TableTells(records, |records|, external);
    MasksFollowPlan(sidecars, rows, records, places, total, external);
    SelectedRows(sidecars.random, rows, total, rank, selected, set i | i in selected && i < |rows|);
    SelectionIsDrawn(sidecars.random, rows, records, places, external, rank, set i | i in selected && i < |rows|);
  }

  /** With counts, inventory and schedule all frozen from the plan, the verifier's content
      checks come down to nonempty records, at least one payload, and no leak. */
  lemma {:induction false} FrozenContent(records: seq<PlannedRecord>, tokens: seq<Token>, external: int -> bool,
                                         entries: seq<Entry>,
                                         counts: map<Identity, nat>, bound: seq<Entry>)
    requires Planned(records) && Sortable(records, |records|) && AllCountable(records)
      && CountsOf(counts, records, |records|)
    requires BoundTo(entries, counts, bound) && forall id | id in counts :: KnownIdentity(entries, id)
    requires tokens == StreamOf(records, |records|) && W.TableSound(tokens, TableOf(records, |records|, external))
    ensures var rows := TableOf(records, |records|, external);
      ContentSound(tokens, rows, Having(rows, S.Payload), Some(bound), Scheduled(ScheduleLines(records)))
      <==>
      && Having(rows, S.Payload) != {} && AllNonempty(records)
      && NoLeak(tokens, rows, entries, RecordRanges(records, |records|))
  {
    var rows := TableOf(records, |records|, external);
    StreamLength(records, |records|);
    FrozenCountsMet(records, external, entries, counts, bound);
    FrozenPayloadsKnown(records, external, entries, counts, bound);
    FrozenScheduleSound(records, ScheduleLines(records), RecordRanges(records, |records|), |tokens|);
    BoundKeepsPatterns(entries, counts, bound);
    assert Having(rows, S.Payload) != {} ==> records != [];
  }

  lemma {:induction false} CountedAreKnown(records: seq<PlannedRecord>, entries: seq<Entry>, counts: map<Identity, nat>)
    requires CountsOf(counts, records, |records|)
    ensures (forall id | id in counts :: KnownIdentity(entries, id))
       <==> (forall id | Occurrences(records, |records|, id) > 0 :: KnownIdentity(entries, id))
  {
    forall id
      ensures id in counts <==> Occurrences(records, |records|, id) > 0
    {
      assert GetCount(counts, id) == Occurrences(records, |records|, id);
    }
  }

  lemma BoundNonempty(entries: seq<Entry>, counts: map<Identity, nat>, bound: seq<Entry>)
    requires BoundTo(entries, counts, bound) && forall e | e in entries :: e.tokenIds != []
    ensures forall e | e in bound :: e.tokenIds != []
  {
    forall i | 0 <= i < |bound| ensures bound[i].tokenIds != [] {
      assert entries[i] in entries;
    }
  }

  /** Replay and verification with everything frozen. */
  method ReplayAndVerify(plan: SchedulePlanSpool, entries: seq<Entry>, counts: map<Identity, nat>, bound: seq<Entry>,
                         lines: seq<PatternScan.Line>, external: int -> bool, rank: nat -> nat)
    returns (outcome: Outcome)
    requires plan.Valid() && Sortable(plan.records, |plan.records|) && AllCountable(plan.records)
    requires CountsOf(counts, plan.records, |plan.records|) && lines == ScheduleLines(plan.records)
    requires BoundTo(entries, counts, bound) && forall id | id in counts :: KnownIdentity(entries, id)
    requires forall e | e in entries :: e.tokenIds != []
    ensures outcome.Published? || outcome.RecordRefused? || outcome.Leaked?
    ensures outcome.Published? <==>
      && AllWellFormed(plan.records, |plan.records|) && AllNonempty(plan.records)
      && Having(TableOf(plan.records, |plan.records|, external), S.Payload) != {}
      && NoLeak(StreamOf(plan.records, |plan.records|), TableOf(plan.records, |plan.records|, external), entries,
                RecordRanges(plan.records, |plan.records|))
    ensures outcome.Published? ==> outcome.tokens == StreamOf(plan.records, |plan.records|)
    ensures outcome.Published? ==> exists selected ::
      PublishedMasks(outcome.sidecars, TableOf(plan.records, |plan.records|, external), |outcome.tokens|, rank,
        selected)
    ensures outcome.Published? ==> outcome.audit.random == outcome.audit.split && outcome.audit.denseAllOnes
    ensures outcome.Leaked? ==>
      && !outcome.result.SpoolClosed? && !outcome.result.NotFinalized?
      && !outcome.result.SidecarMismatch? && !outcome.result.HistogramMismatch?
  {
    var writer := new W.CorpusWriter();
    var refused := Replay(plan.records, writer, external);
    if refused.Some? {
      return RecordRefused(refused.value);
    }
    StreamLength(plan.records, |plan.records|);
    // The source compares the replayed totals with the plan's here; they agree.
    assert writer.total == plan.totalTokens && writer.records == plan.totalRecords;
    FrozenContent(plan.records, writer.tokens, external, entries, counts, bound);
    BoundNonempty(entries, counts, bound);
    writer.Close();
    var result := writer.Finalize(rank, Some(bound), Scheduled(lines));
    if !result.Passed? {
      return Leaked(result);
    }
    assert PublishedMasks(writer.Files(), writer.spool.spans, |writer.tokens|, rank, writer.spool.selected);
    return Published(writer.tokens, writer.Files(), result.audit);
  }

  /** Publishes exactly the publishable plans. Once the plan's payload counts are bound into
      the inventory and its records are replayed, no count, schedule, supply, sidecar,
      histogram, mass or replay-total check can fail. */
  method BuildCorpus(plan: SchedulePlanSpool, entries: seq<Entry>, external: int -> bool, rank: nat -> nat)
    returns (outcome: Outcome)
    requires plan.Valid() && plan.sealed && !plan.closed
    requires forall e | e in entries :: e.tokenIds != []
    ensures Sortable(plan.records, |plan.records|)
    ensures outcome.Published? <==> Publishable(plan.records, entries, external)
    ensures outcome.BadMetadata? <==> !AllDescribed(plan.records)
    ensures outcome.Published? ==> outcome.tokens == StreamOf(plan.records, |plan.records|)
    ensures outcome.Published? ==> exists selected ::
      PublishedMasks(outcome.sidecars, TableOf(plan.records, |plan.records|, external), |outcome.tokens|, rank,
        selected)
    ensures outcome.Published? ==>
      && Streamed(plan.records, outcome.tokens)
      && Weighed(outcome.sidecars, plan.records, |outcome.tokens|, external, rank)
    ensures outcome.Published? ==> outcome.audit.random == outcome.audit.split && outcome.audit.denseAllOnes
    ensures outcome.Leaked? ==>
      && !outcome.result.SpoolClosed? && !outcome.result.NotFinalized?
      && !outcome.result.SidecarMismatch? && !outcome.result.HistogramMismatch?
  {
    PlannedSortable(plan.records, |plan.records|);
    CountableMeans(plan.records);
    var counts := plan.PayloadOccurrenceCounts();
    if counts.None? {
      return BadMetadata;
    }
    CountedAreKnown(plan.records, entries, counts.value);
    var bound := BindExpectedOccurrences(entries, counts.value);
    if bound.None? {
      return UnknownPayloads;
    }
    var lines := plan.WriteSchedule();
    outcome := ReplayAndVerify(plan, entries, counts.value, bound.value, lines, external, rank);
    if outcome.Published? {
      StreamIsStreamed(plan.records, outcome.tokens);
      PublishedIsWeighed(outcome.sidecars, plan.records, TableOf(plan.records, |plan.records|, external),
                         |outcome.tokens|, external, rank);
    }
  }
}
