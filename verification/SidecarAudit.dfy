/** The independent verifier of the finished artifacts (mask_ledger.py,
    verify_weight_sidecars), run on the tables that the occurrence ledger wrote. */
module SidecarAudit {
  import opened Wrappers
  import opened Tokens
  import opened OccurrenceTable
  import S = Spans
  import PatternScan
  import TaggedSweep
  import ZeroRuns

  type Byte = ZeroRuns.Byte

  datatype Sidecars = Sidecars(dense: seq<Byte>, split: seq<Byte>, random: seq<Byte>, selective: seq<Byte>)

  datatype Condition = Dense | Split | Random | Selective

  /** One payload the inventory knows; `train` tells the scope, protected otherwise. */
  datatype Entry = Entry(train: bool, factId: string, field: string, text: string, tokenIds: seq<Token>,
    expected: Option<nat>)

  datatype Audit = Audit(dense: int, split: int, random: int, selective: int, denseAllOnes: bool)

  datatype Result =
    | Passed(audit: Audit)
    | SpoolClosed
    | NotFinalized
    | SidecarMismatch(condition: Condition)
    | HistogramMismatch
    | PayloadMismatch
    | UnknownPayload
    | CountMismatch
    | BadSchedule
    | TagLeak(verdict: TaggedSweep.Verdict)
    | ProtectedLeak

  // ----- what each check demands -----

  function SelectiveRows(rows: seq<SpanRow>, demands: set<nat>): (ids: set<nat>)
    ensures forall i: nat :: i in ids <==> i in demands && i < |rows| && rows[i].selective
  {
    set i | i in demands && i < |rows| && rows[i].selective
  }

  function RowsFor(c: Condition, rows: seq<SpanRow>, demands: set<nat>, selected: set<nat>): set<nat> {
    match c
    case Dense => {}
    case Split => demands
    case Random => selected
    case Selective => SelectiveRows(rows, demands)
  }

  function Sidecar(c: Condition, sidecars: Sidecars): seq<Byte> {
    match c
    case Dense => sidecars.dense
    case Split => sidecars.split
    case Random => sidecars.random
    case Selective => sidecars.selective
  }

  /** The sidecar of condition c is zero exactly on the rows of condition c. */
  ghost predicate SidecarAgrees(c: Condition, sidecars: Sidecars, size: int, rows: seq<SpanRow>, demands: set<nat>,
                                selected: set<nat>) {
    ZeroRuns.ZeroExactlyOn(Sidecar(c, sidecars), size, RangesOf(rows, RowsFor(c, rows, demands, selected), |rows|))
  }

  /** Some payload was tagged, and every tagged payload still has its tokens. */
  ghost predicate PayloadsIntact(tokens: seq<Token>, rows: seq<SpanRow>, demands: set<nat>) {
    && demands != {}
    && forall i | i in demands && i < |rows| :: PayloadIntact(tokens, rows[i])
  }

  ghost predicate PayloadIntact(tokens: seq<Token>, row: SpanRow) {
    && 0 <= row.start < row.end <= |tokens| && tokens[row.start..row.end] == row.tokenBytes
  }

  function FactOf(row: SpanRow): string {
    if row.factId.Some? then row.factId.value else ""
  }

  /** The pattern table read back from the tagged payloads themselves. */
  function SpooledFacts(rows: seq<SpanRow>, demands: set<nat>): (facts: map<seq<Token>, set<string>>)
    requires forall i | i in demands :: i < |rows|
    ensures forall p: seq<Token> :: p in facts <==> exists i :: i in demands && rows[i].tokenBytes == p
    ensures forall p: seq<Token>, f | p in facts ::
      f in facts[p] <==> exists i :: i in demands && rows[i].tokenBytes == p && FactOf(rows[i]) == f
  {
    var patterns := set i | i in demands :: rows[i].tokenBytes;
    map p | p in patterns :: set i | i in demands && rows[i].tokenBytes == p :: FactOf(rows[i])
  }

  /** The inventory has an entry of this scope for pattern p. */
  ghost predicate Tells(entries: seq<Entry>, train: bool, p: seq<Token>) {
    exists e :: e in entries && e.train == train && e.tokenIds == p
  }

  ghost predicate TellsFact(entries: seq<Entry>, p: seq<Token>, f: string) {
    exists e :: e in entries && e.train && e.tokenIds == p && e.factId == f
  }

  /** The pattern table of the inventory's train entries. */
  function InventoryFacts(entries: seq<Entry>): (facts: map<seq<Token>, set<string>>)
    ensures forall p: seq<Token> :: p in facts <==> Tells(entries, true, p)
    ensures forall p: seq<Token>, f | p in facts :: f in facts[p] <==> TellsFact(entries, p, f)
  {
    var patterns := set e | e in entries && e.train :: e.tokenIds;
    map p | p in patterns :: set e | e in entries && e.train && e.tokenIds == p :: e.factId
  }

  function ProtectedPatterns(entries: seq<Entry>): (patterns: set<seq<Token>>)
    ensures forall p: seq<Token> :: p in patterns <==> Tells(entries, false, p)
  {
    set e | e in entries && !e.train :: e.tokenIds
  }

  ghost predicate SameIdentity(row: SpanRow, e: Entry) {
    row.tokenBytes == e.tokenIds && FactOf(row) == e.factId && row.field == Some(e.field) && row.text == Some(e.text)
  }

  ghost predicate KnownPayloads(rows: seq<SpanRow>, demands: set<nat>, entries: seq<Entry>) {
    forall i | i in demands && i < |rows| :: exists e :: e in entries && e.train && SameIdentity(rows[i], e)
  }

  ghost function Observed(rows: seq<SpanRow>, demands: set<nat>, e: Entry): set<nat> {
    set i | i in demands && i < |rows| && SameIdentity(rows[i], e)
  }

  ghost predicate CountsAsExpected(rows: seq<SpanRow>, demands: set<nat>, entries: seq<Entry>) {
    forall e | e in entries && e.train && e.expected.Some? :: |Observed(rows, demands, e)| == e.expected.value
  }

  // ----- payload rows as the sweep reads them -----

  function PayloadSpans(rows: seq<SpanRow>, demands: set<nat>, n: nat): seq<TaggedSweep.PayloadSpan>
    requires n <= |rows|
  {
    if n == 0 then []
    else
      var before := PayloadSpans(rows, demands, n - 1);
      if n - 1 in demands then before
        + [TaggedSweep.PayloadSpan(rows[n - 1].start, rows[n - 1].end, FactOf(rows[n - 1]))]
      else before
  }

  lemma {:induction false} PayloadSpansDisjoint(rows: seq<SpanRow>, total: int, demands: set<nat>, n: nat)
    requires TableValid(rows, total) && n <= |rows|
    ensures TaggedSweep.Disjoint(PayloadSpans(rows, demands, n))
    ensures forall k, i | 0 <= k < |PayloadSpans(rows, demands, n)| && n <= i < |rows| ::
      PayloadSpans(rows, demands, n)[k].end <= rows[i].start
  {
    if n > 0 {
      PayloadSpansDisjoint(rows, total, demands, n - 1);
    }
  }

  lemma {:induction false} PayloadSpanOf(rows: seq<SpanRow>, demands: set<nat>, n: nat, span: TaggedSweep.PayloadSpan)
    requires n <= |rows|
    ensures span in PayloadSpans(rows, demands, n) <==>
      exists i :: i in demands && i < n && span == TaggedSweep.PayloadSpan(rows[i].start, rows[i].end, FactOf(rows[i]))
  {
    if n > 0 {
      PayloadSpanOf(rows, demands, n - 1, span);
    }
  }

  /** Every direct occurrence of a known payload is tagged with one of its facts. */
  ghost predicate NoUntagged(tokens: seq<Token>, rows: seq<SpanRow>, demands: set<nat>,
                             facts: map<seq<Token>, set<string>>, records: seq<Range>)
  {
    forall r: Range | TaggedSweep.Direct(tokens, facts, records, r) :: RowTags(tokens, rows, demands, facts, r)
  }

  ghost predicate RowTags(tokens: seq<Token>, rows: seq<SpanRow>, demands: set<nat>, facts: map<seq<Token>,
                          set<string>>, r: Range) {
    && 0 <= r.start <= r.end <= |tokens| && tokens[r.start..r.end] in facts
    && exists i :: i in demands && i < |rows| && rows[i].start <= r.start && r.end <= rows[i].end
                   && FactOf(rows[i]) in facts[tokens[r.start..r.end]]
  }

  lemma RowTagsIffTagged(tokens: seq<Token>, rows: seq<SpanRow>, demands: set<nat>, facts: map<seq<Token>, set<string>>,
                         r: Range)
    ensures RowTags(tokens, rows, demands, facts, r) <==>
            TaggedSweep.Tagged(tokens, PayloadSpans(rows, demands, |rows|), facts, r)
  {
    var spans := PayloadSpans(rows, demands, |rows|);
    if RowTags(tokens, rows, demands, facts, r) {
      var i :| i in demands && i < |rows| && rows[i].start <= r.start && r.end <= rows[i].end
               && FactOf(rows[i]) in facts[tokens[r.start..r.end]];
      var span := TaggedSweep.PayloadSpan(rows[i].start, rows[i].end, FactOf(rows[i]));
      PayloadSpanOf(rows, demands, |rows|, span);
      var k :| 0 <= k < |spans| && spans[k] == span;
    }
    if TaggedSweep.Tagged(tokens, spans, facts, r) {
      var k :| 0 <= k < |spans| && TaggedSweep.Covers(spans[k], r) && spans[k].factId in facts[tokens[r.start..r.end]];
      PayloadSpanOf(rows, demands, |rows|, spans[k]);
    }
  }

  ghost predicate NoProtected(tokens: seq<Token>, protected: set<seq<Token>>, records: seq<Range>) {
    forall k, r: Range | 0 <= k < |records| && PatternScan.Inside(tokens, records[k], r) ::
      tokens[r.start..r.end] !in protected
  }

  // ----- what the verifier reads besides the tables -----

  datatype Schedule = Unscheduled | Scheduled(lines: seq<PatternScan.Line>)

  /** The record ranges; the whole stream is one record when there is no schedule. */
  ghost function Records(schedule: Schedule, size: nat): seq<Range> {
    if schedule.Unscheduled? then [Range(0, size)] else PatternScan.Rows(schedule.lines)
  }

  ghost predicate ScheduleSound(schedule: Schedule, size: nat) {
    schedule.Scheduled? ==>
      && PatternScan.Malformed !in schedule.lines && PatternScan.Rows(schedule.lines) != []
      && PatternScan.Partition(PatternScan.Rows(schedule.lines), size)
  }

  lemma RecordsInOrder(schedule: Schedule, size: nat)
    requires ScheduleSound(schedule, size)
    ensures PatternScan.InOrder(Records(schedule, size), size)
  {
    if schedule.Scheduled? {
      PatternScan.PartitionInOrder(PatternScan.Rows(schedule.lines), size);
    }
  }

  function Facts(rows: seq<SpanRow>, demands: set<nat>, inventory: Option<seq<Entry>>): map<seq<Token>, set<string>>
    requires forall i | i in demands :: i < |rows|
  {
    if inventory.None? then SpooledFacts(rows, demands) else InventoryFacts(inventory.value)
  }

  function Protected(inventory: Option<seq<Entry>>): set<seq<Token>> {
    if inventory.None? then {} else ProtectedPatterns(inventory.value)
  }

  /** The checks that read the token stream and the inventory. */
  ghost predicate ContentSound(tokens: seq<Token>, rows: seq<SpanRow>, demands: set<nat>,
                               inventory: Option<seq<Entry>>, schedule: Schedule)
    requires forall i | i in demands :: i < |rows|
  {
    && PayloadsIntact(tokens, rows, demands)
    && (inventory.Some? ==>
         KnownPayloads(rows, demands, inventory.value) && CountsAsExpected(rows, demands, inventory.value))
    && ScheduleSound(schedule, |tokens|)
    && NoUntagged(tokens, rows, demands, Facts(rows, demands, inventory), Records(schedule, |tokens|))
    && NoProtected(tokens, Protected(inventory), Records(schedule, |tokens|))
  }

  ghost predicate SidecarsSound(sidecars: Sidecars, size: int, rows: seq<SpanRow>, demands: set<nat>,
                                selected: set<nat>) {
    && SidecarAgrees(Dense, sidecars, size, rows, demands, selected)
    && SidecarAgrees(Split, sidecars, size, rows, demands, selected)
    && SidecarAgrees(Random, sidecars, size, rows, demands, selected)
    && SidecarAgrees(Selective, sidecars, size, rows, demands, selected)
  }

  /** The tables are ones the ledger can have written for a stream of this size. */
  ghost predicate LedgerTables(rows: seq<SpanRow>, size: int, demands: set<nat>, candidates: set<nat>,
                               selected: set<nat>) {
    && TableValid(rows, size)
    && demands == Having(rows, S.Payload) && candidates == Having(rows, S.RandomControl)
    && selected <= candidates
  }

  // ----- checks that the earlier checks make redundant -----

  /** The separate token-mass comparison can never fire after the histogram comparison. */
  lemma MassCheckRedundant(rows: seq<SpanRow>, size: int, demands: set<nat>, candidates: set<nat>, selected: set<nat>)
    requires LedgerTables(rows, size, demands, candidates, selected) && SameHistogram(rows, selected, demands)
    ensures ZeroRuns.Length(RangesOf(rows, selected, |rows|)) == ZeroRuns.Length(RangesOf(rows, demands, |rows|))
  {
    EqualMass(rows, size, selected, demands);
    RangesMass(rows, selected, |rows|);
    RangesMass(rows, demands, |rows|);
  }

  /** A Random sidecar that agrees with the selected candidates masks no protected row. */
  lemma ProtectedCheckRedundant(sidecars: Sidecars, rows: seq<SpanRow>, size: int, demands: set<nat>,
                                candidates: set<nat>, selected: set<nat>, i: nat, p: int)
    requires LedgerTables(rows, size, demands, candidates, selected)
    requires SidecarAgrees(Random, sidecars, size, rows, demands, selected)
    requires i < |rows| && S.Protected(rows[i].role) && rows[i].start <= p < rows[i].end
    ensures p < |sidecars.random| && sidecars.random[p] == 1
  {
    RangesMasked(rows, selected, |rows|, p);
    RolesApart(rows, size, selected, i, p);
    assert !ZeroRuns.In(RangesOf(rows, selected, |rows|), p);
  }

  // ----- the verifier -----

  method CheckSidecars(sidecars: Sidecars, size: int, rows: seq<SpanRow>, demands: set<nat>, selected: set<nat>)
    returns (bad: Option<Condition>, audit: Audit)
    requires LedgerTables(rows, size, demands, Having(rows, S.RandomControl), selected)
    ensures bad.None? <==> SidecarsSound(sidecars, size, rows, demands, selected)
    ensures bad.Some? ==> !SidecarAgrees(bad.value, sidecars, size, rows, demands, selected)
    ensures bad.None? ==> audit.dense == 0 && audit.denseAllOnes
    ensures bad.None? ==> audit.split == Mass(rows, demands, |rows|) && audit.random == Mass(rows, selected, |rows|)
    ensures bad.None? ==> audit.selective == Mass(rows, SelectiveRows(rows, demands), |rows|)
  {
    audit := Audit(0, 0, 0, 0, false);
    var dense := CheckCondition(Dense, sidecars, size, rows, demands, selected);
    if dense.Mismatch? {
      return Some(Dense), audit;
    }
    var split := CheckCondition(Split, sidecars, size, rows, demands, selected);
    if split.Mismatch? {
      return Some(Split), audit;
    }
    var random := CheckCondition(Random, sidecars, size, rows, demands, selected);
    if random.Mismatch? {
      return Some(Random), audit;
    }
    var selective := CheckCondition(Selective, sidecars, size, rows, demands, selected);
    if selective.Mismatch? {
      return Some(Selective), audit;
    }
    MassOfNone(rows, |rows|);
    DenseAllOnes(sidecars, size, rows, demands, selected);
    audit := Audit(dense.maskedTokens, split.maskedTokens, random.maskedTokens, selective.maskedTokens,
      dense.count == 0);
    return None, audit;
  }

  lemma DenseAllOnes(sidecars: Sidecars, size: int, rows: seq<SpanRow>, demands: set<nat>, selected: set<nat>)
    requires SidecarAgrees(Dense, sidecars, size, rows, demands, selected)
    ensures forall p | 0 <= p < |sidecars.dense| :: sidecars.dense[p] == 1
  {
    forall p | 0 <= p < |sidecars.dense|
      ensures sidecars.dense[p] == 1
    {
      RangesMasked(rows, {}, |rows|, p);
      assert !ZeroRuns.In(RangesOf(rows, {}, |rows|), p);
    }
  }

  method CheckCondition(c: Condition, sidecars: Sidecars, size: int, rows: seq<SpanRow>, demands: set<nat>,
                        selected: set<nat>)
    returns (r: ZeroRuns.Summary)
    ensures r.Summary? <==> SidecarAgrees(c, sidecars, size, rows, demands, selected)
    ensures r.Summary? ==> r.maskedTokens == Mass(rows, RowsFor(c, rows, demands, selected), |rows|)
    ensures r.Summary? ==>
      (r.count == 0 <==> forall p | 0 <= p < |Sidecar(c, sidecars)| :: Sidecar(c, sidecars)[p] == 1)
  {
    var ids := RowsFor(c, rows, demands, selected);
    RangesMass(rows, ids, |rows|);
    r := ZeroRuns.CheckSidecar(Sidecar(c, sidecars), size, RangesOf(rows, ids, |rows|));
  }

  /** Every tagged payload reads its own tokens, and there is one. */
  method RequireIntact(tokens: seq<Token>, rows: seq<SpanRow>, demands: set<nat>) returns (ok: bool)
    ensures ok <==> PayloadsIntact(tokens, rows, demands)
  {
    if demands == {} {
      return false;
    }
    ok := forall i | i in demands && i < |rows| ::
      !(rows[i].start < 0 || rows[i].start >= rows[i].end || rows[i].end > |tokens|
        || tokens[rows[i].start..rows[i].end] != rows[i].tokenBytes);
  }

  /** Every tagged payload is a train entry of the inventory. */
  method RequireKnown(rows: seq<SpanRow>, demands: set<nat>, entries: seq<Entry>) returns (ok: bool)
    ensures ok <==> KnownPayloads(rows, demands, entries)
  {
    ok := forall i | i in demands && i < |rows| ::
      exists e :: e in entries && e.train && e.tokenIds == rows[i].tokenBytes && e.factId == FactOf(rows[i])
        && Some(e.field) == rows[i].field && Some(e.text) == rows[i].text;
  }

  /** Every train entry is tagged as often as it expects. */
  method RequireCounts(rows: seq<SpanRow>, demands: set<nat>, entries: seq<Entry>) returns (ok: bool)
    ensures ok <==> CountsAsExpected(rows, demands, entries)
  {
    for k := 0 to |entries|
      invariant forall j | 0 <= j < k && entries[j].train && entries[j].expected.Some? ::
        |Observed(rows, demands, entries[j])| == entries[j].expected.value
    {
      var e := entries[k];
      var seen := set i | i in demands && i < |rows| && rows[i].tokenBytes == e.tokenIds && FactOf(rows[i]) == e.factId
        && rows[i].field == Some(e.field) && rows[i].text == Some(e.text);
      assert seen == Observed(rows, demands, e);
      if e.train && e.expected.Some? && |seen| != e.expected.value {
        return false;
      }
    }
    return true;
  }

  /** The checks that read the token stream, in the source's order. */
  method CheckContent(tokens: seq<Token>, rows: seq<SpanRow>, demands: set<nat>, inventory: Option<seq<Entry>>,
                      schedule: Schedule)
    returns (bad: Option<Result>)
    requires TableValid(rows, |tokens|) && demands == Having(rows, S.Payload)
    requires inventory.Some? ==> forall e | e in inventory.value :: e.tokenIds != []
    ensures bad.None? <==> ContentSound(tokens, rows, demands, inventory, schedule)
    ensures bad.Some? ==>
      && !bad.value.Passed? && !bad.value.SpoolClosed? && !bad.value.NotFinalized?
      && !bad.value.SidecarMismatch? && !bad.value.HistogramMismatch?
  {
    var intact := RequireIntact(tokens, rows, demands);
    if !intact {
      return Some(PayloadMismatch);
    }
    if inventory.Some? {
      var known := RequireKnown(rows, demands, inventory.value);
      if !known {
        return Some(UnknownPayload);
      }
      var met := RequireCounts(rows, demands, inventory.value);
      if !met {
        return Some(CountMismatch);
      }
    }
    var records := [Range(0, |tokens|)];
    if schedule.Scheduled? {
      var read := PatternScan.IterRecordRanges(schedule.lines, |tokens|);
      if read.Rejected? {
        return Some(BadSchedule);
      }
      records := read.ranges;
    }
    assert records == Records(schedule, |tokens|);
    RecordsInOrder(schedule, |tokens|);
    bad := CheckLeaks(tokens, rows, demands, inventory, records);
  }

  /** The leakage and protected-pattern sweeps over the records. */
  method CheckLeaks(tokens: seq<Token>, rows: seq<SpanRow>, demands: set<nat>, inventory: Option<seq<Entry>>,
                    records: seq<Range>)
    returns (bad: Option<Result>)
    requires TableValid(rows, |tokens|) && demands == Having(rows, S.Payload) && PayloadsIntact(tokens, rows, demands)
    requires inventory.Some? ==> forall e | e in inventory.value :: e.tokenIds != []
    requires PatternScan.InOrder(records, |tokens|)
    ensures bad.None? <==>
      && NoUntagged(tokens, rows, demands, Facts(rows, demands, inventory), records)
      && NoProtected(tokens, Protected(inventory), records)
    ensures bad.Some? ==> bad.value.TagLeak? || bad.value.ProtectedLeak?
  {
    PayloadSpansDisjoint(rows, |tokens|, demands, |rows|);
    var facts, spans := Facts(rows, demands, inventory), PayloadSpans(rows, demands, |rows|);
    var verdict := TaggedSweep.RequireInventoryMatchesTagged(tokens, spans, facts, records);
    forall r: Range
      ensures RowTags(tokens, rows, demands, facts, r) <==> TaggedSweep.Tagged(tokens, spans, facts, r)
    {
      RowTagsIffTagged(tokens, rows, demands, facts, r);
    }
    if !verdict.Clean? {
      return Some(TagLeak(verdict));
    }
    var clean := TaggedSweep.RequireNoProtectedPatterns(tokens, Protected(inventory), records);
    if !clean {
      return Some(ProtectedLeak);
    }
    return None;
  }

  /** Passes if and only if the ledger was finalized, every sidecar is zero exactly where its
      rows say, Random repeats Split's histogram, and the content checks hold. The masked
      masses it then reports are the row masses, with Random's equal to Split's. */
  method VerifyWeightSidecars(tokens: seq<Token>, sidecars: Sidecars, rows: seq<SpanRow>, demands: set<nat>,
                              candidates: set<nat>, selected: set<nat>, finalized: bool,
                              inventory: Option<seq<Entry>>, schedule: Schedule)
    returns (r: Result)
    requires LedgerTables(rows, |tokens|, demands, candidates, selected)
    requires inventory.Some? ==> forall e | e in inventory.value :: e.tokenIds != []
    ensures r.Passed? <==>
      && finalized && SidecarsSound(sidecars, |tokens|, rows, demands, selected)
      && SameHistogram(rows, selected, demands)
      && ContentSound(tokens, rows, demands, inventory, schedule)
    ensures !r.SpoolClosed? && (r.NotFinalized? <==> !finalized)
    ensures r.SidecarMismatch? ==> !SidecarsSound(sidecars, |tokens|, rows, demands, selected)
    ensures r.HistogramMismatch? ==> !SameHistogram(rows, selected, demands)
    ensures r.Passed? ==> r.audit.dense == 0 && r.audit.denseAllOnes
    ensures r.Passed? ==> r.audit.random == r.audit.split == Mass(rows, demands, |rows|)
    ensures r.Passed? ==> r.audit.selective == Mass(rows, SelectiveRows(rows, demands), |rows|)
  {
    if !finalized {
      return NotFinalized;
    }
    var bad, audit := CheckSidecars(sidecars, |tokens|, rows, demands, selected);
    if bad.Some? {
      return SidecarMismatch(bad.value);
    }
    SameCounts(rows, selected, demands);
    if KeyCounts(rows, selected) != KeyCounts(rows, demands) {
      return HistogramMismatch;
    }
    // The source's mass, pending-demand and protected-role checks come here and cannot fail:
    // MassCheckRedundant, the histogram equality itself, and ProtectedCheckRedundant.
    EqualMass(rows, |tokens|, selected, demands);
    var leak := CheckContent(tokens, rows, demands, inventory, schedule);
    if leak.Some? {
      return leak.value;
    }
    return Passed(audit);
  }
}
