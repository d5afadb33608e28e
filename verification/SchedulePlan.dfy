/** The frozen record plan that the corpus writer replays (schedule_plan.py,
    SchedulePlanSpool), and the expected payload counts taken from it. */
module SchedulePlan {
  import opened Wrappers
  import opened Tokens
  import S = Spans
  import PatternScan

  datatype PlannedRecord = PlannedRecord(component: string, tokenStart: nat, tokenIds: seq<Token>, spans: seq<S.Span>)

  /** What the payload inventory knows a payload by. */
  datatype Identity = Identity(factId: string, field: string, text: string, tokenIds: seq<Token>)

  predicate Named(value: Option<string>) {
    value.Some? && value.value != ""
  }

  /** Payload metadata that can be counted. */
  predicate Countable(s: S.Span, length: int) {
    S.InDocument(s, length) && Named(s.factId) && Named(s.field) && Named(s.text)
  }

  function IdentityOf(s: S.Span, tokenIds: seq<Token>): Identity
    requires Countable(s, |tokenIds|)
  {
    Identity(s.factId.value, s.field.value, s.text.value, tokenIds[s.start..s.end])
  }

  /** Tallied, this counts a record's payload spans with one identity. */
  ghost function Occurrence(id: Identity, tokenIds: seq<Token>): S.Span -> nat {
    (s: S.Span) => if s.role.Payload? && Countable(s, |tokenIds|) && IdentityOf(s, tokenIds) == id then 1 else 0
  }

  ghost function Occurrences(records: seq<PlannedRecord>, n: nat, id: Identity): nat
    requires n <= |records|
  {
    if n == 0 then 0
    else
      var r := records[n - 1];
      Occurrences(records, n - 1, id) + S.Tally(r.spans, |r.spans|, Occurrence(id, r.tokenIds))
  }

  /** Where record n starts when records are laid end to end. */
  ghost function StartOf(records: seq<PlannedRecord>, n: nat): nat
    requires n <= |records|
  {
    if n == 0 then 0 else StartOf(records, n - 1) + |records[n - 1].tokenIds|
  }

  /** The metadata of a payload is complete: a fact, a field and a text, none of them empty. */
  ghost predicate Described(s: S.Span, length: int) {
    && 0 <= s.start < s.end <= length
    && (exists fact: string :: s.factId == Some(fact) && fact != [])
    && (exists field: string :: s.field == Some(field) && field != [])
    && (exists text: string :: s.text == Some(text) && text != [])
  }

  lemma {:induction false} CountableIsDescribed(s: S.Span, length: int)
    ensures Countable(s, length) <==> Described(s, length)
  {
    if Countable(s, length) {
      assert s.factId == Some(s.factId.value) && s.field == Some(s.field.value) && s.text == Some(s.text.value);
    }
  }

  ghost predicate AllCountable(records: seq<PlannedRecord>) {
    forall i, j | 0 <= i < |records| && 0 <= j < |records[i].spans| && records[i].spans[j].role.Payload? ::
      Countable(records[i].spans[j], |records[i].tokenIds|)
  }

  ghost predicate AllDescribed(records: seq<PlannedRecord>) {
    forall i, s | 0 <= i < |records| && s in records[i].spans && s.role == S.Payload ::
      Described(s, |records[i].tokenIds|)
  }

  lemma {:induction false} CountableMeans(records: seq<PlannedRecord>)
    ensures AllCountable(records) <==> AllDescribed(records)
  {
    forall s, length
      ensures Countable(s, length) <==> Described(s, length)
    {
      CountableIsDescribed(s, length);
    }
    if AllDescribed(records) {
      forall i, j | 0 <= i < |records| && 0 <= j < |records[i].spans| && records[i].spans[j].role.Payload?
        ensures Countable(records[i].spans[j], |records[i].tokenIds|)
      {
        assert records[i].spans[j] in records[i].spans;
      }
    }
  }

  lemma {:induction false} StartPrefix(a: seq<PlannedRecord>, b: seq<PlannedRecord>, n: nat)
    requires n <= |a| && n <= |b| && forall i | 0 <= i < n :: a[i] == b[i]
    ensures StartOf(a, n) == StartOf(b, n)
  {
    if n > 0 {
      StartPrefix(a, b, n - 1);
    }
  }

  /** Records lie end to end and each can match its own Random demands. */
  ghost predicate Planned(records: seq<PlannedRecord>) {
    && (forall i {:trigger records[i].tokenStart} | 0 <= i < |records| :: records[i].tokenStart == StartOf(records, i))
    && (forall i {:trigger PlannedAlone(records[i])} | 0 <= i < |records| :: PlannedAlone(records[i]))
  }

  ghost predicate PlannedAlone(r: PlannedRecord) {
    r.component != "" && S.AllInDocument(r.spans, |r.tokenIds|) && S.Supplied(r.spans, |r.tokenIds|)
  }

  lemma StartsGrow(records: seq<PlannedRecord>, r: PlannedRecord, i: nat)
    requires i <= |records|
    ensures StartOf(records + [r], i) == StartOf(records, i)
  {
    StartPrefix(records + [r], records, i);
  }

  lemma {:induction false} PlanGrowsAt(records: seq<PlannedRecord>, r: PlannedRecord, i: nat, all: seq<PlannedRecord>)
    requires Planned(records) && PlannedAlone(r) && r.tokenStart == StartOf(records, |records|)
    requires all == records + [r] && i < |all|
    ensures all[i].tokenStart == StartOf(all, i) && PlannedAlone(all[i])
  {
    StartsGrow(records, r, i);
    if i < |records| {
      assert all[i] == records[i];
    }
  }

  lemma {:induction false} PlanGrows(records: seq<PlannedRecord>, r: PlannedRecord)
    requires Planned(records) && PlannedAlone(r) && r.tokenStart == StartOf(records, |records|)
    ensures Planned(records + [r])
    ensures StartOf(records + [r], |records| + 1) == StartOf(records, |records|) + |r.tokenIds|
  {
    var all := records + [r];
    forall i | 0 <= i < |all|
      ensures all[i].tokenStart == StartOf(all, i) && PlannedAlone(all[i])
    {
      PlanGrowsAt(records, r, i, all);
    }
    StartsGrow(records, r, |records|);
  }

  /** One record's payload spans, added to the counts. */
  method CountRecord(record: PlannedRecord, counts0: map<Identity, nat>) returns (ok: bool, counts: map<Identity, nat>)
    requires forall id | id in counts0 :: counts0[id] > 0
    ensures ok <==>
      forall j | 0 <= j < |record.spans| && record.spans[j].role.Payload? ::
      Countable(record.spans[j], |record.tokenIds|)
    ensures ok ==>
      forall id ::
        GetCount(counts, id) == GetCount(counts0, id)
        + S.Tally(record.spans, |record.spans|, Occurrence(id, record.tokenIds))
    ensures forall id | id in counts :: counts[id] > 0
  {
    counts := counts0;
    for j := 0 to |record.spans|
      invariant forall m | 0 <= m < j && record.spans[m].role.Payload? :: Countable(record.spans[m], |record.tokenIds|)
      invariant forall id ::
        GetCount(counts, id) == GetCount(counts0, id) + S.Tally(record.spans, j, Occurrence(id, record.tokenIds))
      invariant forall id | id in counts :: counts[id] > 0
    {
      var span := record.spans[j];
      if span.role.Payload? {
        if !Countable(span, |record.tokenIds|) {
          return false, counts;
        }
        var id := IdentityOf(span, record.tokenIds);
        counts := counts[id := GetCount(counts, id) + 1];
      }
    }
    return true, counts;
  }

  class SchedulePlanSpool {
    var records: seq<PlannedRecord>
    var totalTokens: nat
    var totalRecords: nat
    var closed: bool
    var sealed: bool

    ghost predicate Valid()
      reads this
    {
      totalRecords == |records| && totalTokens == StartOf(records, |records|) && Planned(records)
    }

    constructor ()
      ensures Valid() && records == [] && !closed && !sealed
    {
      records, totalTokens, totalRecords, closed, sealed := [], 0, 0, false, false;
    }

    /** Plans exactly the records with a component and a locally supplied Random mask. */
    method AddRecord(component: string, tokenIds: seq<Token>, spans: seq<S.Span>) returns (ok: bool)
      requires Valid()
      modifies this
      ensures Valid() && closed == old(closed) && sealed == old(sealed)
      ensures ok <==> !old(closed) && !old(sealed) && component != ""
                      && S.AllInDocument(spans, |tokenIds|) && S.Supplied(spans, |tokenIds|)
      ensures records == if ok then old(records) + [PlannedRecord(component, old(totalTokens), tokenIds, spans)]
        else old(records)
    {
      if closed || sealed || component == "" {
        return false;
      }
      var supply := S.RequireLocalSupply(spans, |tokenIds|);
      if !supply.Enough? {
        return false;
      }
      PlanGrows(records, PlannedRecord(component, totalTokens, tokenIds, spans));
      records := records + [PlannedRecord(component, totalTokens, tokenIds, spans)];
      totalTokens := totalTokens + |tokenIds|;
      totalRecords := totalRecords + 1;
      return true;
    }

    method Seal()
      requires Valid()
      modifies this`sealed
      ensures Valid() && sealed == (old(sealed) || !closed)
    {
      if !closed {
        sealed := true;
      }
    }

    /** The schedule file: one row per planned record. */
    method WriteSchedule() returns (lines: seq<PatternScan.Line>)
      requires Valid() && sealed && !closed
      ensures lines == ScheduleLines(records)
    {
      lines := seq(|records|, i requires 0 <= i < |records| reads this =>
        PatternScan.Row(Range(records[i].tokenStart, records[i].tokenStart + |records[i].tokenIds|)));
    }

    /** Counts every payload span of the plan by identity; fails on a payload without
        complete metadata. */
    method PayloadOccurrenceCounts() returns (counts: Option<map<Identity, nat>>)
      requires Valid() && sealed && !closed
      ensures counts.Some? <==> AllCountable(records)
      ensures counts.Some? ==> CountsOf(counts.value, records, |records|)
    {
      var tally: map<Identity, nat> := map[];
      for i := 0 to |records|
        invariant forall k, j | 0 <= k < i && 0 <= j < |records[k].spans| && records[k].spans[j].role.Payload? ::
          Countable(records[k].spans[j], |records[k].tokenIds|)
        invariant CountsOf(tally, records, i)
      {
        var ok;
        ok, tally := CountRecord(records[i], tally);
        if !ok {
          return None;
        }
      }
      return Some(tally);
    }
  }

  ghost function ScheduleLines(records: seq<PlannedRecord>): seq<PatternScan.Line> {
    seq(|records|, i requires 0 <= i < |records| =>
      PatternScan.Row(Range(records[i].tokenStart, records[i].tokenStart + |records[i].tokenIds|)))
  }

  function GetCount(counts: map<Identity, nat>, id: Identity): nat {
    if id in counts then counts[id] else 0
  }

  /** The counts are the positive occurrence counts of the first n records. */
  ghost predicate CountsOf(counts: map<Identity, nat>, records: seq<PlannedRecord>, n: nat)
    requires n <= |records|
  {
    && (forall id :: GetCount(counts, id) == Occurrences(records, n, id))
    && (forall id | id in counts :: counts[id] > 0)
  }
}
