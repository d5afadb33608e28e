/** The occurrence ledger: records are appended one by one, then Random candidates are
    selected key by key and the Random sidecar is zeroed in place (mask_ledger.py,
    OccurrenceSpool). The tables are fields that the methods reassign. */
module OccurrenceLedger {
  import opened Wrappers
  import opened Tokens
  import opened OccurrenceTable
  import S = Spans
  import ZeroRuns

  type Byte = ZeroRuns.Byte

  datatype AddResult = Accepted | Refused

  datatype FinalizeResult =
    | Finalized | ConnectionClosed | AlreadyFinalized | Undersupply(key: S.Key) | Misaligned | NotAllOnes

  // ----- rows for one record -----

  function RowOf(s: S.Span, recordIndex: int, component: string, globalStart: int, tokenIds: seq<Token>,
                 external: int -> bool): SpanRow
    requires S.InDocument(s, |tokenIds|)
  {
    SpanRow(recordIndex, component, globalStart + s.start, globalStart + s.end, S.KeyOf(s, |tokenIds|), s.role,
            s.factId, s.field, s.text, S.MaskedBySelective(s, external),
            if s.role.Payload? then tokenIds[s.start..s.end] else [])
  }

  function RowsOf(sorted: seq<S.Span>, recordIndex: int, component: string, globalStart: int, tokenIds: seq<Token>,
                  external: int -> bool): (rows: seq<SpanRow>)
    requires S.AllInDocument(sorted, |tokenIds|)
    ensures |rows| == |sorted|
    ensures forall i | 0 <= i < |rows| ::
      rows[i] == RowOf(sorted[i], recordIndex, component, globalStart, tokenIds, external)
  {
    seq(|sorted|, i requires 0
      <= i < |sorted| => RowOf(sorted[i], recordIndex, component, globalStart, tokenIds, external))
  }

  /** What a row says of its span: its place in the stream, its length and the tenth of the
      document that holds its midpoint, whether its fact goes to the store, and its tokens. */
  ghost predicate RowSays(row: SpanRow, s: S.Span, recordIndex: int, component: string, globalStart: int,
                          tokenIds: seq<Token>, external: int -> bool) {
    && row.recordIndex == recordIndex && row.component == component
    && row.start == globalStart + s.start && row.end == globalStart + s.end
    && row.role == s.role && row.factId == s.factId && row.field == s.field && row.text == s.text
    && S.Fits(s, row.role, row.key.length, row.key.bin, |tokenIds|)
    && (row.selective <==> match s.factCost case Some(cost) => s.role == S.Payload && external(cost) case None => false)
    && row.tokenBytes == if s.role == S.Payload then tokenIds[s.start..s.end] else []
  }

  lemma {:induction false} RowsSay(sorted: seq<S.Span>, recordIndex: int, component: string, globalStart: int,
                                   tokenIds: seq<Token>, external: int -> bool)
    requires S.AllInDocument(sorted, |tokenIds|)
    ensures forall i | 0 <= i < |sorted| ::
      RowSays(RowsOf(sorted, recordIndex, component, globalStart, tokenIds, external)[i], sorted[i], recordIndex,
              component, globalStart, tokenIds, external)
  {
  }

  lemma AppendValid(rows: seq<SpanRow>, total: int, sorted: seq<S.Span>, recordIndex: int, component: string,
                    tokenIds: seq<Token>, external: int -> bool)
    requires TableValid(rows, total) && total >= 0
    requires S.Disjoint(sorted) && S.AllInDocument(sorted, |tokenIds|)
    ensures TableValid(rows + RowsOf(sorted, recordIndex, component, total, tokenIds, external), total + |tokenIds|)
  {
    var more := RowsOf(sorted, recordIndex, component, total, tokenIds, external);
    var all := rows + more;
    forall i, j | 0 <= i < j < |all|
      ensures all[i].end <= all[j].start
    {
      if i >= |rows| {
        assert all[i] == more[i - |rows|] && all[j] == more[j - |rows|];
      }
    }
  }

  // ----- choosing the lowest-ranked candidates -----

  /** SQL's ORDER BY mask_selection_rank(span_id), span_id. */
  ghost predicate Precedes(rank: nat -> nat, a: nat, b: nat) {
    rank(a + 1) < rank(b + 1) || (rank(a + 1) == rank(b + 1) && a < b)
  }

  /** `chosen` holds `count` members of the pool, and everything left out has a higher rank, or
      the same rank and a later row. */
  ghost predicate Lowest(rank: nat -> nat, pool: set<nat>, count: nat, chosen: set<nat>) {
    && chosen <= pool && |chosen| == count
    && forall a, b | a in chosen && b in pool - chosen :: Precedes(rank, a, b)
  }

  lemma {:induction false} FirstExists(rank: nat -> nat, pool: set<nat>) returns (first: nat)
    requires pool != {}
    ensures first in pool && forall o | o in pool && o != first :: Precedes(rank, first, o)
    decreases pool
  {
    var x :| x in pool;
    var rest := pool - {x};
    first := x;
    assert forall o | o in pool :: o == x || o in rest;
    if rest != {} {
      var other := FirstExists(rank, rest);
      first := if Precedes(rank, other, x) then other else x;
      forall o | o in pool && o != first
        ensures Precedes(rank, first, o)
      {
        assert o == x || o in rest;
        assert o != other && o in rest ==> Precedes(rank, other, o);
      }
    }
  }

  /** The first row of the query. */
  method FirstOf(rank: nat -> nat, pool: set<nat>) returns (first: nat)
    requires pool != {}
    ensures first in pool && forall o | o in pool && o != first :: Precedes(rank, first, o)
  {
    ghost var witness_ := FirstExists(rank, pool);
    assert forall o | o in pool && o != witness_ :: Precedes(rank, witness_, o);
    first :| first in pool && forall o | o in pool && o != first ::
      rank(first + 1) < rank(o + 1) || (rank(first + 1) == rank(o + 1) && first < o);
  }

  method ChooseLowest(rank: nat -> nat, pool: set<nat>, count: nat) returns (chosen: set<nat>)
    requires count <= |pool|
    ensures Lowest(rank, pool, count, chosen)
  {
    chosen := {};
    while |chosen| < count
      invariant |chosen| <= count && Lowest(rank, pool, |chosen|, chosen)
    {
      var rest := pool - chosen;
      assert |pool| == |chosen| + |rest| by {
        assert pool == chosen + rest;
      }
      var next := FirstOf(rank, rest);
      chosen := chosen + {next};
    }
  }

  // ----- the spool -----

  /** Per key, as many candidates are selected as there are demands, and they are the
      lowest-ranked candidates of that key. */
  ghost predicate Matched(rows: seq<SpanRow>, rank: nat -> nat, demands: set<nat>, candidates: set<nat>,
                          selected: set<nat>) {
    forall key :: Lowest(rank, ByKey(rows, candidates, key), |ByKey(rows, demands, key)|, ByKey(rows, selected, key))
  }

  /** The same while the keys `todo` are still to be selected. */
  ghost predicate PartlyMatched(rows: seq<SpanRow>, rank: nat -> nat, demands: set<nat>, candidates: set<nat>,
                                chosen: set<nat>, todo: set<S.Key>)
  {
    forall key {:trigger ByKey(rows, chosen, key)} ::
      if key in todo then ByKey(rows, chosen, key) == {}
      else Lowest(rank, ByKey(rows, candidates, key), |ByKey(rows, demands, key)|, ByKey(rows, chosen, key))
  }

  lemma MatchedMore(rows: seq<SpanRow>, rank: nat -> nat, demands: set<nat>, candidates: set<nat>,
                    chosen: set<nat>, more: set<nat>, todo: set<S.Key>, key: S.Key)
    requires PartlyMatched(rows, rank, demands, candidates, chosen, todo) && key in todo
    requires Lowest(rank, ByKey(rows, candidates, key), |ByKey(rows, demands, key)|, ByKey(rows, more, key))
    requires forall other | other != key :: ByKey(rows, more, other) == ByKey(rows, chosen, other)
    ensures PartlyMatched(rows, rank, demands, candidates, more, todo - {key})
  {
  }

  lemma MatchedStart(rows: seq<SpanRow>, rank: nat -> nat, demands: set<nat>, candidates: set<nat>, todo: set<S.Key>)
    requires forall key | key !in todo :: ByKey(rows, demands, key) == {}
    ensures PartlyMatched(rows, rank, demands, candidates, {}, todo)
  {
    forall key ensures ByKey(rows, {}, key) == {} {
    }
  }

  ghost predicate Enough(rows: seq<SpanRow>, demands: set<nat>, candidates: set<nat>) {
    forall key :: |ByKey(rows, demands, key)| <= |ByKey(rows, candidates, key)|
  }

  lemma {:induction false} PrecedesOneWay(rank: nat -> nat, a: nat, b: nat)
    ensures !(Precedes(rank, a, b) && Precedes(rank, b, a))
  {
  }

  /** Ranks and span ids decide: there is only one lowest choice. */
  lemma {:induction false} LowestUnique(rank: nat -> nat, pool: set<nat>, count: nat, a: set<nat>, b: set<nat>)
    requires Lowest(rank, pool, count, a) && Lowest(rank, pool, count, b)
    ensures a == b
  {
    if a != b {
      DifferentMembers(a, b);
      var x :| x in a && x !in b;
      var y :| y in b && y !in a;
      PrecedesOneWay(rank, x, y);
      assert false;
    }
  }

  lemma {:induction false} DifferentMembers(a: set<nat>, b: set<nat>)
    requires |a| == |b| && a != b
    ensures (exists x :: x in a && x !in b) && exists y :: y in b && y !in a
  {
    assert a - b + (a * b) == a && b - a + (a * b) == b;
    assert a - b == {} <==> b - a == {};
    if a - b != {} {
      var x :| x in a - b;
      var y :| y in b - a;
    }
  }

  lemma {:induction false} LowestExists(rank: nat -> nat, pool: set<nat>, count: nat)
    requires count <= |pool|
    ensures exists chosen :: Lowest(rank, pool, count, chosen)
    decreases count
  {
    if count == 0 {
      assert Lowest(rank, pool, 0, {});
    } else {
      LowestExists(rank, pool, count - 1);
      var chosen :| Lowest(rank, pool, count - 1, chosen);
      var rest := pool - chosen;
      assert pool == chosen + rest;
      var first := FirstExists(rank, rest);
      assert Lowest(rank, pool, count, chosen + {first});
    }
  }

  ghost function LowestOf(rank: nat -> nat, pool: set<nat>, count: nat): (chosen: set<nat>)
    requires count <= |pool|
    ensures Lowest(rank, pool, count, chosen)
  {
    LowestExists(rank, pool, count);
    var chosen :| Lowest(rank, pool, count, chosen);
    chosen
  }

  /** The controls that finalize_random selects, read off the tables. */
  ghost function Selection(rows: seq<SpanRow>, rank: nat -> nat, demands: set<nat>, candidates: set<nat>): set<nat>
    requires Enough(rows, demands, candidates)
  {
    set i | i in candidates && i < |rows|
      && i in LowestOf(rank, ByKey(rows, candidates, rows[i].key), |ByKey(rows, demands, rows[i].key)|)
  }

  lemma {:induction false} SelectionOfKey(rows: seq<SpanRow>, rank: nat -> nat, demands: set<nat>, candidates: set<nat>,
                                          key: S.Key, chosen: set<nat>)
    requires Enough(rows, demands, candidates)
    requires Lowest(rank, ByKey(rows, candidates, key), |ByKey(rows, demands, key)|, chosen)
    ensures ByKey(rows, Selection(rows, rank, demands, candidates), key) == chosen
  {
    LowestUnique(rank, ByKey(rows, candidates, key), |ByKey(rows, demands, key)|, chosen,
                 LowestOf(rank, ByKey(rows, candidates, key), |ByKey(rows, demands, key)|));
  }

  /** Whatever is matched key by key is that selection. */
  lemma {:induction false} MatchedIsSelection(rows: seq<SpanRow>, rank: nat -> nat, demands: set<nat>,
                                              candidates: set<nat>, chosen: set<nat>)
    requires Enough(rows, demands, candidates) && Matched(rows, rank, demands, candidates, chosen)
    requires forall i | i in chosen :: i < |rows|
    ensures chosen == Selection(rows, rank, demands, candidates)
  {
    var selection := Selection(rows, rank, demands, candidates);
    forall i | i in chosen || i in selection
      ensures i in chosen <==> i in selection
    {
      assert Lowest(rank, ByKey(rows, candidates, rows[i].key), |ByKey(rows, demands, rows[i].key)|,
        ByKey(rows, chosen, rows[i].key));
      SelectionOfKey(rows, rank, demands, candidates, rows[i].key, ByKey(rows, chosen, rows[i].key));
      assert i in ByKey(rows, chosen, rows[i].key) <==> i in ByKey(rows, selection, rows[i].key);
    }
  }

  /** Some weight under these rows is not one. */
  ghost predicate Spoiled(sidecar: seq<Byte>, rows: seq<SpanRow>, ids: set<nat>) {
    exists p :: 0 <= p < |sidecar| && Masked(rows, ids, p) && sidecar[p] != 1
  }

  /** A spoiled choice stays spoiled in any larger one. */
  lemma {:induction false} SpoiledGrows(sidecar: seq<Byte>, rows: seq<SpanRow>, some: set<nat>, all: set<nat>)
    requires some <= all && Spoiled(sidecar, rows, some)
    ensures Spoiled(sidecar, rows, all)
  {
    var p :| 0 <= p < |sidecar| && Masked(rows, some, p) && sidecar[p] != 1;
    assert Masked(rows, all, p);
  }

  /** Choosing more rows: what is spoiled under either is spoiled under both, since rows already
      zeroed do not meet the new ones. */
  lemma {:induction false} SpoiledJoins(before: seq<Byte>, middle: seq<Byte>, rows: seq<SpanRow>, already: set<nat>,
                                        chosen: set<nat>)
    requires TableValid(rows, |before|) && Zeroed(before, middle, rows, already) && already !! chosen
    requires forall i | i in chosen :: i < |rows|
    ensures Spoiled(middle, rows, chosen) <==> Spoiled(before, rows, chosen)
    ensures Spoiled(before, rows, already + chosen) <==> Spoiled(before, rows, already) || Spoiled(before, rows, chosen)
  {
    forall p | 0 <= p < |before| && Masked(rows, chosen, p)
      ensures middle[p] == before[p]
    {
      var i :| i in chosen && i < |rows| && rows[i].start <= p < rows[i].end;
      RolesApart(rows, |before|, already, i, p);
    }
    forall p | 0 <= p < |before|
      ensures Masked(rows, already + chosen, p) <==> Masked(rows, already, p) || Masked(rows, chosen, p)
    {
    }
  }

  /** The sidecar after zeroing the rows `ids`. */
  ghost predicate Zeroed(before: seq<Byte>, after: seq<Byte>, rows: seq<SpanRow>, ids: set<nat>) {
    && |after| == |before|
    && forall p | 0 <= p < |before| :: after[p] == if Masked(rows, ids, p) then 0 else before[p]
  }

  lemma ChosenByKey(rows: seq<SpanRow>, pool: set<nat>, key: S.Key, already: set<nat>, chosen: set<nat>)
    requires chosen <= pool && ByKey(rows, already, key) == {}
    requires forall i | i in pool :: i < |rows| && rows[i].key == key
    ensures ByKey(rows, already + chosen, key) == chosen
    ensures forall other | other != key :: ByKey(rows, already + chosen, other) == ByKey(rows, already, other)
  {
    forall other | other != key
      ensures ByKey(rows, already + chosen, other) == ByKey(rows, already, other)
    {
    }
  }

  lemma ZeroedMore(before: seq<Byte>, middle: seq<Byte>, after: seq<Byte>, rows: seq<SpanRow>, already: set<nat>,
                   chosen: set<nat>)
    requires Zeroed(before, middle, rows, already) && Zeroed(middle, after, rows, chosen)
    ensures Zeroed(before, after, rows, already + chosen)
  {
    forall p | 0 <= p < |before|
      ensures Masked(rows, already + chosen, p) <==> Masked(rows, already, p) || Masked(rows, chosen, p)
    {
    }
  }

  class OccurrenceSpool {
    var spans: seq<SpanRow>
    var demands: set<nat>
    var candidates: set<nat>
    var selected: set<nat>
    var finalized: bool
    var nextStart: nat
    var nextRecord: nat
    var nextSpanId: nat
    var closed: bool

    ghost predicate Valid()
      reads this
    {
      && TableValid(spans, nextStart) && nextSpanId == |spans| + 1
      && demands == Having(spans, S.Payload) && candidates == Having(spans, S.RandomControl)
      && selected <= candidates && (!finalized ==> selected == {})
    }

    constructor ()
      ensures Valid() && spans == [] && nextStart == 0 && nextRecord == 0 && !finalized && !closed
    {
      spans, demands, candidates, selected := [], {}, {}, {};
      finalized, closed := false, false;
      nextStart, nextRecord, nextSpanId := 0, 0, 1;
      new;
      assert Having([], S.Payload) == {} && Having([], S.RandomControl) == {};
    }

    /** Accepts exactly the next contiguous record whose spans are well formed and reach its
        last token; then appends one row per span, in token order. */
    method AddRecord(component: string, recordIndex: int, globalStart: int, tokenIds: seq<Token>,
                     recordSpans: seq<S.Span>, external: int -> bool)
      returns (r: AddResult)
      requires Valid()
      modifies this
      ensures Valid()
      ensures r.Accepted? <==>
        !old(closed) && component != "" && recordIndex == old(nextRecord) && globalStart == old(nextStart)
        && S.WellFormed(multiset(recordSpans)) && S.LastEnd(S.SortSpans(recordSpans)) == |tokenIds|
      ensures r.Accepted? ==>
        S.Disjoint(S.SortSpans(recordSpans)) && S.AllInDocument(S.SortSpans(recordSpans), |tokenIds|)
      ensures r.Accepted? ==>
        spans == old(spans) + RowsOf(S.SortSpans(recordSpans), recordIndex, component, globalStart, tokenIds, external)
      ensures r.Accepted? ==> nextStart == old(nextStart) + |tokenIds| && nextRecord == old(nextRecord) + 1
      ensures r.Refused? ==> spans == old(spans) && nextStart == old(nextStart) && nextRecord == old(nextRecord)
      ensures selected == old(selected) && finalized == old(finalized) && closed == old(closed)
    {
      if closed || component == "" || recordIndex != nextRecord || globalStart != nextStart {
        return Refused;
      }
      var measured := S.ValidatedLength(recordSpans);
      if measured.BadSpan? || measured.length != |tokenIds| {
        return Refused;
      }
      var sorted := S.SortSpans(recordSpans);
      var rows := RowsOf(sorted, recordIndex, component, globalStart, tokenIds, external);
      AppendValid(spans, nextStart, sorted, recordIndex, component, tokenIds, external);
      InsertRows(rows, |tokenIds|);
      return Accepted;
    }

    /** The transaction: the new rows, their demands and their candidates. */
    method InsertRows(rows: seq<SpanRow>, tokenCount: nat)
      requires Valid() && TableValid(spans + rows, nextStart + tokenCount)
      modifies this
      ensures Valid() && spans == old(spans) + rows
      ensures nextStart == old(nextStart) + tokenCount && nextRecord == old(nextRecord) + 1
      ensures selected == old(selected) && finalized == old(finalized) && closed == old(closed)
    {
      HavingAppend(spans, rows, S.Payload);
      HavingAppend(spans, rows, S.RandomControl);
      var before := |spans|;
      spans := spans + rows;
      demands := demands + HavingFrom(spans, before, S.Payload);
      candidates := candidates + HavingFrom(spans, before, S.RandomControl);
      nextStart := nextStart + tokenCount;
      nextRecord := nextRecord + 1;
      nextSpanId := nextSpanId + |rows|;
    }

    /** The exact shortfall of every undersupplied key, and of no other key. */
    method RandomDeficits() returns (deficits: Option<map<S.Key, nat>>)
      requires Valid()
      ensures deficits.None? <==> closed
      ensures deficits.Some? ==> forall key ::
        key in deficits.value <==> |ByKey(spans, candidates, key)| < |ByKey(spans, demands, key)|
      ensures deficits.Some? ==> forall key | key in deficits.value ::
        deficits.value[key] == |ByKey(spans, demands, key)| - |ByKey(spans, candidates, key)|
      ensures deficits.Some? ==> (deficits.value == map[] <==> Enough(spans, demands, candidates))
    {
      if closed {
        return None;
      }
      var demandCounts, candidateCounts := KeyCounts(spans, demands), KeyCounts(spans, candidates);
      var shortfalls := map key | key in demandCounts && S.Get(candidateCounts, key) < demandCounts[key] ::
        demandCounts[key] - S.Get(candidateCounts, key);
      return Some(shortfalls);
    }

    /** Reads back one range, refuses unless it is all ones, then zeroes it. */
    method ZeroRange(sidecar: array<Byte>, start: int, end: int) returns (ok: bool)
      requires 0 <= start <= end <= sidecar.Length
      modifies sidecar
      ensures ok <==> forall p | start <= p < end :: old(sidecar[p]) == 1
      ensures forall p | 0 <= p < sidecar.Length :: sidecar[p] == if ok && start <= p < end then 0 else old(sidecar[p])
    {
      if exists p | start <= p < end :: sidecar[p] != 1 {
        return false;
      }
      for p := start to end
        invariant forall q | 0 <= q < sidecar.Length :: sidecar[q] == if start <= q < p then 0 else old(sidecar[q])
      {
        sidecar[p] := 0;
      }
      return true;
    }

    /** Zeroes the ranges of the chosen rows in token order, counting them. */
    method ZeroChosen(sidecar: array<Byte>, chosen: set<nat>) returns (ok: bool, count: nat)
      requires Valid() && sidecar.Length == nextStart && forall i | i in chosen :: i < |spans|
      modifies sidecar
      ensures ok ==> Zeroed(old(sidecar[..]), sidecar[..], spans, chosen) && count == |chosen|
      ensures ok <==> !Spoiled(old(sidecar[..]), spans, chosen)
    {
      count := 0;
      ghost var written: set<nat> := {};
      for i := 0 to |spans|
        invariant written == UpTo(chosen, i) && count == |written|
        invariant Zeroed(old(sidecar[..]), sidecar[..], spans, written) && !Spoiled(old(sidecar[..]), spans, written)
      {
        UpToStep(chosen, i);
        if i in chosen {
          label Before:
          ok := ZeroRange(sidecar, spans[i].start, spans[i].end);
          SpoiledJoins(old(sidecar[..]), old@Before(sidecar[..]), spans, written, {i});
          if !ok {
            ghost var p :| spans[i].start <= p < spans[i].end && old@Before(sidecar[..])[p] != 1;
            assert Masked(spans, {i}, p);
            SpoiledGrows(old(sidecar[..]), spans, {i}, chosen);
            return;
          }
          written := written + {i};
          count := count + 1;
        }
      }
      assert written == chosen;
      ok := true;
    }

    /** One key: choose its lowest-ranked candidates and zero their ranges. */
    method SelectKey(sidecar: array<Byte>, rank: nat -> nat, key: S.Key, count: nat, ghost before: seq<Byte>,
                     already: set<nat>)
      returns (ok: bool, newSelected: set<nat>)
      requires Valid() && sidecar.Length == nextStart
      requires already <= candidates && ByKey(spans, already, key) == {}
      requires count <= |ByKey(spans, candidates, key)|
      requires Zeroed(before, sidecar[..], spans, already) && !Spoiled(before, spans, already)
      modifies sidecar
      ensures ok ==> already <= newSelected <= candidates && Zeroed(before, sidecar[..], spans, newSelected)
      ensures ok ==> Lowest(rank, ByKey(spans, candidates, key), count, ByKey(spans, newSelected, key))
      ensures ok ==> forall other | other != key :: ByKey(spans, newSelected, other) == ByKey(spans, already, other)
      ensures ok <==> !Spoiled(before, spans, newSelected)
      ensures Lowest(rank, ByKey(spans, candidates, key), count, newSelected - already)
    {
      var pool := ByKey(spans, candidates, key);
      var chosen := ChooseLowest(rank, pool, count);
      var zeroedCount;
      ok, zeroedCount := ZeroChosen(sidecar, chosen);
      newSelected := already + chosen;
      assert already !! chosen && newSelected - already == chosen;
      SpoiledJoins(before, old(sidecar[..]), spans, already, chosen);
      if !ok {
        return;
      }
      // The source counts the selected rows again; the count cannot disagree.
      assert zeroedCount == count;
      ChosenByKey(spans, pool, key, already, chosen);
      ZeroedMore(before, old(sidecar[..]), sidecar[..], spans, already, chosen);
    }

    /** The supply check over all demanded keys. */
    method FirstShortfall() returns (short: Option<S.Key>)
      requires Valid()
      ensures short.None? <==> Enough(spans, demands, candidates)
      ensures short.Some? ==> |ByKey(spans, candidates, short.value)| < |ByKey(spans, demands, short.value)|
    {
      var demandCounts, candidateCounts := KeyCounts(spans, demands), KeyCounts(spans, candidates);
      if exists key | key in demandCounts :: S.Get(candidateCounts, key) < demandCounts[key] {
        var key :| key in demandCounts && S.Get(candidateCounts, key) < demandCounts[key];
        return Some(key);
      }
      return None;
    }

    /** The selection loop over the demanded keys. */
    method SelectAll(sidecar: array<Byte>, rank: nat -> nat) returns (ok: bool, chosen: set<nat>)
      requires Valid() && sidecar.Length == nextStart && Enough(spans, demands, candidates)
      modifies sidecar
      ensures ok ==> chosen <= candidates && Matched(spans, rank, demands, candidates, chosen)
      ensures ok ==> Zeroed(old(sidecar[..]), sidecar[..], spans, chosen)
      ensures ok <==> !Spoiled(old(sidecar[..]), spans, Selection(spans, rank, demands, candidates))
      ensures ok ==> chosen == Selection(spans, rank, demands, candidates)
    {
      var demandCounts := KeyCounts(spans, demands);
      var keys := demandCounts.Keys;
      chosen := {};
      ghost var before := sidecar[..];
      MatchedStart(spans, rank, demands, candidates, keys);
      while keys != {}
        invariant keys <= demandCounts.Keys && chosen <= candidates
        invariant PartlyMatched(spans, rank, demands, candidates, chosen, keys)
        invariant Zeroed(before, sidecar[..], spans, chosen) && !Spoiled(before, spans, chosen)
      {
        var key :| key in keys;
        var newChosen;
        ok, newChosen := SelectKey(sidecar, rank, key, demandCounts[key], before, chosen);
        if !ok {
          SpoiledSelection(before, chosen, newChosen, rank, key);
          return;
        }
        MatchedMore(spans, rank, demands, candidates, chosen, newChosen, keys, key);
        chosen := newChosen;
        keys := keys - {key};
      }
      ok := true;
      MatchedIsSelection(spans, rank, demands, candidates, chosen);
    }

    /** What spoils one key's choice spoils the selection. */
    lemma SpoiledSelection(before: seq<Byte>, chosen: set<nat>, newChosen: set<nat>, rank: nat -> nat, key: S.Key)
      requires Valid() && Enough(spans, demands, candidates) && |before| == nextStart
      requires !Spoiled(before, spans, chosen) && Spoiled(before, spans, newChosen)
      requires Lowest(rank, ByKey(spans, candidates, key), |ByKey(spans, demands, key)|, newChosen - chosen)
      ensures Spoiled(before, spans, Selection(spans, rank, demands, candidates))
    {
      var p :| 0 <= p < |before| && Masked(spans, newChosen, p) && before[p] != 1;
      assert Masked(spans, newChosen - chosen, p);
      SelectionOfKey(spans, rank, demands, candidates, key, newChosen - chosen);
      SpoiledGrows(before, spans, newChosen - chosen, Selection(spans, rank, demands, candidates));
    }

    /** Random-mask matching. It fails before touching anything when the spool is closed, when it
        has already run, when some key is undersupplied or when the sidecar has the wrong length, and leaves the
        tables alone when some position to be masked is not one. Otherwise exactly the selected
        candidates are zeroed, and they match the demands key by key. */
    method FinalizeRandom(sidecar: array<Byte>, rank: nat -> nat) returns (r: FinalizeResult)
      requires Valid()
      modifies this, sidecar
      ensures Valid() && spans == old(spans) && demands == old(demands) && candidates == old(candidates)
      ensures nextStart == old(nextStart) && nextRecord == old(nextRecord) && closed == old(closed)
      ensures r.ConnectionClosed? <==> old(closed)
      ensures r.AlreadyFinalized? <==> !old(closed) && old(finalized)
      ensures r.Undersupply? <==> !old(closed) && !old(finalized) && !Enough(spans, demands, candidates)
      ensures r.Undersupply? ==> |ByKey(spans, candidates, r.key)| < |ByKey(spans, demands, r.key)|
      ensures r.Misaligned? <==>
        !old(closed) && !old(finalized) && Enough(spans, demands, candidates) && sidecar.Length != nextStart
      ensures r.NotAllOnes? <==>
        && !old(closed) && !old(finalized) && Enough(spans, demands, candidates) && sidecar.Length == nextStart
        && Spoiled(old(sidecar[..]), spans, Selection(spans, rank, demands, candidates))
      ensures r.Finalized? ==> finalized && Matched(spans, rank, demands, candidates, selected)
      ensures r.Finalized? ==>
        Enough(spans, demands, candidates) && selected == Selection(spans, rank, demands, candidates)
      ensures r.Finalized? ==> Zeroed(old(sidecar[..]), sidecar[..], spans, selected)
      ensures !r.Finalized? ==> selected == old(selected) && finalized == old(finalized)
      ensures !r.Finalized? && !r.NotAllOnes? ==> sidecar[..] == old(sidecar[..])
    {
      if closed {
        return ConnectionClosed;
      }
      if finalized {
        return AlreadyFinalized;
      }
      var short := FirstShortfall();
      if short.Some? {
        return Undersupply(short.value);
      }
      if sidecar.Length != nextStart {
        return Misaligned;
      }
      var ok, chosen := SelectAll(sidecar, rank);
      if !ok {
        return NotAllOnes;
      }
      selected, finalized := chosen, true;
      return Finalized;
    }
  }

  ghost function UpTo(ids: set<nat>, n: nat): (some: set<nat>)
    ensures forall i: nat :: i in some <==> i in ids && i < n
  {
    set i | i in ids && i < n
  }

  lemma UpToStep(ids: set<nat>, n: nat)
    ensures UpTo(ids, n + 1) == if n in ids then UpTo(ids, n) + {n} else UpTo(ids, n)
  {
  }
}
