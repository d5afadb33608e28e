/** The tables and files that a frozen plan is to become, and the weights of the published
    sidecars read off the planned spans themselves (relational_build.py, from plan.seal to
    writer.finalize; mask_ledger.py, should_mask and finalize_random). */
module PlanTable {
  import opened Wrappers
  import opened Tokens
  import opened OccurrenceTable
  import opened SchedulePlan
  import opened SidecarAudit
  import S = Spans
  import L = OccurrenceLedger

  // ----- what the plan promises to become -----

  ghost function StreamOf(records: seq<PlannedRecord>, n: nat): seq<Token>
    requires n <= |records|
  {
    if n == 0 then [] else StreamOf(records, n - 1) + records[n - 1].tokenIds
  }

  ghost predicate Sortable(records: seq<PlannedRecord>, n: nat) {
    n <= |records| && forall i | 0 <= i < n :: S.AllInDocument(S.SortSpans(records[i].spans), |records[i].tokenIds|)
  }

  ghost function TableOf(records: seq<PlannedRecord>, n: nat, external: int -> bool): seq<SpanRow>
    requires Sortable(records, n)
  {
    if n == 0 then []
    else
      var r := records[n - 1];
      TableOf(records, n - 1, external) +
      L.RowsOf(S.SortSpans(r.spans), n - 1, r.component, StartOf(records, n - 1), r.tokenIds, external)
  }

  lemma {:induction false} PlannedSortable(records: seq<PlannedRecord>, n: nat)
    requires Planned(records) && n <= |records|
    ensures Sortable(records, n)
  {
    forall i | 0 <= i < n
      ensures S.AllInDocument(S.SortSpans(records[i].spans), |records[i].tokenIds|)
    {
      assert PlannedAlone(records[i]);
      SortedInDocument(records[i].spans, |records[i].tokenIds|);
    }
  }

  lemma {:induction false} SortedInDocument(spans: seq<S.Span>, length: int)
    requires S.AllInDocument(spans, length)
    ensures S.AllInDocument(S.SortSpans(spans), length)
  {
    var sorted := S.SortSpans(spans);
    S.SortPermutes(spans);
    forall i | 0 <= i < |sorted|
      ensures S.InDocument(sorted[i], length)
    {
      assert sorted[i] in multiset(spans);
    }
  }

  lemma {:induction false} StreamLength(records: seq<PlannedRecord>, n: nat)
    requires n <= |records|
    ensures |StreamOf(records, n)| == StartOf(records, n)
  {
    if n > 0 {
      StreamLength(records, n - 1);
    }
  }

  /** The records lie end to end in the stream, and nothing else does. */
  ghost predicate Streamed(records: seq<PlannedRecord>, tokens: seq<Token>) {
    && (records == [] ==> tokens == [])
    && (records != [] ==> records[0].tokenStart == 0)
    && (forall i {:trigger records[i].tokenStart} | 0 <= i < |records| ::
         && records[i].tokenStart + |records[i].tokenIds| <= |tokens|
         && tokens[records[i].tokenStart..][..|records[i].tokenIds|] == records[i].tokenIds
         && records[i].tokenStart + |records[i].tokenIds|
            == if i + 1 < |records| then records[i + 1].tokenStart else |tokens|)
  }

  lemma {:induction false} StreamOfAt(records: seq<PlannedRecord>, n: nat, i: nat)
    requires i < n <= |records|
    ensures |StreamOf(records, n)| == StartOf(records, n) >= StartOf(records, i) + |records[i].tokenIds|
    ensures StreamOf(records, n)[StartOf(records, i)..][..|records[i].tokenIds|] == records[i].tokenIds
  {
    StreamLength(records, n);
    StreamLength(records, n - 1);
    if i < n - 1 {
      StreamOfAt(records, n - 1, i);
      var before, start, size := StreamOf(records, n - 1), StartOf(records, i), |records[i].tokenIds|;
      assert (before + records[n - 1].tokenIds)[start..][..size] == before[start..][..size];
    }
  }

  lemma {:induction false} StreamIsStreamed(records: seq<PlannedRecord>, tokens: seq<Token>)
    requires Planned(records) && tokens == StreamOf(records, |records|)
    ensures Streamed(records, tokens)
  {
    StreamLength(records, |records|);
    forall i {:trigger records[i].tokenStart} | 0 <= i < |records|
      ensures records[i].tokenStart + |records[i].tokenIds| <= |tokens|
      ensures tokens[records[i].tokenStart..][..|records[i].tokenIds|] == records[i].tokenIds
      ensures records[i].tokenStart + |records[i].tokenIds|
           == if i + 1 < |records| then records[i + 1].tokenStart else |tokens|
    {
      StreamOfAt(records, |records|, i);
      assert StartOf(records, i + 1) == StartOf(records, i) + |records[i].tokenIds|;
    }
  }

  // ----- planned spans in the order of the ledger -----

  /** One span of one planned record. */
  datatype Place = Place(record: nat, span: S.Span)

  /** The spans of the first n records in token order, each once. */
  ghost predicate Ledgered(records: seq<PlannedRecord>, n: nat, places: seq<Place>)
    requires n <= |records|
  {
    && (forall j | 0 <= j < |places| ::
         places[j].record < n && places[j].span in records[places[j].record].spans)
    && (forall j, l | 0 <= j < l < |places| ::
         places[j].record < places[l].record
         || (places[j].record == places[l].record && places[j].span.end <= places[l].span.start))
    && (forall i, s | 0 <= i < n && s in records[i].spans :: Place(i, s) in places)
  }

  ghost function PlacesOf(records: seq<PlannedRecord>, n: nat): seq<Place>
    requires n <= |records|
  {
    if n == 0 then [] else PlacesOf(records, n - 1) + PlacesIn(n - 1, S.SortSpans(records[n - 1].spans))
  }

  ghost function PlacesIn(record: nat, sorted: seq<S.Span>): (places: seq<Place>)
    ensures |places| == |sorted| && forall j | 0 <= j < |places| :: places[j] == Place(record, sorted[j])
  {
    seq(|sorted|, j requires 0 <= j < |sorted| => Place(record, sorted[j]))
  }

  ghost predicate AllDisjoint(records: seq<PlannedRecord>, n: nat) {
    n <= |records| && forall i | 0 <= i < n :: S.Disjoint(S.SortSpans(records[i].spans))
  }

  /** A record's sorted spans are its own spans, each once. */
  lemma {:induction false} SortedSpans(spans: seq<S.Span>)
    ensures forall s :: s in S.SortSpans(spans) <==> s in spans
  {
    S.SortPermutes(spans);
    forall s
      ensures s in S.SortSpans(spans) <==> s in spans
    {
      assert s in multiset(S.SortSpans(spans)) <==> s in multiset(spans);
    }
  }

  lemma {:induction false} MorePlacesKnown(records: seq<PlannedRecord>, n: nat, before: seq<Place>, more: seq<Place>,
                                           j: nat)
    requires n < |records| && Ledgered(records, n, before)
    requires more == PlacesIn(n, S.SortSpans(records[n].spans)) && j < |before + more|
    ensures var place := (before + more)[j]; place.record < n + 1 && place.span in records[place.record].spans
  {
    SortedSpans(records[n].spans);
    if j >= |before| {
      assert S.SortSpans(records[n].spans)[j - |before|] in S.SortSpans(records[n].spans);
    }
  }

  lemma {:induction false} MorePlacesCover(records: seq<PlannedRecord>, n: nat, before: seq<Place>, more: seq<Place>,
                                           i: nat, s: S.Span)
    requires n < |records| && Ledgered(records, n, before) && i <= n && s in records[i].spans
    requires more == PlacesIn(n, S.SortSpans(records[n].spans))
    ensures Place(i, s) in before + more
  {
    if i < n {
      assert Place(i, s) in before;
    } else {
      SortedSpans(records[n].spans);
      var j :| 0 <= j < |more| && S.SortSpans(records[n].spans)[j] == s;
      assert more[j] == Place(i, s);
    }
  }

  lemma {:induction false} MorePlacesRise(records: seq<PlannedRecord>, n: nat, before: seq<Place>, more: seq<Place>,
                                          j: nat, l: nat)
    requires n < |records| && Ledgered(records, n, before) && S.Disjoint(S.SortSpans(records[n].spans))
    requires more == PlacesIn(n, S.SortSpans(records[n].spans)) && j < l < |before + more|
    ensures var a, b := (before + more)[j], (before + more)[l];
      a.record < b.record || (a.record == b.record && a.span.end <= b.span.start)
  {
    if j >= |before| {
      assert more[j - |before|].span.end <= more[l - |before|].span.start;
    }
  }

  lemma {:induction false} PlacesInLedgered(records: seq<PlannedRecord>, n: nat, before: seq<Place>, more: seq<Place>)
    requires n < |records| && Ledgered(records, n, before)
    requires S.Disjoint(S.SortSpans(records[n].spans)) && more == PlacesIn(n, S.SortSpans(records[n].spans))
    ensures Ledgered(records, n + 1, before + more)
  {
    forall j | 0 <= j < |before + more|
      ensures var place := (before + more)[j]; place.record < n + 1 && place.span in records[place.record].spans
    {
      MorePlacesKnown(records, n, before, more, j);
    }
    forall j, l | 0 <= j < l < |before + more|
      ensures var a, b := (before + more)[j], (before + more)[l];
        a.record < b.record || (a.record == b.record && a.span.end <= b.span.start)
    {
      MorePlacesRise(records, n, before, more, j, l);
    }
    forall i, s | 0 <= i < n + 1 && s in records[i].spans
      ensures Place(i, s) in before + more
    {
      MorePlacesCover(records, n, before, more, i, s);
    }
  }

  lemma {:induction false} PlacesLedgered(records: seq<PlannedRecord>, n: nat)
    requires AllDisjoint(records, n)
    ensures Ledgered(records, n, PlacesOf(records, n))
  {
    if n > 0 {
      PlacesLedgered(records, n - 1);
      PlacesInLedgered(records, n - 1, PlacesOf(records, n - 1), PlacesIn(n - 1, S.SortSpans(records[n - 1].spans)));
    }
  }

  // ----- the ledger's rows are the planned spans at their stream offsets -----

  /** The route policy sends a fact of this cost to the store. */
  ghost predicate Stored(factCost: Option<int>, external: int -> bool) {
    match factCost
    case Some(cost) => external(cost)
    case None => false
  }

  /** The row at stream position `start` says what the span says. */
  ghost predicate RowTells(row: SpanRow, s: S.Span, start: int, length: int, external: int -> bool) {
    && row.role == s.role && row.start == start + s.start && row.end == start + s.end
    && 0 <= s.start < s.end <= length && row.key == S.Key(s.end - s.start, row.key.bin)
    && S.InTenth(s.start, s.end, length, row.key.bin)
    && (row.selective <==> s.role == S.Payload && Stored(s.factCost, external))
  }

  /** Every row tells its place. */
  ghost predicate RowsTell(rows: seq<SpanRow>, records: seq<PlannedRecord>, places: seq<Place>, external: int -> bool) {
    && |rows| == |places|
    && forall j | 0 <= j < |rows| ::
         && places[j].record < |records|
         && var r := records[places[j].record];
            RowTells(rows[j], places[j].span, r.tokenStart, |r.tokenIds|, external)
  }

  lemma {:induction false} RowOfTells(r: PlannedRecord, s: S.Span, index: int, external: int -> bool)
    requires S.InDocument(s, |r.tokenIds|)
    ensures RowTells(L.RowOf(s, index, r.component, r.tokenStart, r.tokenIds, external), s, r.tokenStart,
      |r.tokenIds|, external)
  {
  }

  lemma {:induction false} RowsOfTell(records: seq<PlannedRecord>, n: nat, more: seq<SpanRow>, external: int -> bool)
    requires n < |records|
    requires var r := records[n];
      S.AllInDocument(S.SortSpans(r.spans), |r.tokenIds|)
      && more == L.RowsOf(S.SortSpans(r.spans), n, r.component, r.tokenStart, r.tokenIds, external)
    ensures RowsTell(more, records, PlacesIn(n, S.SortSpans(records[n].spans)), external)
  {
    var r, sorted := records[n], S.SortSpans(records[n].spans);
    forall j | 0 <= j < |sorted|
      ensures RowTells(more[j], sorted[j], r.tokenStart, |r.tokenIds|, external)
    {
      RowOfTells(r, sorted[j], n, external);
    }
  }

  lemma {:induction false} RowsTellMore(rows: seq<SpanRow>, more: seq<SpanRow>, records: seq<PlannedRecord>,
                                        places: seq<Place>, others: seq<Place>, external: int -> bool)
    requires RowsTell(rows, records, places, external) && RowsTell(more, records, others, external)
    ensures RowsTell(rows + more, records, places + others, external)
  {
  }

  lemma {:induction false} TableTells(records: seq<PlannedRecord>, n: nat, external: int -> bool)
    requires Planned(records) && Sortable(records, n)
    ensures RowsTell(TableOf(records, n, external), records, PlacesOf(records, n), external)
  {
    if n > 0 {
      TableTells(records, n - 1, external);
      var r, before := records[n - 1], TableOf(records, n - 1, external);
      var sorted := S.SortSpans(r.spans);
      assert r.tokenStart == StartOf(records, n - 1);
      var more := L.RowsOf(sorted, n - 1, r.component, r.tokenStart, r.tokenIds, external);
      RowsOfTell(records, n - 1, more, external);
      RowsTellMore(before, more, records, PlacesOf(records, n - 1), PlacesIn(n - 1, sorted), external);
    }
  }

  // ----- what the sidecars weigh, read off the planned spans -----

  /** Stream position p lies in this span of this record. */
  ghost predicate Covers(r: PlannedRecord, s: S.Span, p: int) {
    r.tokenStart + s.start <= p < r.tokenStart + s.end
  }

  /** A payload is planned here. */
  ghost predicate PaidAt(records: seq<PlannedRecord>, p: int) {
    exists i, s :: 0 <= i < |records| && s in records[i].spans && s.role == S.Payload && Covers(records[i], s, p)
  }

  /** A payload is planned here whose fact the route policy sends to the store. */
  ghost predicate StoredAt(records: seq<PlannedRecord>, external: int -> bool, p: int) {
    exists i, s :: 0 <= i < |records| && s in records[i].spans && s.role == S.Payload && Stored(s.factCost, external)
      && Covers(records[i], s, p)
  }

  /** Dense is all ones, Split is zero under the payloads, Selective under the stored ones. */
  ghost predicate FollowsPlan(sidecars: Sidecars, records: seq<PlannedRecord>, size: int, external: int -> bool) {
    && |sidecars.dense| == |sidecars.split| == |sidecars.selective| == |sidecars.random| == size
    && forall p: nat | p < size ::
         && sidecars.dense[p] == 1
         && sidecars.split[p] == (if PaidAt(records, p) then 0 else 1)
         && sidecars.selective[p] == (if StoredAt(records, external, p) then 0 else 1)
  }

  /** The places of this role, this many tokens and this tenth of their record. */
  ghost function Alike(records: seq<PlannedRecord>, places: seq<Place>, role: S.Role, tokens: int, k: int): set<nat> {
    set j: nat | j < |places| && FitsPlace(records, places[j], role, tokens, k)
  }

  ghost predicate FitsPlace(records: seq<PlannedRecord>, place: Place, role: S.Role, tokens: int, k: int) {
    place.record < |records| && S.Fits(place.span, role, tokens, k, |records[place.record].tokenIds|)
  }

  /** Random is zero under the chosen controls: of each length and tenth as many as there are
      payloads, those of the lowest rank, and of the earliest place among equal ranks. */
  ghost predicate Drawn(random: seq<Byte>, records: seq<PlannedRecord>, places: seq<Place>, rank: nat -> nat,
                        chosen: set<nat>) {
    && (forall j | j in chosen :: j < |places| && places[j].span.role == S.RandomControl)
    && (forall p: nat | p < |random| :: random[p] == (if ChosenAt(records, places, chosen, p) then 0 else 1))
    && (forall tokens, k ::
         |chosen * Alike(records, places, S.RandomControl, tokens, k)|
         == |Alike(records, places, S.Payload, tokens, k)|)
    && (forall tokens, k, j: nat, l: nat {:trigger Rivals(records, places, chosen, tokens, k, j, l)} |
         Rivals(records, places, chosen, tokens, k, j, l) ::
         rank(j + 1) < rank(l + 1) || (rank(j + 1) == rank(l + 1) && j < l))
  }

  /** Two controls of one length and tenth, the first chosen and the second not. */
  ghost predicate Rivals(records: seq<PlannedRecord>, places: seq<Place>, chosen: set<nat>, tokens: int, k: int,
                         j: nat, l: nat) {
    && j in chosen && l !in chosen
    && j in Alike(records, places, S.RandomControl, tokens, k)
    && l in Alike(records, places, S.RandomControl, tokens, k)
  }

  ghost predicate ChosenAt(records: seq<PlannedRecord>, places: seq<Place>, chosen: set<nat>, p: int) {
    exists j :: j in chosen && j < |places| && places[j].record < |records|
      && Covers(records[places[j].record], places[j].span, p)
  }

  /** What is published, read off the plan alone. */
  ghost predicate Weighed(sidecars: Sidecars, records: seq<PlannedRecord>, size: int, external: int -> bool,
                          rank: nat -> nat) {
    && FollowsPlan(sidecars, records, size, external)
    && exists places, chosen ::
         Ledgered(records, |records|, places) && Drawn(sidecars.random, records, places, rank, chosen)
  }

  lemma {:induction false} RowFits(row: SpanRow, s: S.Span, start: int, length: int, external: int -> bool,
                                   role: S.Role, tokens: int, k: int)
    requires RowTells(row, s, start, length, external)
    ensures row.role == role && row.key == S.Key(tokens, k) <==> S.Fits(s, role, tokens, k, length)
  {
    S.BinIsTenth(s.start, s.end, length, k);
    S.BinIsTenth(s.start, s.end, length, row.key.bin);
  }

  lemma {:induction false} KeyIsAlike(rows: seq<SpanRow>, records: seq<PlannedRecord>, places: seq<Place>,
                                      external: int -> bool, role: S.Role, tokens: int, k: int)
    requires RowsTell(rows, records, places, external)
    ensures ByKey(rows, Having(rows, role), S.Key(tokens, k)) == Alike(records, places, role, tokens, k)
  {
    forall j: nat | j < |rows|
      ensures rows[j].role == role && rows[j].key == S.Key(tokens, k)
         <==> FitsPlace(records, places[j], role, tokens, k)
    {
      var r := records[places[j].record];
      RowFits(rows[j], places[j].span, r.tokenStart, |r.tokenIds|, external, role, tokens, k);
    }
  }

  lemma {:induction false} MaskedIsChosen(rows: seq<SpanRow>, records: seq<PlannedRecord>, places: seq<Place>,
                                          external: int -> bool, chosen: set<nat>, p: int)
    requires RowsTell(rows, records, places, external)
    ensures Masked(rows, chosen, p) <==> ChosenAt(records, places, chosen, p)
  {
    if Masked(rows, chosen, p) {
      var j: nat :| j in chosen && j < |rows| && rows[j].start <= p < rows[j].end;
      assert Covers(records[places[j].record], places[j].span, p);
    }
    if ChosenAt(records, places, chosen, p) {
      var j: nat :| j in chosen && j < |places| && places[j].record < |records|
        && Covers(records[places[j].record], places[j].span, p);
      assert rows[j].start <= p < rows[j].end;
    }
  }

  lemma {:induction false} MaskedIsPaid(rows: seq<SpanRow>, records: seq<PlannedRecord>, places: seq<Place>,
                                        external: int -> bool, p: int)
    requires RowsTell(rows, records, places, external) && Ledgered(records, |records|, places)
    ensures Masked(rows, Having(rows, S.Payload), p) <==> PaidAt(records, p)
  {
    if Masked(rows, Having(rows, S.Payload), p) {
      var j: nat :| j in Having(rows, S.Payload) && j < |rows| && rows[j].start <= p < rows[j].end;
      assert Covers(records[places[j].record], places[j].span, p);
    }
    if PaidAt(records, p) {
      var i, s :| 0 <= i < |records| && s in records[i].spans && s.role == S.Payload && Covers(records[i], s, p);
      assert Place(i, s) in places;
      var j: nat :| j < |places| && places[j] == Place(i, s);
      assert j in Having(rows, S.Payload) && rows[j].start <= p < rows[j].end;
    }
  }

  lemma {:induction false} MaskedIsStored(rows: seq<SpanRow>, records: seq<PlannedRecord>, places: seq<Place>,
                                          external: int -> bool, p: int)
    requires RowsTell(rows, records, places, external) && Ledgered(records, |records|, places)
    ensures Masked(rows, SelectiveRows(rows, Having(rows, S.Payload)), p) <==> StoredAt(records, external, p)
  {
    var stored := SelectiveRows(rows, Having(rows, S.Payload));
    if Masked(rows, stored, p) {
      var j: nat :| j in stored && j < |rows| && rows[j].start <= p < rows[j].end;
      assert Covers(records[places[j].record], places[j].span, p);
    }
    if StoredAt(records, external, p) {
      var i, s :| 0 <= i < |records| && s in records[i].spans && s.role == S.Payload && Stored(s.factCost, external)
        && Covers(records[i], s, p);
      assert Place(i, s) in places;
      var j: nat :| j < |places| && places[j] == Place(i, s);
      assert j in stored && rows[j].start <= p < rows[j].end;
    }
  }

  /** Sidecars zero on the ledger's rows weigh every position as the plan says. */
  lemma {:induction false} MasksFollowPlan(sidecars: Sidecars, rows: seq<SpanRow>, records: seq<PlannedRecord>,
                                           places: seq<Place>, size: int, external: int -> bool)
    requires RowsTell(rows, records, places, external) && Ledgered(records, |records|, places)
    requires |sidecars.dense| == |sidecars.random| == size && forall p | 0 <= p < size :: sidecars.dense[p] == 1
    requires ZeroOn(sidecars.split, size, rows, Having(rows, S.Payload))
    requires ZeroOn(sidecars.selective, size, rows, SelectiveRows(rows, Having(rows, S.Payload)))
    ensures FollowsPlan(sidecars, records, size, external)
  {
    forall p: nat | p < size
      ensures sidecars.split[p] == (if PaidAt(records, p) then 0 else 1)
      ensures sidecars.selective[p] == (if StoredAt(records, external, p) then 0 else 1)
    {
      MaskedIsPaid(rows, records, places, external, p);
      MaskedIsStored(rows, records, places, external, p);
    }
  }

  lemma {:induction false} MatchedByKey(rows: seq<SpanRow>, records: seq<PlannedRecord>, places: seq<Place>,
                                        external: int -> bool, rank: nat -> nat, chosen: set<nat>, tokens: int, k: int)
    requires RowsTell(rows, records, places, external) && chosen <= Having(rows, S.RandomControl)
    requires L.Matched(rows, rank, Having(rows, S.Payload), Having(rows, S.RandomControl), chosen)
    ensures L.Lowest(rank, Alike(records, places, S.RandomControl, tokens, k),
      |Alike(records, places, S.Payload, tokens, k)|, chosen * Alike(records, places, S.RandomControl, tokens, k))
  {
    KeyIsAlike(rows, records, places, external, S.Payload, tokens, k);
    KeyIsAlike(rows, records, places, external, S.RandomControl, tokens, k);
    var key := S.Key(tokens, k);
    assert ByKey(rows, chosen, key) == chosen * ByKey(rows, Having(rows, S.RandomControl), key);
  }

  /** The ledger's selection is the lowest-ranked of the planned controls, key by key. */
  lemma {:induction false} SelectionIsDrawn(random: seq<Byte>, rows: seq<SpanRow>, records: seq<PlannedRecord>,
                                            places: seq<Place>, external: int -> bool, rank: nat -> nat,
                                            chosen: set<nat>)
    requires RowsTell(rows, records, places, external) && chosen <= Having(rows, S.RandomControl)
    requires ZeroOn(random, |random|, rows, chosen)
    requires L.Matched(rows, rank, Having(rows, S.Payload), Having(rows, S.RandomControl), chosen)
    ensures Drawn(random, records, places, rank, chosen)
  {
    forall p: nat | p < |random|
      ensures random[p] == (if ChosenAt(records, places, chosen, p) then 0 else 1)
    {
      MaskedIsChosen(rows, records, places, external, chosen, p);
    }
    forall tokens, k
      ensures |chosen * Alike(records, places, S.RandomControl, tokens, k)|
           == |Alike(records, places, S.Payload, tokens, k)|
    {
      MatchedByKey(rows, records, places, external, rank, chosen, tokens, k);
    }
    forall tokens, k, j: nat, l: nat {:trigger Rivals(records, places, chosen, tokens, k, j, l)} |
      Rivals(records, places, chosen, tokens, k, j, l)
      ensures rank(j + 1) < rank(l + 1) || (rank(j + 1) == rank(l + 1) && j < l)
    {
      MatchedByKey(rows, records, places, external, rank, chosen, tokens, k);
      var alike := Alike(records, places, S.RandomControl, tokens, k);
      assert j in chosen * alike && l in alike - chosen * alike;
    }
  }
}
