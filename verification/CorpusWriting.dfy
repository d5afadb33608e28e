/** The corpus writer: planned records go in, the token stream, the four sidecars and the
    occurrence ledger come out, and the verifier reads them all back (relational_build.py,
    CorpusWriter and the replay of the schedule plan). */
module CorpusWriting {
  import opened Wrappers
  import opened Tokens
  import opened OccurrenceTable
  import opened OccurrenceLedger
  import opened SidecarAudit
  import S = Spans
  import ZeroRuns

  // ----- what one record adds to the table -----

  function PayloadTokens(): S.Span -> nat {
    (s: S.Span) => if S.MaskedBySplit(s) && s.start <= s.end then s.end - s.start else 0
  }

  function SelectiveTokens(external: int -> bool): S.Span -> nat {
    (s: S.Span) => if S.MaskedBySelective(s, external) && s.start <= s.end then s.end - s.start else 0
  }

  /** The appended rows keep the roles and keys of the sorted spans. */
  ghost predicate SameKeys(sorted: seq<S.Span>, more: seq<SpanRow>, length: int) {
    && |more| == |sorted|
    && (forall i | 0 <= i < |more| :: S.InDocument(sorted[i], length))
    && (forall i | 0 <= i < |more| :: more[i].role == sorted[i].role && more[i].key == S.KeyOf(sorted[i], length))
  }

  /** The demands (or candidates) of a key grow by the record's spans of that role and key. */
  lemma {:induction false} ByKeyGrows(rows: seq<SpanRow>, sorted: seq<S.Span>, more: seq<SpanRow>, n: nat,
                                      role: S.Role, key: S.Key, length: int)
    requires SameKeys(sorted, more, length) && n <= |more|
    ensures |ByKey(rows + more[..n], Having(rows + more[..n], role), key)|
         == |ByKey(rows, Having(rows, role), key)| + S.Tally(sorted, n, S.Indicator(role, key, length))
  {
    if n == 0 {
      assert rows + more[..0] == rows;
    } else {
      ByKeyGrows(rows, sorted, more, n - 1, role, key, length);
      var before := rows + more[..n - 1];
      assert rows + more[..n] == before + [more[n - 1]];
      ByKeyOneMore(before, more[n - 1], role, key);
    }
  }

  lemma {:induction false} ByKeyOneMore(rows: seq<SpanRow>, row: SpanRow, role: S.Role, key: S.Key)
    ensures |ByKey(rows + [row], Having(rows + [row], role), key)|
         == |ByKey(rows, Having(rows, role), key)| + if row.role == role && row.key == key then 1 else 0
  {
    var before, after := ByKey(rows, Having(rows, role), key), ByKey(rows + [row], Having(rows + [row], role), key);
    if row.role == role && row.key == key {
      assert after == before + {|rows|};
    } else {
      assert after == before;
    }
  }

  /** Per-record supply keeps every key of the whole corpus supplied. */
  lemma EnoughGrows(rows: seq<SpanRow>, spans: seq<S.Span>, more: seq<SpanRow>, length: int)
    requires Enough(rows, Having(rows, S.Payload), Having(rows, S.RandomControl))
    requires S.Supplied(spans, length)
    requires SameKeys(S.SortSpans(spans), more, length)
    ensures Enough(rows + more, Having(rows + more, S.Payload), Having(rows + more, S.RandomControl))
  {
    assert more[..|more|] == more;
    forall key
      ensures |ByKey(rows + more, Having(rows + more, S.Payload), key)|
        <= |ByKey(rows + more, Having(rows + more, S.RandomControl), key)|
    {
      ByKeyGrows(rows, S.SortSpans(spans), more, |more|, S.Payload, key, length);
      ByKeyGrows(rows, S.SortSpans(spans), more, |more|, S.RandomControl, key, length);
      S.SortTally(spans, S.Indicator(S.Payload, key, length));
      S.SortTally(spans, S.Indicator(S.RandomControl, key, length));
      assert S.Count(spans, S.Payload, key, length) <= S.Count(spans, S.RandomControl, key, length);
      assert |ByKey(rows, Having(rows, S.Payload), key)| <= |ByKey(rows, Having(rows, S.RandomControl), key)|;
    }
  }

  /** `ids` extends `ids0` to the appended rows by the spans that f gives weight to. */
  ghost predicate Extends(rows: seq<SpanRow>, ids0: set<nat>, sorted: seq<S.Span>, ids: set<nat>, f: S.Span -> nat) {
    && (forall i | 0 <= i < |rows| :: i in ids <==> i in ids0)
    && (forall i | 0 <= i < |sorted| :: |rows| + i in ids <==> f(sorted[i]) > 0)
  }

  /** The appended rows are the sorted spans, moved to the end of the stream. */
  ghost predicate Placed(total: int, sorted: seq<S.Span>, more: seq<SpanRow>) {
    && |more| == |sorted|
    && forall i | 0 <= i < |more| :: more[i].start == total + sorted[i].start && more[i].end == total + sorted[i].end
  }

  lemma {:induction false} MassPrefix(rows: seq<SpanRow>, more: seq<SpanRow>, ids0: set<nat>, ids: set<nat>, n: nat)
    requires n <= |rows| && forall i | 0 <= i < |rows| :: i in ids <==> i in ids0
    ensures Mass(rows + more, ids, n) == Mass(rows, ids0, n)
  {
    if n > 0 {
      MassPrefix(rows, more, ids0, ids, n - 1);
    }
  }

  lemma {:induction false} MassGrows(rows: seq<SpanRow>, total: int, sorted: seq<S.Span>, more: seq<SpanRow>,
                                     ids0: set<nat>, ids: set<nat>, f: S.Span -> nat, n: nat)
    requires Extends(rows, ids0, sorted, ids, f) && Placed(total, sorted, more) && n <= |more|
    requires forall i | 0 <= i < |sorted| :: f(sorted[i]) > 0 ==> f(sorted[i]) == sorted[i].end - sorted[i].start
    ensures Mass(rows + more, ids, |rows| + n) == Mass(rows, ids0, |rows|) + S.Tally(sorted, n, f)
  {
    if n == 0 {
      MassPrefix(rows, more, ids0, ids, |rows|);
    } else {
      MassGrows(rows, total, sorted, more, ids0, ids, f, n - 1);
      assert (rows + more)[|rows| + n - 1] == more[n - 1];
      assert |rows| + (n - 1) in ids <==> f(sorted[n - 1]) > 0;
    }
  }

  /** The token mass grows by the tally of the record's spans, in whatever order. */
  lemma {:induction false} MassAfter(rows: seq<SpanRow>, total: int, spans: seq<S.Span>, more: seq<SpanRow>,
                                     ids0: set<nat>, ids: set<nat>,
                                     f: S.Span -> nat)
    requires Extends(rows, ids0, S.SortSpans(spans), ids, f) && Placed(total, S.SortSpans(spans), more)
    requires forall s :: f(s) > 0 ==> f(s) == s.end - s.start
    ensures Mass(rows + more, ids, |rows + more|) == Mass(rows, ids0, |rows|) + S.Tally(spans, |spans|, f)
  {
    MassOfAll(rows, total, S.SortSpans(spans), more, ids0, ids, f);
    S.SortTally(spans, f);
  }

  lemma {:induction false} MassOfAll(rows: seq<SpanRow>, total: int, sorted: seq<S.Span>, more: seq<SpanRow>,
                                     ids0: set<nat>, ids: set<nat>, f: S.Span -> nat)
    requires Extends(rows, ids0, sorted, ids, f) && Placed(total, sorted, more)
    requires forall s :: f(s) > 0 ==> f(s) == s.end - s.start
    ensures Mass(rows + more, ids, |rows + more|) == Mass(rows, ids0, |rows|) + S.Tally(sorted, |sorted|, f)
  {
    MassGrows(rows, total, sorted, more, ids0, ids, f, |more|);
  }

  /** Position p of the record lies in one of the first n spans that f gives weight to. */
  ghost predicate Weighs(spans: seq<S.Span>, n: nat, f: S.Span -> nat, p: int)
    requires n <= |spans|
  {
    exists i :: 0 <= i < n && f(spans[i]) > 0 && spans[i].start <= p < spans[i].end
  }

  lemma WeighsPermutes(a: seq<S.Span>, b: seq<S.Span>, f: S.Span -> nat, p: int)
    requires multiset(a) == multiset(b) && Weighs(a, |a|, f, p)
    ensures Weighs(b, |b|, f, p)
  {
    var i :| 0 <= i < |a| && f(a[i]) > 0 && a[i].start <= p < a[i].end;
    assert a[i] in multiset(b);
  }

  /** A record's weights, appended to a sidecar that agrees with the table so far. */
  lemma ZeroOnGrows(file: seq<Byte>, weights: seq<Byte>, rows: seq<SpanRow>, total: int, spans: seq<S.Span>,
                    more: seq<SpanRow>, ids0: set<nat>, ids: set<nat>, f: S.Span -> nat)
    requires TableValid(rows, total) && ZeroOn(file, total, rows, ids0)
    requires S.AllInDocument(S.SortSpans(spans), |weights|) && Placed(total, S.SortSpans(spans), more)
    requires Extends(rows, ids0, S.SortSpans(spans), ids, f)
    requires forall p | 0 <= p < |weights| :: weights[p] == if Weighs(spans, |spans|, f, p) then 0 else 1
    ensures ZeroOn(file + weights, total + |weights|, rows + more, ids)
  {
    var sorted, all := S.SortSpans(spans), rows + more;
    S.SortPermutes(spans);
    forall p | 0 <= p < total + |weights|
      ensures (file + weights)[p] == if Masked(all, ids, p) then 0 else 1
    {
      if p < total {
        MaskedBefore(rows, total, sorted, more, ids0, ids, f, p);
      } else {
        MaskedAfter(rows, total, sorted, more, ids0, ids, f, p);
        if Weighs(spans, |spans|, f, p - total) {
          WeighsPermutes(spans, sorted, f, p - total);
        } else if Weighs(sorted, |sorted|, f, p - total) {
          WeighsPermutes(sorted, spans, f, p - total);
        }
      }
    }
  }

  lemma MaskedBefore(rows: seq<SpanRow>, total: int, sorted: seq<S.Span>, more: seq<SpanRow>,
                     ids0: set<nat>, ids: set<nat>, f: S.Span -> nat, p: int)
    requires Extends(rows, ids0, sorted, ids, f) && Placed(total, sorted, more) && p < total
    requires forall i | 0 <= i < |sorted| :: 0 <= sorted[i].start
    ensures Masked(rows + more, ids, p) <==> Masked(rows, ids0, p)
  {
    var all := rows + more;
    assert forall i | 0 <= i < |rows| :: all[i] == rows[i];
    assert forall i | |rows| <= i < |all| :: all[i] == more[i - |rows|] && total <= all[i].start;
    if Masked(rows, ids0, p) {
      var i: nat :| i in ids0 && i < |rows| && rows[i].start <= p < rows[i].end;
      assert i in ids && all[i] == rows[i];
    }
  }

  lemma MaskedAfter(rows: seq<SpanRow>, total: int, sorted: seq<S.Span>, more: seq<SpanRow>,
                    ids0: set<nat>, ids: set<nat>, f: S.Span -> nat, p: int)
    requires TableValid(rows, total) && Extends(rows, ids0, sorted, ids, f) && Placed(total, sorted, more) && total <= p
    ensures Masked(rows + more, ids, p) <==> Weighs(sorted, |sorted|, f, p - total)
  {
    var all := rows + more;
    if Masked(all, ids, p) {
      var i: nat :| i in ids && i < |all| && all[i].start <= p < all[i].end;
      assert i >= |rows| && all[i] == more[i - |rows|];
      assert |rows| + (i - |rows|) in ids;
    }
    if Weighs(sorted, |sorted|, f, p - total) {
      var i :| 0 <= i < |sorted| && f(sorted[i]) > 0 && sorted[i].start <= p - total < sorted[i].end;
      assert |rows| + i in ids && all[|rows| + i] == more[i];
    }
  }

  // ----- the weights of one record -----

  /** All-ones weights, zeroed in place span by span where f gives weight; and the tally. */
  method RecordWeights(length: nat, spans: seq<S.Span>, f: S.Span -> nat) returns (weights: seq<Byte>, masked: nat)
    requires S.AllInDocument(spans, length)
    ensures |weights| == length && masked == S.Tally(spans, |spans|, f)
    ensures WeightsFor(weights, spans, f)
  {
    var buffer := new Byte[length](_ => 1);
    masked := 0;
    for i := 0 to |spans|
      invariant masked == S.Tally(spans, i, f)
      invariant forall p | 0 <= p < length :: buffer[p] == if Weighs(spans, i, f, p) then 0 else 1
    {
      var span := spans[i];
      if f(span) > 0 {
        label Before:
        for q := span.start to span.end
          invariant forall p | 0 <= p < length :: buffer[p] == if span.start <= p < q then 0 else old@Before(buffer[p])
        {
          buffer[q] := 0;
        }
        masked := masked + f(span);
      }
    }
    weights := buffer[..];
  }

  // ----- the writer -----

  datatype AddOutcome = Added | WriterClosed | OutsideDocument | Undersupplied(key: S.Key) | MissingFact(place: nat)
    | Refused

  /** A record the writer accepts: a named component, well-formed spans that reach the last
      token, and enough controls for every payload key inside the record. */
  ghost predicate Acceptable(component: string, tokenIds: seq<Token>, spans: seq<S.Span>) {
    && component != "" && S.WellFormed(multiset(spans)) && S.LastEnd(S.SortSpans(spans)) == |tokenIds|
    && S.AllInDocument(spans, |tokenIds|) && S.Supplied(spans, |tokenIds|)
  }

  ghost predicate AllOnes(file: seq<Byte>, total: int) {
    |file| == total && forall p | 0 <= p < |file| :: file[p] == 1
  }

  /** Every payload row holds the tokens of its range. */
  ghost predicate Faithful(tokens: seq<Token>, rows: seq<SpanRow>) {
    forall i | 0 <= i < |rows| && rows[i].role == S.Payload :: PayloadIntact(tokens, rows[i])
  }

  ghost predicate TableSound(tokens: seq<Token>, rows: seq<SpanRow>) {
    && TableValid(rows, |tokens|) && Faithful(tokens, rows)
    && Enough(rows, Having(rows, S.Payload), Having(rows, S.RandomControl))
  }

  ghost predicate MasksSound(split: seq<Byte>, selective: seq<Byte>, total: int, rows: seq<SpanRow>) {
    && ZeroOn(split, total, rows, Having(rows, S.Payload))
    && ZeroOn(selective, total, rows, SelectiveRows(rows, Having(rows, S.Payload)))
  }

  /** Files and tables of a writer that has accepted every record so far. */
  ghost predicate Consistent(tokens: seq<Token>, sidecars: Sidecars, rows: seq<SpanRow>) {
    && TableSound(tokens, rows) && MasksSound(sidecars.split, sidecars.selective, |tokens|, rows)
    && AllOnes(sidecars.dense, |tokens|) && AllOnes(sidecars.random, |tokens|)
  }

  lemma IntactAfter(tokens: seq<Token>, more: seq<Token>, row: SpanRow)
    requires PayloadIntact(tokens, row)
    ensures PayloadIntact(tokens + more, row)
  {
    assert (tokens + more)[row.start..row.end] == tokens[row.start..row.end];
  }

  lemma IntactAppended(tokens: seq<Token>, tokenIds: seq<Token>, s: S.Span, recordIndex: int, component: string,
                       external: int -> bool)
    requires S.InDocument(s, |tokenIds|) && s.role.Payload?
    ensures PayloadIntact(tokens + tokenIds, RowOf(s, recordIndex, component, |tokens|, tokenIds, external))
  {
    assert (tokens + tokenIds)[|tokens| + s.start..|tokens| + s.end] == tokenIds[s.start..s.end];
  }

  lemma FaithfulGrows(tokens: seq<Token>, rows: seq<SpanRow>, sorted: seq<S.Span>, recordIndex: int, component: string,
                      tokenIds: seq<Token>, external: int -> bool)
    requires Faithful(tokens, rows) && S.AllInDocument(sorted, |tokenIds|)
    ensures Faithful(tokens + tokenIds, rows + RowsOf(sorted, recordIndex, component, |tokens|, tokenIds, external))
  {
    var all := rows + RowsOf(sorted, recordIndex, component, |tokens|, tokenIds, external);
    forall i | 0 <= i < |all| && all[i].role == S.Payload
      ensures PayloadIntact(tokens + tokenIds, all[i])
    {
      if i < |rows| {
        IntactAfter(tokens, tokenIds, rows[i]);
      } else {
        IntactAppended(tokens, tokenIds, sorted[i - |rows|], recordIndex, component, external);
      }
    }
  }

  lemma DemandsExtend(rows: seq<SpanRow>, total: int, sorted: seq<S.Span>, recordIndex: int, component: string,
                      tokenIds: seq<Token>, external: int -> bool)
    requires S.AllInDocument(sorted, |tokenIds|)
    ensures var more := RowsOf(sorted, recordIndex, component, total, tokenIds, external);
      && Placed(total, sorted, more) && SameKeys(sorted, more, |tokenIds|)
      && Extends(rows, Having(rows, S.Payload), sorted, Having(rows + more, S.Payload), PayloadTokens())
      && Extends(rows, SelectiveRows(rows, Having(rows, S.Payload)), sorted,
                 SelectiveRows(rows + more, Having(rows + more, S.Payload)), SelectiveTokens(external))
  {
    var more := RowsOf(sorted, recordIndex, component, total, tokenIds, external);
    var all := rows + more;
    assert forall i | 0 <= i < |rows| :: all[i] == rows[i];
    assert forall i | 0 <= i < |sorted| :: all[|rows| + i] == more[i];
  }

  lemma TableGrows(tokens: seq<Token>, rows: seq<SpanRow>, spans: seq<S.Span>, recordIndex: int,
                   component: string, tokenIds: seq<Token>, external: int -> bool)
    requires TableSound(tokens, rows)
    requires S.Disjoint(S.SortSpans(spans)) && S.AllInDocument(S.SortSpans(spans), |tokenIds|)
      && S.Supplied(spans, |tokenIds|)
    ensures TableSound(tokens + tokenIds, rows
      + RowsOf(S.SortSpans(spans), recordIndex, component, |tokens|, tokenIds, external))
  {
    var sorted := S.SortSpans(spans);
    AppendValid(rows, |tokens|, sorted, recordIndex, component, tokenIds, external);
    FaithfulGrows(tokens, rows, sorted, recordIndex, component, tokenIds, external);
    DemandsExtend(rows, |tokens|, sorted, recordIndex, component, tokenIds, external);
    EnoughGrows(rows, spans, RowsOf(sorted, recordIndex, component, |tokens|, tokenIds, external), |tokenIds|);
  }

  /** The weights after the first n spans. */
  ghost predicate WeighedTo(weights: seq<Byte>, spans: seq<S.Span>, n: nat, f: S.Span -> nat)
    requires n <= |spans|
  {
    forall p | 0 <= p < |weights| :: weights[p] == if Weighs(spans, n, f, p) then 0 else 1
  }

  /** The weights zero exactly the spans that f gives weight to. */
  ghost predicate WeightsFor(weights: seq<Byte>, spans: seq<S.Span>, f: S.Span -> nat) {
    WeighedTo(weights, spans, |spans|, f)
  }

  lemma MasksGrow(split0: seq<Byte>, selective0: seq<Byte>, total: int, rows: seq<SpanRow>, spans: seq<S.Span>,
                  recordIndex: int,
                  component: string, tokenIds: seq<Token>, external: int -> bool, split: seq<Byte>,
                  selective: seq<Byte>)
    requires TableValid(rows, total) && MasksSound(split0, selective0, total, rows)
    requires S.AllInDocument(S.SortSpans(spans), |tokenIds|) && |split| == |selective| == |tokenIds|
    requires WeightsFor(split, spans, PayloadTokens()) && WeightsFor(selective, spans, SelectiveTokens(external))
    ensures MasksSound(split0 + split, selective0 + selective, total + |tokenIds|,
                       rows + RowsOf(S.SortSpans(spans), recordIndex, component, total, tokenIds, external))
  {
    var sorted := S.SortSpans(spans);
    var more := RowsOf(sorted, recordIndex, component, total, tokenIds, external);
    var demands0, demands := Having(rows, S.Payload), Having(rows + more, S.Payload);
    DemandsExtend(rows, total, sorted, recordIndex, component, tokenIds, external);
    ZeroOnGrows(split0, split, rows, total, spans, more, demands0, demands, PayloadTokens());
    ZeroOnGrows(selective0, selective, rows, total, spans, more, SelectiveRows(rows, demands0),
                SelectiveRows(rows + more, demands), SelectiveTokens(external));
  }

  /** Appending one acceptable record keeps files and tables consistent. */
  lemma ConsistentGrows(tokens: seq<Token>, before: Sidecars, rows: seq<SpanRow>, spans: seq<S.Span>, recordIndex: int,
                        component: string, tokenIds: seq<Token>, external: int -> bool, after: Sidecars,
                        ones: seq<Byte>, split: seq<Byte>, selective: seq<Byte>)
    requires Consistent(tokens, before, rows) && S.Supplied(spans, |tokenIds|)
    requires S.Disjoint(S.SortSpans(spans)) && S.AllInDocument(S.SortSpans(spans), |tokenIds|)
    requires AllOnes(ones, |tokenIds|) && |split| == |selective| == |tokenIds|
    requires WeightsFor(split, spans, PayloadTokens()) && WeightsFor(selective, spans, SelectiveTokens(external))
    requires after
      == Sidecars(before.dense + ones, before.split + split, before.random + ones, before.selective + selective)
    ensures Consistent(tokens + tokenIds, after,
                       rows + RowsOf(S.SortSpans(spans), recordIndex, component, |tokens|, tokenIds, external))
  {
    TableGrows(tokens, rows, spans, recordIndex, component, tokenIds, external);
    MasksGrow(before.split, before.selective, |tokens|, rows, spans, recordIndex, component, tokenIds, external, split,
      selective);
  }

  /** Zeroing candidates in the Random sidecar of consistent artifacts leaves every sidecar sound. */
  lemma ZeroedIsSound(tokens: seq<Token>, before: Sidecars, rows: seq<SpanRow>, selected: set<nat>, random: seq<Byte>)
    requires Consistent(tokens, before, rows) && Zeroed(before.random, random, rows, selected)
    ensures SidecarsSound(before.(random := random), |tokens|, rows, Having(rows, S.Payload), selected)
    ensures ZeroOn(random, |tokens|, rows, selected)
  {
    var after, demands, total := before.(random := random), Having(rows, S.Payload), |tokens|;
    assert ZeroOn(after.dense, total, rows, {});
    ZeroOnPasses(after.dense, total, rows, {});
    ZeroOnPasses(after.split, total, rows, demands);
    ZeroOnPasses(after.random, total, rows, selected);
    ZeroOnPasses(after.selective, total, rows, SelectiveRows(rows, demands));
    assert SidecarAgrees(Dense, after, total, rows, demands, selected);
    assert SidecarAgrees(Split, after, total, rows, demands, selected);
    assert SidecarAgrees(Random, after, total, rows, demands, selected);
    assert SidecarAgrees(Selective, after, total, rows, demands, selected);
  }

  /** After finalize_random on consistent artifacts, every sidecar check and the histogram
      check of the verifier succeed. */
  lemma FinalizedIsSound(tokens: seq<Token>, before: Sidecars, rows: seq<SpanRow>, selected: set<nat>,
                         random: seq<Byte>, rank: nat -> nat)
    requires Consistent(tokens, before, rows)
    requires selected <= Having(rows, S.RandomControl)
    requires Matched(rows, rank, Having(rows, S.Payload), Having(rows, S.RandomControl), selected)
    requires Zeroed(before.random, random, rows, selected)
    ensures SidecarsSound(before.(random := random), |tokens|, rows, Having(rows, S.Payload), selected)
    ensures SameHistogram(rows, selected, Having(rows, S.Payload))
    ensures ZeroOn(random, |tokens|, rows, selected)
  {
    ZeroedIsSound(tokens, before, rows, selected, random);
  }

  /** Consistent files and tables, and the number of tokens in them. */
  ghost predicate Filed(tokens: seq<Token>, sidecars: Sidecars, rows: seq<SpanRow>, total: int) {
    total == |tokens| && Consistent(tokens, sidecars, rows)
  }

  /** Payload counters that agree with the table. */
  ghost predicate Counted(rows: seq<SpanRow>, payload: int, selective: int) {
    && payload == Mass(rows, Having(rows, S.Payload), |rows|)
    && selective == Mass(rows, SelectiveRows(rows, Having(rows, S.Payload)), |rows|)
  }

  // ----- the counting loop -----

  /** A payload span without a fact, on which the source's assertion fails. */
  ghost predicate LacksFact(s: S.Span) { s.role.Payload? && s.factId.None? }

  /** How many spans the payload counter has seen when the writer stops. */
  ghost function PayloadsSeen(r: AddOutcome, n: nat): nat {
    match r
    case Added => n
    case Refused => n
    case MissingFact(place) => place + 1
    case _ => 0
  }

  /** The selective counter does not see the span that stops the loop. */
  ghost function SelectivesSeen(r: AddOutcome, n: nat): nat {
    match r
    case Added => n
    case Refused => n
    case MissingFact(place) => place
    case _ => 0
  }

  /** A tally is zero exactly when no span has weight. */
  lemma {:induction false} TallyIsZero(spans: seq<S.Span>, n: nat, f: S.Span -> nat)
    requires n <= |spans|
    ensures S.Tally(spans, n, f) == 0 <==> forall i | 0 <= i < n :: f(spans[i]) == 0
  {
    if n > 0 {
      TallyIsZero(spans, n - 1, f);
    }
  }

  /** Ones, to be zeroed. */
  method ZeroSpan(buffer: array<Byte>, start: int, end: int)
    requires 0 <= start <= end <= buffer.Length
    modifies buffer
    ensures forall p | 0 <= p < buffer.Length :: buffer[p] == if start <= p < end then 0 else old(buffer[p])
  {
    for p := start to end
      invariant forall q | 0 <= q < buffer.Length :: buffer[q] == if start <= q < p then 0 else old(buffer[q])
    {
      buffer[p] := 0;
    }
  }

  lemma {:induction false} WeighsOneMore(spans: seq<S.Span>, n: nat, f: S.Span -> nat, p: int)
    requires n < |spans|
    ensures Weighs(spans, n + 1, f, p) <==>
      Weighs(spans, n, f, p) || (f(spans[n]) > 0 && spans[n].start <= p < spans[n].end)
  {
  }

  lemma {:induction false} WeighedMore(before: seq<Byte>, after: seq<Byte>, spans: seq<S.Span>, n: nat, next: nat,
                                       f: S.Span -> nat)
    requires n < |spans| && next == n + 1 && |after| == |before| && WeighedTo(before, spans, n, f)
    requires forall p | 0 <= p < |before| ::
      after[p] == if f(spans[n]) > 0 && spans[n].start <= p < spans[n].end then 0 else before[p]
    ensures WeighedTo(after, spans, next, f)
  {
    forall p | 0 <= p < |after|
      ensures after[p] == if Weighs(spans, next, f, p) then 0 else 1
    {
      WeighsOneMore(spans, n, f, p);
    }
  }

  /** One span's part in one mask. */
  method MaskSpan(buffer: array<Byte>, spans: seq<S.Span>, n: nat, masked: bool, ghost next: nat,
                  ghost f: S.Span -> nat)
    requires n < |spans| && next == n + 1 && 0 <= spans[n].start <= spans[n].end <= buffer.Length
    requires WeighedTo(buffer[..], spans, n, f)
    requires f(spans[n]) > 0 <==> masked && spans[n].start < spans[n].end
    modifies buffer
    ensures WeighedTo(buffer[..], spans, next, f)
  {
    ghost var before := buffer[..];
    if masked {
      ZeroSpan(buffer, spans[n].start, spans[n].end);
    }
    WeighedMore(before, buffer[..], spans, n, next, f);
  }

  class CorpusWriter {
    const spool: OccurrenceSpool
    var tokens: seq<Token>
    var dense: seq<Byte>
    var split: seq<Byte>
    var random: seq<Byte>
    var selective: seq<Byte>
    var total: nat
    var records: nat
    var closed: bool
    var allPayloadTokens: nat
    var selectivePayloadTokens: nat
    var audit: Option<Audit>

    function Files(): Sidecars
      reads this
    {
      Sidecars(dense, split, random, selective)
    }

    /** Unpublished, and consistent with the table `rows`. */
    ghost predicate FiledFor(rows: seq<SpanRow>)
      reads this
    {
      audit.None? && Filed(tokens, Files(), rows, total)
    }

    /** Ready to be finalized, its files still open or closed. */
    ghost predicate Ready()
      reads this, spool
    {
      && spool.Valid() && !spool.finalized && !spool.closed
      && total == spool.nextStart && records == spool.nextRecord && FiledFor(spool.spans)
    }

    ghost predicate Valid()
      reads this, spool
    {
      !closed && Ready()
    }

    /** The payload counters are the masses of the table. */
    ghost predicate CountersAgree()
      reads this, spool
    {
      Counted(spool.spans, allPayloadTokens, selectivePayloadTokens)
    }

    constructor ()
      ensures Valid() && CountersAgree() && fresh(spool) && tokens == [] && spool.spans == [] && records == 0
      ensures allPayloadTokens == selectivePayloadTokens == 0
    {
      spool := new OccurrenceSpool();
      tokens, dense, split, random, selective := [], [], [], [], [];
      total, records, closed, audit := 0, 0, false, None;
      allPayloadTokens, selectivePayloadTokens := 0, 0;
      new;
      MassOfNone(spool.spans, 0);
    }

    /** Zeroes the weights and moves the counters, span by span, until a payload lacks its fact. */
    method WeighSpans(length: nat, spans: seq<S.Span>, external: int -> bool)
      returns (missing: Option<nat>, splitWeights: seq<Byte>, selectiveWeights: seq<Byte>)
      requires S.AllInDocument(spans, length)
      modifies this`allPayloadTokens, this`selectivePayloadTokens
      ensures missing.None? ==> forall i | 0 <= i < |spans| :: !LacksFact(spans[i])
      ensures missing.Some? ==>
        missing.value < |spans| && LacksFact(spans[missing.value]) && forall i | 0 <= i < missing.value ::
          !LacksFact(spans[i])
      ensures var seen := if missing.None? then |spans| else missing.value + 1;
        allPayloadTokens == old(allPayloadTokens) + S.Tally(spans, seen, PayloadTokens())
      ensures var seen := if missing.None? then |spans| else missing.value;
        selectivePayloadTokens == old(selectivePayloadTokens) + S.Tally(spans, seen, SelectiveTokens(external))
      ensures missing.None? ==> |splitWeights| == |selectiveWeights| == length
      ensures missing.None? ==>
        WeightsFor(splitWeights, spans, PayloadTokens())
        && WeightsFor(selectiveWeights, spans, SelectiveTokens(external))
    {
      var splitBuffer, selectiveBuffer := new Byte[length](_ => 1), new Byte[length](_ => 1);
      for i := 0 to |spans|
        invariant forall k | 0 <= k < i :: !LacksFact(spans[k])
        invariant allPayloadTokens == old(allPayloadTokens) + S.Tally(spans, i, PayloadTokens())
        invariant selectivePayloadTokens == old(selectivePayloadTokens) + S.Tally(spans, i, SelectiveTokens(external))
        invariant WeighedTo(splitBuffer[..], spans, i, PayloadTokens())
        invariant WeighedTo(selectiveBuffer[..], spans, i, SelectiveTokens(external))
      {
        var span := spans[i];
        ghost var next := i + 1;
        MaskSpan(splitBuffer, spans, i, S.MaskedBySplit(span), next, PayloadTokens());
        if S.MaskedBySplit(span) {
          allPayloadTokens := allPayloadTokens + (span.end - span.start);
          if span.factId.None? {
            return Some(i), [], [];
          }
        }
        MaskSpan(selectiveBuffer, spans, i, S.MaskedBySelective(span, external), next, SelectiveTokens(external));
        if S.MaskedBySelective(span, external) {
          selectivePayloadTokens := selectivePayloadTokens + (span.end - span.start);
        }
      }
      return None, splitBuffer[..], selectiveBuffer[..];
    }

    /** The file appends for one registered record. */
    method Append(component: string, tokenIds: seq<Token>, spans: seq<S.Span>, external: int -> bool,
                  splitWeights: seq<Byte>, selectiveWeights: seq<Byte>, ghost rows: seq<SpanRow>)
      requires FiledFor(rows) && S.Supplied(spans, |tokenIds|)
      requires S.Disjoint(S.SortSpans(spans)) && S.AllInDocument(S.SortSpans(spans), |tokenIds|)
      requires |splitWeights| == |selectiveWeights| == |tokenIds|
      requires WeightsFor(splitWeights, spans, PayloadTokens())
        && WeightsFor(selectiveWeights, spans, SelectiveTokens(external))
      modifies this
      ensures FiledFor(rows + RowsOf(S.SortSpans(spans), old(records), component, old(total), tokenIds, external))
      ensures closed == old(closed)
      ensures tokens == old(tokens) + tokenIds && total == old(total) + |tokenIds| && records == old(records) + 1
      ensures allPayloadTokens == old(allPayloadTokens) && selectivePayloadTokens == old(selectivePayloadTokens)
    {
      var ones := seq(|tokenIds|, i => 1);
      ConsistentGrows(tokens, Files(), rows, spans, records, component, tokenIds, external,
                      Sidecars(dense + ones, split + splitWeights, random + ones, selective + selectiveWeights),
                      ones, splitWeights, selectiveWeights);
      tokens := tokens + tokenIds;
      dense, random := dense + ones, random + ones;
      split, selective := split + splitWeights, selective + selectiveWeights;
      total, records := total + |tokenIds|, records + 1;
    }

    /** Registers the record with the ledger, then appends it to the files. */
    method Register(component: string, tokenIds: seq<Token>, spans: seq<S.Span>, external: int -> bool,
                    splitWeights: seq<Byte>, selectiveWeights: seq<Byte>, ghost payload: nat, ghost selective: nat)
                      returns (ok: bool)
      requires Valid() && S.AllInDocument(spans, |tokenIds|) && S.Supplied(spans, |tokenIds|)
      requires allPayloadTokens == payload + S.Tally(spans, |spans|, PayloadTokens())
      requires selectivePayloadTokens == selective + S.Tally(spans, |spans|, SelectiveTokens(external))
      requires |splitWeights| == |selectiveWeights| == |tokenIds|
      requires WeightsFor(splitWeights, spans, PayloadTokens())
        && WeightsFor(selectiveWeights, spans, SelectiveTokens(external))
      modifies this, spool
      ensures ok <==> Acceptable(component, tokenIds, spans)
      ensures Valid() && allPayloadTokens == old(allPayloadTokens)
        && selectivePayloadTokens == old(selectivePayloadTokens)
      ensures ok ==>
        S.AllInDocument(S.SortSpans(spans), |tokenIds|) && tokens == old(tokens) + tokenIds
        && records == old(records) + 1
      ensures ok ==>
        spool.spans == old(spool.spans)
          + RowsOf(S.SortSpans(spans), old(records), component, old(total), tokenIds, external)
      ensures ok && old(Counted(spool.spans, payload, selective)) ==> CountersAgree()
      ensures !ok ==>
        tokens == old(tokens) && Files() == old(Files()) && spool.spans == old(spool.spans) && records == old(records)
    {
      var registered := spool.AddRecord(component, records, total, tokenIds, spans, external);
      if registered.Refused? {
        return false;
      }
      Append(component, tokenIds, spans, external, splitWeights, selectiveWeights, old(spool.spans));
      CountersFollow(old(spool.spans), spans, old(records), component, old(total), tokenIds, external, payload,
        selective);
      return true;
    }

    /** The rest of Add, for a record that supplies its own controls: the counting loop, the
        registration and the appends. */
    method AddSupplied(component: string, tokenIds: seq<Token>, spans: seq<S.Span>, external: int -> bool)
      returns (r: AddOutcome)
      requires Valid() && S.AllInDocument(spans, |tokenIds|) && S.Supplied(spans, |tokenIds|)
      modifies this, spool
      ensures r.Added? || r.MissingFact? || r.Refused?
      ensures r.MissingFact? <==> exists i :: 0 <= i < |spans| && LacksFact(spans[i])
      ensures r.Added? <==> Acceptable(component, tokenIds, spans)
      ensures Valid()
      ensures r.Added? ==> tokens == old(tokens) + tokenIds && records == old(records) + 1
      ensures r.Added? ==> S.AllInDocument(S.SortSpans(spans), |tokenIds|)
      ensures r.Added? ==>
        spool.spans == old(spool.spans)
          + RowsOf(S.SortSpans(spans), old(records), component, old(total), tokenIds, external)
      ensures !r.Added? ==>
        tokens == old(tokens) && Files() == old(Files()) && spool.spans == old(spool.spans) && records == old(records)
      ensures r.MissingFact? ==>
        r.place < |spans| && LacksFact(spans[r.place]) && forall i | 0 <= i < r.place :: !LacksFact(spans[i])
      ensures allPayloadTokens == old(allPayloadTokens) + S.Tally(spans, PayloadsSeen(r, |spans|), PayloadTokens())
      ensures selectivePayloadTokens == old(selectivePayloadTokens)
        + S.Tally(spans, SelectivesSeen(r, |spans|), SelectiveTokens(external))
      ensures r.Added? && old(CountersAgree()) ==> CountersAgree()
      ensures !r.Added? ==>
        (allPayloadTokens == old(allPayloadTokens) <==> forall i | 0 <= i < |spans| :: !S.MaskedBySplit(spans[i]))
      ensures !r.Added? ==>
        (selectivePayloadTokens == old(selectivePayloadTokens)
         <==> forall i | 0 <= i < SelectivesSeen(r, |spans|) :: !S.MaskedBySelective(spans[i], external))
    {
      var missing, splitWeights, selectiveWeights := WeighSpans(|tokenIds|, spans, external);
      CountersMove(spans, |tokenIds|, external, if missing.None? then |spans|
        else missing.value + 1, if missing.None? then |spans| else missing.value);
      if missing.Some? {
        LacksFactUnacceptable(component, tokenIds, spans, missing.value);
        return MissingFact(missing.value);
      }
      var registered := Register(component, tokenIds, spans, external, splitWeights, selectiveWeights,
                                 old(allPayloadTokens), old(selectivePayloadTokens));
      r := if registered then Added else AddOutcome.Refused;
    }

    /** Checks the record's own Random supply, derives its weights while counting payload tokens,
        registers it with the ledger and appends tokens and weights. Exactly acceptable records
        are added. Any other leaves files and tables as they were, but the counters only when it
        was refused before the counting loop or has nothing to count. */
    method Add(component: string, tokenIds: seq<Token>, spans: seq<S.Span>, external: int -> bool)
      returns (r: AddOutcome)
      requires closed || Valid()
      modifies this, spool
      ensures r.WriterClosed? <==> old(closed)
      ensures r.OutsideDocument? <==> !old(closed) && !S.AllInDocument(spans, |tokenIds|)
      ensures r.Undersupplied? <==> !old(closed) && S.AllInDocument(spans, |tokenIds|) && !S.Supplied(spans, |tokenIds|)
      ensures r.MissingFact? <==>
        && !old(closed) && S.AllInDocument(spans, |tokenIds|) && S.Supplied(spans, |tokenIds|)
        && exists i :: 0 <= i < |spans| && LacksFact(spans[i])
      ensures r.Added? <==> !old(closed) && Acceptable(component, tokenIds, spans)
      ensures closed == old(closed) && (!closed ==> Valid()) && (old(Ready()) ==> Ready())
      ensures r.Added? ==> tokens == old(tokens) + tokenIds && records == old(records) + 1
      ensures r.Added? ==> S.AllInDocument(S.SortSpans(spans), |tokenIds|)
      ensures r.Added? ==>
        spool.spans == old(spool.spans)
          + RowsOf(S.SortSpans(spans), old(records), component, old(total), tokenIds, external)
      ensures !r.Added? ==>
        tokens == old(tokens) && Files() == old(Files()) && spool.spans == old(spool.spans) && records == old(records)
      // What the counters have seen.
      ensures r.MissingFact? ==>
        r.place < |spans| && LacksFact(spans[r.place]) && forall i | 0 <= i < r.place :: !LacksFact(spans[i])
      ensures allPayloadTokens == old(allPayloadTokens) + S.Tally(spans, PayloadsSeen(r, |spans|), PayloadTokens())
      ensures selectivePayloadTokens == old(selectivePayloadTokens)
        + S.Tally(spans, SelectivesSeen(r, |spans|), SelectiveTokens(external))
      ensures r.Added? && old(CountersAgree()) ==> CountersAgree()
      ensures !r.Added? ==>
        (allPayloadTokens == old(allPayloadTokens)
         <==> r.WriterClosed? || r.OutsideDocument? || r.Undersupplied? || forall i | 0 <= i < |spans| ::
           !S.MaskedBySplit(spans[i]))
      ensures !r.Added? ==>
        (selectivePayloadTokens == old(selectivePayloadTokens)
         <==> forall i | 0 <= i < SelectivesSeen(r, |spans|) :: !S.MaskedBySelective(spans[i], external))
    {
      if closed {
        return WriterClosed;
      }
      var supply := S.RequireLocalSupply(spans, |tokenIds|);
      if supply.OutsideDocument? {
        return OutsideDocument;
      }
      if supply.Undersupplied? {
        assert S.Count(spans, S.RandomControl, supply.key, |tokenIds|) < S.Count(spans, S.Payload, supply.key,
          |tokenIds|);
        return Undersupplied(supply.key);
      }
      r := AddSupplied(component, tokenIds, spans, external);
    }

    /** Random matching over the closed files: with enough candidates and an all-ones Random
        sidecar it cannot fail. */
    method MatchRandom(rank: nat -> nat)
      requires closed && Ready()
      modifies this`random, spool
      ensures closed && spool.Valid() && spool.finalized && spool.spans == old(spool.spans)
      ensures spool.demands == old(spool.demands) && spool.candidates == old(spool.candidates)
      ensures Matched(spool.spans, rank, spool.demands, spool.candidates, spool.selected)
      ensures Zeroed(old(random), random, spool.spans, spool.selected)
    {
      var file := new Byte[|random|](i requires 0 <= i < |random| reads this => random[i]);
      assert file[..] == random;
      var matched := spool.FinalizeRandom(file, rank);
      random := file[..];
    }

    /** Closes the files; the ledger stays open. */
    method Close()
      modifies this`closed
      ensures closed && (old(Ready()) ==> Ready()) && (old(CountersAgree()) <==> CountersAgree())
    {
      closed := true;
    }

    method Abort()
      modifies this, spool`closed
      ensures closed && spool.closed && tokens == [] && Files() == Sidecars([], [], [], []) && audit == old(audit)
    {
      Close();
      spool.closed := true;
      tokens, dense, split, random, selective := [], [], [], [], [];
    }

    /** Matching and verification of a closed, unpublished writer; see Finalize. */
    method MatchAndVerify(rank: nat -> nat, inventory: Option<seq<Entry>>, schedule: Schedule) returns (r: Result)
      requires closed && Ready()
      requires inventory.Some? ==> forall e | e in inventory.value :: e.tokenIds != []
      modifies this`random, spool
      ensures spool.spans == old(spool.spans) && spool.demands == old(spool.demands)
        && spool.candidates == old(spool.candidates)
      ensures forall i | i in spool.demands :: i < |spool.spans|
      ensures r.Passed? <==> ContentSound(tokens, spool.spans, spool.demands, inventory, schedule)
      ensures !r.SpoolClosed? && !r.NotFinalized? && !r.SidecarMismatch? && !r.HistogramMismatch? && spool.closed
      ensures r.Passed? ==>
        && Files() == old(Files()).(random := random)
        && Matched(spool.spans, rank, spool.demands, spool.candidates, spool.selected)
        && SameHistogram(spool.spans, spool.selected, spool.demands)
        && ZeroOn(random, |tokens|, spool.spans, spool.selected)
        && r.audit.random == r.audit.split && r.audit.denseAllOnes
        && Counted(spool.spans, r.audit.split, r.audit.selective)
    {
      ghost var before := Files();
      MatchRandom(rank);
      spool.closed := true;
      FinalizedIsSound(tokens, before, spool.spans, spool.selected, random, rank);
      r := VerifyWeightSidecars(tokens, Files(), spool.spans, spool.demands, spool.candidates, spool.selected,
                                spool.finalized, inventory, schedule);
    }

    /** Random matching and verification. After any run of records the supply, the alignment,
        the sidecar, the histogram and the mass checks cannot fail: publication succeeds if and
        only if the content checks hold. Then Random is zero exactly on the selected controls,
        which match Split's histogram, and the audited masses are the table's; they are the
        writer's own counters exactly when those still agree with the table. Otherwise every
        artifact is removed. It does not matter whether the writer was closed before. A published
        writer returns the audit it has stored, and an aborted one finds its ledger closed. */
    method Finalize(rank: nat -> nat, inventory: Option<seq<Entry>>, schedule: Schedule) returns (r: Result)
      requires Ready() || audit.Some? || spool.closed
      requires inventory.Some? ==> forall e | e in inventory.value :: e.tokenIds != []
      modifies this, spool
      ensures old(audit.Some?) ==>
        r == Passed(old(audit).value) && audit == old(audit) && tokens == old(tokens) && Files() == old(Files())
      ensures spool.spans == old(spool.spans) && spool.demands == old(spool.demands)
        && spool.candidates == old(spool.candidates)
      ensures r.SpoolClosed? <==> old(audit.None? && spool.closed)
      ensures old(audit.None?) && !r.SpoolClosed? ==> forall i | i in spool.demands :: i < |spool.spans|
      ensures old(audit.None?) && !r.SpoolClosed? ==>
        (r.Passed? <==> ContentSound(old(tokens), spool.spans, spool.demands, inventory, schedule))
      ensures !r.NotFinalized? && !r.SidecarMismatch? && !r.HistogramMismatch?
      ensures r.Passed? && old(audit.None?) ==>
        && audit == Some(r.audit) && tokens == old(tokens) && Files() == old(Files()).(random := random)
        && Matched(spool.spans, rank, spool.demands, spool.candidates, spool.selected)
        && SameHistogram(spool.spans, spool.selected, spool.demands)
        && ZeroOn(random, |tokens|, spool.spans, spool.selected)
        && r.audit.random == r.audit.split && r.audit.denseAllOnes
        && Counted(spool.spans, r.audit.split, r.audit.selective)
      ensures r.Passed? && old(audit.None?) ==>
        (old(CountersAgree()) <==>
          r.audit.split == old(allPayloadTokens) && r.audit.selective == old(selectivePayloadTokens))
      ensures !r.Passed? ==> tokens == [] && Files() == Sidecars([], [], [], []) && audit.None?
      ensures old(audit.None?) ==> closed && spool.closed
    {
      if audit.Some? {
        return Passed(audit.value);
      }
      Close();
      if spool.closed {
        Abort();
        return SpoolClosed;
      }
      r := MatchAndVerify(rank, inventory, schedule);
      if r.Passed? {
        audit := Some(r.audit);
      } else {
        Abort();
      }
    }
  }

  /** A refused record can move the counters: with an empty component the supply check passes,
      the payload is counted, and only then does the ledger refuse. */
  method RefusalMovesCounters(external: int -> bool) returns (writer: CorpusWriter, r: AddOutcome)
    ensures r.Refused? && writer.Valid() && !writer.CountersAgree()
    ensures writer.tokens == [] && writer.spool.spans == [] && writer.allPayloadTokens == 1
  {
    writer := new CorpusWriter();
    var spans :=
      [PlainSpan(0, 1, S.Payload, Some("fact")), PlainSpan(1, 2, S.RandomControl, None),
        PlainSpan(2, 20, S.Plain, None)];
    var tokenIds: seq<Token> := seq(20, _ => 0);
    WitnessIsSupplied(spans);
    r := writer.Add("", tokenIds, spans, external);
    MassOfNone(writer.spool.spans, 0);
  }

  function PlainSpan(start: int, end: int, role: S.Role, factId: Option<string>): S.Span {
    S.Span(start, end, role, factId, None, None, None)
  }

  lemma {:induction false} WitnessIsSupplied(spans: seq<S.Span>)
    requires spans
      == [PlainSpan(0, 1, S.Payload, Some("fact")), PlainSpan(1, 2, S.RandomControl, None),
        PlainSpan(2, 20, S.Plain, None)]
    ensures S.AllInDocument(spans, 20) && S.Supplied(spans, 20) && S.Tally(spans, 3, PayloadTokens()) == 1
  {
    forall key
      ensures S.Count(spans, S.Payload, key, 20) <= S.Count(spans, S.RandomControl, key, 20)
    {
      TallyOfThree(spans, S.Indicator(S.Payload, key, 20));
      TallyOfThree(spans, S.Indicator(S.RandomControl, key, 20));
    }
    TallyOfThree(spans, PayloadTokens());
  }

  lemma {:induction false} TallyOfThree(spans: seq<S.Span>, f: S.Span -> nat)
    requires |spans| == 3
    ensures S.Tally(spans, 3, f) == f(spans[0]) + f(spans[1]) + f(spans[2])
  {
    assert S.Tally(spans, 1, f) == S.Tally(spans, 0, f) + f(spans[0]);
    assert S.Tally(spans, 2, f) == S.Tally(spans, 1, f) + f(spans[1]);
  }

  lemma {:induction false} LacksFactUnacceptable(component: string, tokenIds: seq<Token>, spans: seq<S.Span>, i: nat)
    requires i < |spans| && LacksFact(spans[i])
    ensures !Acceptable(component, tokenIds, spans)
  {
    assert spans[i] in multiset(spans);
  }

  /** The counting loop leaves a counter alone exactly when it sees nothing to count. */
  lemma {:induction false} CountersMove(spans: seq<S.Span>, length: int, external: int -> bool, payloads: nat,
                                        selectives: nat)
    requires S.AllInDocument(spans, length) && payloads <= |spans| && selectives <= |spans|
    ensures S.Tally(spans, payloads, PayloadTokens()) == 0 <==>
      forall i | 0 <= i < payloads :: !S.MaskedBySplit(spans[i])
    ensures S.Tally(spans, selectives, SelectiveTokens(external)) == 0 <==>
      forall i | 0 <= i < selectives :: !S.MaskedBySelective(spans[i], external)
  {
    TallyIsZero(spans, payloads, PayloadTokens());
    TallyIsZero(spans, selectives, SelectiveTokens(external));
    forall i | 0 <= i < |spans|
      ensures S.InDocument(spans[i], length)
    {
    }
  }

  /** Counting every span of a registered record keeps the counters in agreement. */
  lemma {:induction false} CountersFollow(rows: seq<SpanRow>, spans: seq<S.Span>, recordIndex: int, component: string,
                                          total: int,
                                          tokenIds: seq<Token>, external: int -> bool, payload: int, selective: int)
    requires S.AllInDocument(S.SortSpans(spans), |tokenIds|)
    ensures Counted(rows, payload, selective) ==>
      Counted(rows + RowsOf(S.SortSpans(spans), recordIndex, component, total, tokenIds, external),
              payload + S.Tally(spans, |spans|, PayloadTokens()),
                selective + S.Tally(spans, |spans|, SelectiveTokens(external)))
  {
    var more := RowsOf(S.SortSpans(spans), recordIndex, component, total, tokenIds, external);
    PayloadCounterGrows(rows, total, spans, more, recordIndex, component, tokenIds, external);
    SelectiveCounterGrows(rows, total, spans, more, recordIndex, component, tokenIds, external);
  }

  lemma PayloadCounterGrows(rows: seq<SpanRow>, total: int, spans: seq<S.Span>, more: seq<SpanRow>, recordIndex: int,
                            component: string, tokenIds: seq<Token>, external: int -> bool)
    requires S.AllInDocument(S.SortSpans(spans), |tokenIds|)
    requires more == RowsOf(S.SortSpans(spans), recordIndex, component, total, tokenIds, external)
    ensures Mass(rows + more, Having(rows + more, S.Payload), |rows + more|)
         == Mass(rows, Having(rows, S.Payload), |rows|) + S.Tally(spans, |spans|, PayloadTokens())
  {
    DemandsExtend(rows, total, S.SortSpans(spans), recordIndex, component, tokenIds, external);
    MassAfter(rows, total, spans, more, Having(rows, S.Payload), Having(rows + more, S.Payload), PayloadTokens());
  }

  lemma SelectiveCounterGrows(rows: seq<SpanRow>, total: int, spans: seq<S.Span>, more: seq<SpanRow>, recordIndex: int,
                              component: string, tokenIds: seq<Token>, external: int -> bool)
    requires S.AllInDocument(S.SortSpans(spans), |tokenIds|)
    requires more == RowsOf(S.SortSpans(spans), recordIndex, component, total, tokenIds, external)
    ensures Mass(rows + more, SelectiveRows(rows + more, Having(rows + more, S.Payload)), |rows + more|)
         == Mass(rows, SelectiveRows(rows, Having(rows, S.Payload)), |rows|)
           + S.Tally(spans, |spans|, SelectiveTokens(external))
  {
    DemandsExtend(rows, total, S.SortSpans(spans), recordIndex, component, tokenIds, external);
    MassAfter(rows, total, spans, more, SelectiveRows(rows, Having(rows, S.Payload)),
              SelectiveRows(rows + more, Having(rows + more, S.Payload)), SelectiveTokens(external));
  }
}
