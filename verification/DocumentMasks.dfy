/** The four sidecars of one encoded document, with the Random controls sampled freely key by
    key (mask_ledger.py, derive_weight_sidecars). */
module DocumentMasks {
  import opened Wrappers
  import opened Tokens
  import opened OccurrenceTable
  import opened OccurrenceLedger
  import opened SidecarAudit
  import opened CorpusWriting
  import S = Spans
  import ZeroRuns

  type Sampler = (set<nat>, nat) -> set<nat>

  /** random.sample: that many members of the pool, whichever. */
  ghost predicate Samples(sample: Sampler) {
    forall pool: set<nat>, count: nat | count <= |pool| :: sample(pool, count) <= pool && |sample(pool, count)| == count
  }

  datatype Derived = Derived(sidecars: Sidecars) | BadSpans | Undersupply(key: S.Key)

  function Blank(length: nat): seq<Token> { seq(length, _ => 0) }

  /** The rows that the spans make as the only record of a ledger. */
  function DocumentRows(spans: seq<S.Span>, length: nat, external: int -> bool): seq<SpanRow>
    requires S.AllInDocument(S.SortSpans(spans), length)
  {
    RowsOf(S.SortSpans(spans), 0, "", 0, Blank(length), external)
  }

  // ----- sampling -----

  /** The demanded number is chosen for each key that is done, and nothing for the others. */
  ghost predicate PartlySampled(rows: seq<SpanRow>, demands: set<nat>, chosen: set<nat>, todo: set<S.Key>) {
    forall key {:trigger ByKey(rows, chosen, key)} ::
      |ByKey(rows, chosen, key)| == if key in todo then 0 else |ByKey(rows, demands, key)|
  }

  lemma {:induction false} SampledMore(rows: seq<SpanRow>, demands: set<nat>, candidates: set<nat>, already: set<nat>,
                                       chosen: set<nat>, todo: set<S.Key>, key: S.Key)
    requires PartlySampled(rows, demands, already, todo) && key in todo
    requires chosen <= ByKey(rows, candidates, key) && |chosen| == |ByKey(rows, demands, key)|
    ensures PartlySampled(rows, demands, already + chosen, todo - {key})
  {
    assert ByKey(rows, already, key) == {} by {
      assert |ByKey(rows, already, key)| == 0;
    }
    ChosenByKey(rows, ByKey(rows, candidates, key), key, already, chosen);
    forall other
      ensures |ByKey(rows, already + chosen, other)| == if other in todo - {key} then 0
        else |ByKey(rows, demands, other)|
    {
      assert |ByKey(rows, already, other)| == if other in todo then 0 else |ByKey(rows, demands, other)|;
    }
  }

  lemma {:induction false} NothingSampled(rows: seq<SpanRow>, demands: set<nat>, todo: set<S.Key>)
    requires forall key | key !in todo :: ByKey(rows, demands, key) == {}
    ensures PartlySampled(rows, demands, {}, todo)
  {
    forall key
      ensures ByKey(rows, {}, key) == {}
    {
    }
  }

  /** Zeroes the chosen spans in place. */
  method ZeroSpans(random: array<Byte>, rows: seq<SpanRow>, chosen: set<nat>)
    requires TableValid(rows, random.Length) && forall i | i in chosen :: i < |rows|
    modifies random
    ensures Zeroed(old(random[..]), random[..], rows, chosen)
  {
    for i := 0 to |rows|
      invariant Zeroed(old(random[..]), random[..], rows, UpTo(chosen, i))
    {
      UpToStep(chosen, i);
      if i in chosen {
        label Before:
        for p := rows[i].start to rows[i].end
          invariant forall q | 0 <= q < random.Length ::
            random[q] == if rows[i].start <= q < p then 0 else old@Before(random[q])
        {
          random[p] := 0;
        }
      }
    }
    assert UpTo(chosen, |rows|) == chosen;
  }

  /** One key: its sample is zeroed and joins the selection. */
  method SampleKey(buffer: array<Byte>, rows: seq<SpanRow>, ghost demands: set<nat>, candidates: set<nat>,
                   sample: Sampler, key: S.Key, count: nat, selected: set<nat>, ghost keys: set<S.Key>,
                   ghost ones: seq<Byte>)
    returns (more: set<nat>)
    requires TableValid(rows, buffer.Length) && Samples(sample) && forall i | i in candidates :: i < |rows|
    requires count == |ByKey(rows, demands, key)| <= |ByKey(rows, candidates, key)| && key in keys
    requires selected <= candidates && PartlySampled(rows, demands, selected, keys)
    requires Zeroed(ones, buffer[..], rows, selected)
    modifies buffer
    ensures more <= candidates && PartlySampled(rows, demands, more, keys - {key})
    ensures Zeroed(ones, buffer[..], rows, more)
  {
    var chosen := sample(ByKey(rows, candidates, key), count);
    ghost var middle := buffer[..];
    ZeroSpans(buffer, rows, chosen);
    ZeroedMore(ones, middle, buffer[..], rows, selected, chosen);
    SampledMore(rows, demands, candidates, selected, chosen, keys, key);
    more := selected + chosen;
  }

  /** One sample for each demanded key. */
  method SampleRandom(rows: seq<SpanRow>, total: nat, demands: set<nat>, candidates: set<nat>, sample: Sampler)
    returns (random: seq<Byte>, selected: set<nat>)
    requires TableValid(rows, total) && Enough(rows, demands, candidates) && Samples(sample)
    requires (forall i | i in demands :: i < |rows|) && forall i | i in candidates :: i < |rows|
    ensures selected <= candidates && SameHistogram(rows, selected, demands)
    ensures Zeroed(seq(total, _ => 1), random, rows, selected)
  {
    var buffer := new Byte[total](_ => 1);
    ghost var ones := buffer[..];
    var counts := KeyCounts(rows, demands);
    var keys := counts.Keys;
    selected := {};
    NothingSampled(rows, demands, keys);
    while keys != {}
      invariant keys <= counts.Keys && selected <= candidates
      invariant PartlySampled(rows, demands, selected, keys) && Zeroed(ones, buffer[..], rows, selected)
    {
      var key :| key in keys;
      selected := SampleKey(buffer, rows, demands, candidates, sample, key, counts[key], selected, keys, ones);
      keys := keys - {key};
    }
    random := buffer[..];
    assert ones == seq(total, _ => 1);
  }

  // ----- the document -----

  lemma {:induction false} UnsortedInDocument(spans: seq<S.Span>, length: int)
    requires S.AllInDocument(S.SortSpans(spans), length)
    ensures S.AllInDocument(spans, length)
  {
    S.SortPermutes(spans);
    forall i | 0 <= i < |spans|
      ensures S.InDocument(spans[i], length)
    {
      assert spans[i] in multiset(S.SortSpans(spans));
    }
  }

  /** A well-formed and supplied document is a consistent ledger of one record. */
  lemma {:induction false} DocumentIsConsistent(spans: seq<S.Span>, length: nat, external: int -> bool,
                                                split: seq<Byte>, selective: seq<Byte>, ones: seq<Byte>)
    requires S.Disjoint(S.SortSpans(spans)) && S.AllInDocument(S.SortSpans(spans), length) && S.Supplied(spans, length)
    requires |split| == |selective| == length && AllOnes(ones, length)
    requires WeightsFor(split, spans, PayloadTokens()) && WeightsFor(selective, spans, SelectiveTokens(external))
    ensures Consistent(Blank(length), Sidecars(ones, split, ones, selective), DocumentRows(spans, length, external))
  {
    var none := Sidecars([], [], [], []);
    assert Consistent([], none, []) by {
      assert Having([], S.Payload) == {} && Having([], S.RandomControl) == {};
      forall key
        ensures ByKey([], {}, key) == {}
      {
      }
    }
    var after := Sidecars([] + ones, [] + split, [] + ones, [] + selective);
    ConsistentGrows([], none, [], spans, 0, "", Blank(length), external, after, ones, split, selective);
    assert [] + Blank(length) == Blank(length) && []
      + DocumentRows(spans, length, external) == DocumentRows(spans, length, external);
    assert [] + ones == ones && [] + split == split && [] + selective == selective;
  }

  /** What derived sidecars are: those the verifier accepts for the document's rows, with as
      many sampled controls of each length and position bin as there are payloads. */
  ghost predicate SoundFor(sidecars: Sidecars, spans: seq<S.Span>, length: nat, external: int -> bool,
                           selected: set<nat>)
    requires S.AllInDocument(S.SortSpans(spans), length)
  {
    var rows := DocumentRows(spans, length, external);
    && LedgerTables(rows, length, Having(rows, S.Payload), Having(rows, S.RandomControl), selected)
    && SidecarsSound(sidecars, length, rows, Having(rows, S.Payload), selected)
    && SameHistogram(rows, selected, Having(rows, S.Payload))
  }

  /** A payload lies here. */
  ghost predicate PaidAt(spans: seq<S.Span>, p: int) {
    exists s :: s in spans && s.role == S.Payload && s.start <= p < s.end
  }

  /** A payload lies here whose fact the route policy sends to the store. */
  ghost predicate StoredAt(spans: seq<S.Span>, external: int -> bool, p: int) {
    exists s, cost {:trigger s in spans, external(cost)} ::
      s in spans && s.role == S.Payload && s.factCost == Some(cost) && external(cost) && s.start <= p < s.end
  }

  /** What the weights of each position say, read off the document's spans. */
  ghost predicate MasksSpans(sidecars: Sidecars, spans: seq<S.Span>, length: nat, external: int -> bool) {
    && |sidecars.dense| == |sidecars.split| == |sidecars.selective| == |sidecars.random| == length
    && forall p: nat | p < length ::
         && sidecars.dense[p] == 1
         && sidecars.split[p] == (if PaidAt(spans, p) then 0 else 1)
         && sidecars.selective[p] == (if StoredAt(spans, external, p) then 0 else 1)
  }

  lemma {:induction false} WeighsPaid(spans: seq<S.Span>, external: int -> bool, p: int)
    ensures Weighs(spans, |spans|, PayloadTokens(), p) <==> PaidAt(spans, p)
    ensures Weighs(spans, |spans|, SelectiveTokens(external), p) <==> StoredAt(spans, external, p)
  {
    if PaidAt(spans, p) {
      var s :| s in spans && s.role == S.Payload && s.start <= p < s.end;
      var i :| 0 <= i < |spans| && spans[i] == s;
      assert PayloadTokens()(spans[i]) > 0;
    }
    if StoredAt(spans, external, p) {
      var s, cost :| s in spans && s.role == S.Payload && s.factCost == Some(cost) && external(cost)
        && s.start <= p < s.end;
      var i :| 0 <= i < |spans| && spans[i] == s;
      assert SelectiveTokens(external)(spans[i]) > 0;
    }
    if Weighs(spans, |spans|, SelectiveTokens(external), p) {
      var i :| 0 <= i < |spans| && SelectiveTokens(external)(spans[i]) > 0 && spans[i].start <= p < spans[i].end;
      var cost := spans[i].factCost.value;
      assert spans[i] in spans && external(cost) && spans[i].factCost == Some(cost);
    }
  }

  /** All four sidecars of one document: derived exactly when its spans are well formed and
      every payload key is supplied, and then the verifier's sidecar and histogram checks hold,
      whatever is sampled. */
  method DeriveWeightSidecars(spans: seq<S.Span>, external: int -> bool, sample: Sampler)
    returns (r: Derived, ghost selected: set<nat>)
    requires Samples(sample)
    ensures r.BadSpans? <==> !S.WellFormed(multiset(spans))
    ensures r.Derived? <==> S.WellFormed(multiset(spans)) && S.Supplied(spans, S.LastEnd(S.SortSpans(spans)))
    ensures r.Undersupply? ==>
      var length := S.LastEnd(S.SortSpans(spans));
      S.Count(spans, S.RandomControl, r.key, length) < S.Count(spans, S.Payload, r.key, length)
    ensures r.Derived? ==> var length := S.LastEnd(S.SortSpans(spans));
      length >= 0 && S.AllInDocument(S.SortSpans(spans), length)
        && SoundFor(r.sidecars, spans, length, external, selected)
    ensures r.Derived? ==> MasksSpans(r.sidecars, spans, |r.sidecars.dense|, external)
    ensures r.Derived? ==> S.EnoughControls(spans, |r.sidecars.dense|)
    ensures r.Derived? ==> S.LargestEnd(spans, |r.sidecars.dense|)
  {
    selected := {};
    var measured := S.ValidatedLength(spans);
    if measured.BadSpan? {
      return BadSpans, {};
    }
    var length: int := measured.length;
    UnsortedInDocument(spans, length);
    var supply := S.RequireLocalSupply(spans, length);
    if supply.Undersupplied? {
      return Derived.Undersupply(supply.key), {};
    }
    var sidecars;
    sidecars, selected := DeriveSupplied(spans, length, external, sample);
    r := Derived(sidecars);
  }

  method DeriveSupplied(spans: seq<S.Span>, length: nat, external: int -> bool, sample: Sampler)
    returns (sidecars: Sidecars, ghost selected: set<nat>)
    requires Samples(sample) && S.Disjoint(S.SortSpans(spans)) && S.AllInDocument(S.SortSpans(spans), length)
      && S.Supplied(spans, length)
    ensures SoundFor(sidecars, spans, length, external, selected) && MasksSpans(sidecars, spans, length, external)
  {
    UnsortedInDocument(spans, length);
    var split, splitTokens := RecordWeights(length, spans, PayloadTokens());
    var selective, selectiveTokens := RecordWeights(length, spans, SelectiveTokens(external));
    var ones: seq<Byte> := seq(length, _ => 1);
    DocumentIsConsistent(spans, length, external, split, selective, ones);
    var rows := DocumentRows(spans, length, external);
    var random;
    random, selected := SampleRandom(rows, length, Having(rows, S.Payload), Having(rows, S.RandomControl), sample);
    ZeroedIsSound(Blank(length), Sidecars(ones, split, ones, selective), rows, selected, random);
    sidecars := Sidecars(ones, split, random, selective);
    forall p: nat | p < length
      ensures split[p] == (if PaidAt(spans, p) then 0 else 1)
      ensures selective[p] == (if StoredAt(spans, external, p) then 0 else 1)
    {
      WeighsPaid(spans, external, p);
    }
  }

  // ----- counting masked tokens -----

  lemma {:induction false} ZerosOver(sidecar: seq<Byte>, a: nat, b: nat, value: Byte)
    requires a <= b <= |sidecar| && (value == 0 || value == 1) && forall p | a <= p < b :: sidecar[p] == value
    ensures ZeroRuns.Zeros(sidecar, b) == ZeroRuns.Zeros(sidecar, a) + if value == 0 then b - a else 0
    decreases b
  {
    if a < b {
      ZerosOver(sidecar, a, b - 1, value);
    }
  }

  function EndOf(rows: seq<SpanRow>, n: nat): int
    requires n <= |rows|
  {
    if n == 0 then 0 else rows[n - 1].end
  }

  /** A sidecar zero on some rows has as many zeros as those rows have tokens. */
  lemma {:induction false} ZerosAreMass(sidecar: seq<Byte>, total: nat, rows: seq<SpanRow>, ids: set<nat>, n: nat)
    requires TableValid(rows, total) && ZeroOn(sidecar, total, rows, ids) && n <= |rows|
    ensures 0 <= EndOf(rows, n) <= total && ZeroRuns.Zeros(sidecar, EndOf(rows, n)) == Mass(rows, ids, n)
  {
    if n > 0 {
      ZerosAreMass(sidecar, total, rows, ids, n - 1);
      var row := rows[n - 1];
      forall p | EndOf(rows, n - 1) <= p < row.start
        ensures !Masked(rows, ids, p)
      {
        BetweenRows(rows, total, ids, n - 1, p);
      }
      ZerosOver(sidecar, EndOf(rows, n - 1), row.start, 1);
      forall p | row.start <= p < row.end
        ensures Masked(rows, ids, p) <==> n - 1 in ids
      {
        if n - 1 !in ids {
          RolesApart(rows, total, ids, n - 1, p);
        }
      }
      ZerosOver(sidecar, row.start, row.end, if n - 1 in ids then 0 else 1);
    }
  }

  lemma {:induction false} BetweenRows(rows: seq<SpanRow>, total: int, ids: set<nat>, n: nat, p: int)
    requires TableValid(rows, total) && n <= |rows| && EndOf(rows, n) <= p && (n < |rows| ==> p < rows[n].start)
    ensures !Masked(rows, ids, p)
  {
  }

  lemma {:induction false} AllZerosAreMass(sidecar: seq<Byte>, total: nat, rows: seq<SpanRow>, ids: set<nat>)
    requires TableValid(rows, total) && ZeroRuns.ZeroExactlyOn(sidecar, total, RangesOf(rows, ids, |rows|))
    ensures ZeroRuns.Zeros(sidecar, |sidecar|) == Mass(rows, ids, |rows|)
  {
    forall p
      ensures ZeroRuns.In(RangesOf(rows, ids, |rows|), p) <==> Masked(rows, ids, p)
    {
      RangesMasked(rows, ids, |rows|, p);
    }
    ZerosAreMass(sidecar, total, rows, ids, |rows|);
    forall p | EndOf(rows, |rows|) <= p < total
      ensures !Masked(rows, ids, p)
    {
      BetweenRows(rows, total, ids, |rows|, p);
    }
    ZerosOver(sidecar, EndOf(rows, |rows|), total, 1);
  }

  /** Random and Split mask the same number of tokens of a document ... */
  lemma {:induction false} DocumentBalances(sidecars: Sidecars, spans: seq<S.Span>, length: nat, external: int -> bool,
                                            selected: set<nat>)
    requires S.AllInDocument(S.SortSpans(spans), length) && SoundFor(sidecars, spans, length, external, selected)
    ensures ZeroRuns.Zeros(sidecars.random, |sidecars.random|) == ZeroRuns.Zeros(sidecars.split, |sidecars.split|)
  {
    var rows := DocumentRows(spans, length, external);
    var demands := Having(rows, S.Payload);
    assert SidecarAgrees(Random, sidecars, length, rows, demands, selected)
      && SidecarAgrees(Split, sidecars, length, rows, demands, selected);
    AllZerosAreMass(sidecars.random, length, rows, selected);
    AllZerosAreMass(sidecars.split, length, rows, demands);
    EqualMass(rows, length, selected, demands);
  }

  /** ... and Random masks no protected one. */
  lemma {:induction false} DocumentKeepsProtected(sidecars: Sidecars, spans: seq<S.Span>, length: nat,
                                                  external: int -> bool, selected: set<nat>, i: nat, p: int)
    requires S.AllInDocument(S.SortSpans(spans), length) && SoundFor(sidecars, spans, length, external, selected)
    requires i < |S.SortSpans(spans)| && S.Protected(S.SortSpans(spans)[i].role)
      && S.SortSpans(spans)[i].start <= p < S.SortSpans(spans)[i].end
    ensures p < |sidecars.random| && sidecars.random[p] == 1
  {
    var rows := DocumentRows(spans, length, external);
    ProtectedCheckRedundant(sidecars, rows, length, Having(rows, S.Payload), Having(rows, S.RandomControl), selected, i,
      p);
  }
}
