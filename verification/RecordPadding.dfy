/** Padding a record until its payload spans have matching Random controls, and encoding it
    (srgm_worlds.py, _exact_role_key_counts, balance_record_random_controls and
    _return_segment_blocks; relational_build.py, _encode_record). */
module RecordPadding {
  import opened Wrappers
  import opened Spans

  /** A tagged segment: how many tokens its text encodes to, and what is recorded per token. */
  datatype Segment = Segment(tokens: nat, meta: Meta)

  datatype Meta = Meta(role: Role, factId: Option<string>, field: Option<string>, text: Option<string>)

  // ----- the tokenizer -----

  /** How many tokens a text encodes to. */
  type Tokenizer = string -> nat

  function Tabs(n: nat): string { seq(n, _ => '\t') }

  /** What the padding and the control blocks take for granted: n tabs are n tokens. */
  ghost predicate CountsTabs(enc: Tokenizer) { forall n: nat :: enc(Tabs(n)) == n }

  /** No text but the empty one encodes to nothing. */
  ghost predicate LosesNothing(enc: Tokenizer) { forall text: string | text != "" :: enc(text) > 0 }

  // ----- segments -----

  /** Where segment n starts. */
  function Start(segments: seq<Segment>, n: nat): nat
    requires n <= |segments|
  {
    if n == 0 then 0 else Start(segments, n - 1) + segments[n - 1].tokens
  }

  function Base(segments: seq<Segment>): nat { Start(segments, |segments|) }

  function SpanAt(start: nat, tokens: nat, meta: Meta): Span {
    Span(start, start + tokens, meta.role, meta.factId, None, meta.field, meta.text)
  }

  ghost function SegmentSpan(segments: seq<Segment>, i: nat): Span
    requires i < |segments|
  {
    SpanAt(Start(segments, i), segments[i].tokens, segments[i].meta)
  }

  ghost function SegmentSpans(segments: seq<Segment>, n: nat): (spans: seq<Span>)
    requires n <= |segments|
    ensures |spans| == n && forall i: nat | i < n :: spans[i] == SegmentSpan(segments, i)
  {
    if n == 0 then [] else SegmentSpans(segments, n - 1) + [SegmentSpan(segments, n - 1)]
  }

  ghost function AllSpans(segments: seq<Segment>): seq<Span> { SegmentSpans(segments, |segments|) }

  lemma {:induction false} StartGrows(segments: seq<Segment>, m: nat, n: nat)
    requires m <= n <= |segments|
    ensures Start(segments, m) <= Start(segments, n)
  {
    if m < n {
      StartGrows(segments, m, n - 1);
    }
  }

  /** relative_position_bin refuses an empty payload or control span. */
  predicate Countable(segments: seq<Segment>) {
    forall i | 0 <= i < |segments| && segments[i].meta.role in {Payload, RandomControl} :: segments[i].tokens > 0
  }

  /** A record's length once padded: its tokens, the padding and the end-of-text token. */
  function DocumentLength(segments: seq<Segment>, padding: nat): nat {
    Base(segments) + padding + 1
  }

  /** Under this padding every payload has a control of its own length and tenth of the document. */
  ghost predicate Covered(segments: seq<Segment>, padding: nat) {
    EnoughControls(AllSpans(segments), Base(segments) + padding + 1)
  }

  lemma {:induction false} CoveredMeans(segments: seq<Segment>, padding: nat)
    ensures Covered(segments, padding) <==> Supplied(AllSpans(segments), DocumentLength(segments, padding))
  {
    SuppliedMeans(AllSpans(segments), DocumentLength(segments, padding));
  }

  /** Some padding within the bound covers every payload key. */
  ghost predicate Coverable(segments: seq<Segment>, maxPadding: nat) {
    exists p: nat :: p <= maxPadding && Covered(segments, p)
  }

  // ----- the search -----

  method RoleKeyCounts(segments: seq<Segment>, role: Role, length: nat) returns (counts: Option<map<Key, nat>>)
    requires role in {Payload, RandomControl} && length > Base(segments)
    ensures counts.None? ==> !Countable(segments)
    ensures Countable(segments) ==> counts.Some?
    ensures counts.Some? ==> forall key :: Get(counts.value, key) == Count(AllSpans(segments), role, key, length)
    ensures counts.Some? ==> forall i | 0 <= i < |segments| && segments[i].meta.role == role :: segments[i].tokens > 0
  {
    var byKey: map<Key, nat> := map[];
    var start: nat := 0;
    for i: nat := 0 to |segments|
      invariant start == Start(segments, i)
      invariant forall key :: Get(byKey, key) == Tally(AllSpans(segments), i, Indicator(role, key, length))
      invariant forall j | 0 <= j < i && segments[j].meta.role == role :: segments[j].tokens > 0
    {
      var end := start + segments[i].tokens;
      StartGrows(segments, i + 1, |segments|);
      if segments[i].meta.role == role {
        if start == end {
          return None;
        }
        var key := Key(segments[i].tokens, PositionBin(start, end, length));
        KeyOfSegment(segments, i, length, key);
        byKey := byKey[key := Get(byKey, key) + 1];
      }
      start := end;
    }
    counts := Some(byKey);
  }

  lemma {:induction false} KeyOfSegment(segments: seq<Segment>, i: nat, length: nat, key: Key)
    requires i < |segments| && Start(segments, i) < Start(segments, i + 1) <= Base(segments) < length
    requires key == Key(segments[i].tokens, PositionBin(Start(segments, i), Start(segments, i + 1), length))
    ensures KeyOf(SegmentSpan(segments, i), length) == key && InDocument(SegmentSpan(segments, i), length)
  {
  }

  datatype Padded = Balanced(padding: nat, segments: seq<Segment>) | BadSegment | Undersupply

  const PLAIN := Meta(Plain, None, None, None)

  function Pad(segments: seq<Segment>, padding: nat, enc: Tokenizer): seq<Segment> {
    if padding == 0 then segments else segments + [Segment(enc(Tabs(padding)), PLAIN)]
  }

  predicate CoversAll(demands: map<Key, nat>, candidates: map<Key, nat>) {
    forall key | key in demands :: Get(candidates, key) >= demands[key]
  }

  /** The least padding that covers every payload key. */
  method BalanceRecord(segments: seq<Segment>, maxPadding: nat, enc: Tokenizer) returns (r: Padded)
    ensures r.BadSegment? <==> !Countable(segments)
    ensures r.Balanced? ==>
      r.padding <= maxPadding && Covered(segments, r.padding) && r.segments == Pad(segments, r.padding, enc)
    ensures r.Balanced? ==> forall q: nat | q < r.padding :: !Covered(segments, q)
    ensures r.Undersupply? ==> forall q: nat | q <= maxPadding :: !Covered(segments, q)
  {
    for padding: nat := 0 to maxPadding + 1
      invariant forall q: nat | q < padding :: !Covered(segments, q)
      invariant padding > 0 ==> Countable(segments)
    {
      var length := DocumentLength(segments, padding);
      var demands := RoleKeyCounts(segments, Payload, length);
      if demands.None? {
        return BadSegment;
      }
      var candidates := RoleKeyCounts(segments, RandomControl, length);
      if candidates.None? {
        return BadSegment;
      }
      CoveredIffEnough(segments, padding, demands.value, candidates.value);
      if CoversAll(demands.value, candidates.value) {
        return Balanced(padding, Pad(segments, padding, enc));
      }
    }
    r := Undersupply;
  }

  lemma {:induction false} CoveredIffEnough(segments: seq<Segment>, padding: nat, demands: map<Key, nat>,
                                            candidates: map<Key, nat>)
    requires forall key ::
      Get(demands, key) == Count(AllSpans(segments), Payload, key, DocumentLength(segments, padding))
    requires forall key ::
      Get(candidates, key) == Count(AllSpans(segments), RandomControl, key, DocumentLength(segments, padding))
    ensures Covered(segments, padding) <==> CoversAll(demands, candidates)
  {
    CoveredMeans(segments, padding);
    forall key
      ensures Get(demands, key) <= Get(candidates, key) <==>
              Count(AllSpans(segments), Payload, key, DocumentLength(segments, padding))
                <= Count(AllSpans(segments), RandomControl, key, DocumentLength(segments, padding))
    {
    }
    if Covered(segments, padding) {
      forall key | key in demands ensures Get(candidates, key) >= demands[key] {
        assert Get(demands, key) == demands[key];
      }
    }
  }

  // ----- when the search succeeds -----

  /** How many segments have this role and exactly this many tokens. */
  ghost function OfLength(segments: seq<Segment>, n: nat, role: Role, tokens: nat): nat
    requires n <= |segments|
  {
    if n == 0 then 0
    else
      OfLength(segments, n - 1, role, tokens)
      + if segments[n - 1].meta.role == role && segments[n - 1].tokens == tokens then 1 else 0
  }

  /** The counts of one length over bins below b. */
  ghost function OverBins(spans: seq<Span>, n: nat, role: Role, tokens: nat, length: nat, b: nat): nat
    requires n <= |spans|
  {
    if b == 0 then 0
    else
      OverBins(spans, n, role, tokens, length, b - 1)
      + Tally(spans, n, Indicator(role, Key(tokens, b - 1), length))
  }

  lemma {:induction false} OverBinsStep(spans: seq<Span>, n: nat, role: Role, tokens: nat, length: nat, b: nat)
    requires n < |spans|
    ensures OverBins(spans, n + 1, role, tokens, length, b) == OverBins(spans, n, role, tokens, length, b)
              + if InDocument(spans[n], length) && spans[n].role == role && KeyOf(spans[n], length).length == tokens
                && KeyOf(spans[n], length).bin < b then 1 else 0
  {
    if b > 0 {
      OverBinsStep(spans, n, role, tokens, length, b - 1);
    }
  }

  /** Every counted segment has exactly one of the ten bins. */
  lemma {:induction false} BinsCover(segments: seq<Segment>, n: nat, role: Role, tokens: nat, length: nat)
    requires n <= |segments| && tokens > 0 && length > Base(segments)
    ensures OverBins(AllSpans(segments), n, role, tokens, length, POSITION_BINS) == OfLength(segments, n, role, tokens)
  {
    if n > 0 {
      BinsCover(segments, n - 1, role, tokens, length);
      OverBinsStep(AllSpans(segments), n - 1, role, tokens, length, POSITION_BINS);
      StartGrows(segments, n, |segments|);
    } else {
      NoSpansNoBins(AllSpans(segments), role, tokens, length, POSITION_BINS);
    }
  }

  lemma {:induction false} NoSpansNoBins(spans: seq<Span>, role: Role, tokens: nat, length: nat, b: nat)
    ensures OverBins(spans, 0, role, tokens, length, b) == 0
  {
    if b > 0 {
      NoSpansNoBins(spans, role, tokens, length, b - 1);
    }
  }

  lemma {:induction false} BinsMonotone(spans: seq<Span>, tokens: nat, length: nat, b: nat)
    requires Supplied(spans, length)
    ensures OverBins(spans, |spans|, Payload, tokens, length, b)
      <= OverBins(spans, |spans|, RandomControl, tokens, length, b)
  {
    if b > 0 {
      BinsMonotone(spans, tokens, length, b - 1);
      assert Count(spans, Payload, Key(tokens, b - 1), length)
        <= Count(spans, RandomControl, Key(tokens, b - 1), length);
    }
  }

  /** For each length, no more payloads than controls. */
  ghost predicate LengthsCovered(segments: seq<Segment>) {
    forall tokens: nat | tokens > 0 ::
      OfLength(segments, |segments|, Payload, tokens) <= OfLength(segments, |segments|, RandomControl, tokens)
  }

  /** Whatever padding balances a record, its controls cover its payloads length by length. */
  lemma {:induction false} CoveredNeedsLengths(segments: seq<Segment>, padding: nat)
    requires Covered(segments, padding)
    ensures LengthsCovered(segments)
  {
    CoveredMeans(segments, padding);
    var length := DocumentLength(segments, padding);
    forall tokens: nat | tokens > 0
      ensures OfLength(segments, |segments|, Payload, tokens) <= OfLength(segments, |segments|, RandomControl, tokens)
    {
      BinsCover(segments, |segments|, Payload, tokens, length);
      BinsCover(segments, |segments|, RandomControl, tokens, length);
      BinsMonotone(AllSpans(segments), tokens, length, POSITION_BINS);
    }
  }

  /** Padded to more than ten times its length, a record lies in the first bin. */
  lemma {:induction false} FirstBin(start: nat, end: nat, base: nat)
    requires start < end <= base
    ensures PositionBin(start, end, 10 * base + 1) == 0
  {
    assert (start + end) * POSITION_BINS < 2 * (10 * base + 1);
    SmallQuotient((start + end) * POSITION_BINS, 2 * (10 * base + 1));
  }

  lemma {:induction false} SmallQuotient(x: nat, d: nat)
    requires x < d
    ensures x / d == 0
  {
  }

  lemma {:induction false} AllInFirstBin(segments: seq<Segment>, n: nat, role: Role, key: Key)
    requires n <= |segments| && role in {Payload, RandomControl} && Countable(segments)
    ensures Tally(AllSpans(segments), n, Indicator(role, key, 10 * Base(segments) + 1))
            == if key.bin == 0 && key.length > 0 then OfLength(segments, n, role, key.length) else 0
  {
    if n > 0 {
      AllInFirstBin(segments, n - 1, role, key);
      StartGrows(segments, n, |segments|);
      var span := SegmentSpan(segments, n - 1);
      if span.start < span.end {
        FirstBin(span.start, span.end, Base(segments));
      }
    }
  }

  /** Nine times the record's own length always suffices when the lengths are covered. */
  lemma {:induction false} NineTimesSuffices(segments: seq<Segment>)
    requires Countable(segments) && LengthsCovered(segments)
    ensures Covered(segments, 9 * Base(segments))
  {
    CoveredMeans(segments, 9 * Base(segments));
    var length := DocumentLength(segments, 9 * Base(segments));
    assert length == 10 * Base(segments) + 1;
    forall key
      ensures Count(AllSpans(segments), Payload, key, length) <= Count(AllSpans(segments), RandomControl, key, length)
    {
      AllInFirstBin(segments, |segments|, Payload, key);
      AllInFirstBin(segments, |segments|, RandomControl, key);
    }
  }

  /** With room for nine times its length, the search succeeds exactly on the records whose
      controls cover their payloads length by length. */
  method BalanceWithRoom(segments: seq<Segment>, maxPadding: nat, enc: Tokenizer) returns (r: Padded)
    requires Countable(segments) && 9 * Base(segments) <= maxPadding
    ensures r.Balanced? <==> LengthsCovered(segments)
    ensures r.Balanced? ==>
      r.padding <= 9 * Base(segments) && Covered(segments, r.padding) && r.segments == Pad(segments, r.padding, enc)
  {
    r := BalanceRecord(segments, maxPadding, enc);
    if r.Balanced? {
      CoveredNeedsLengths(segments, r.padding);
      NineTimesSuffices(segments);
    } else if LengthsCovered(segments) {
      NineTimesSuffices(segments);
    }
  }

  // ----- control blocks -----

  const CONTROL := Meta(RandomControl, None, None, None)

  datatype Blocks = Blocked(segments: seq<Segment>) | EmptyPayload

  /** Nothing is empty, and no payload or control looks like the segment before it. */
  ghost predicate Separated(segments: seq<Segment>) {
    && (forall i | 0 <= i < |segments| :: segments[i].tokens > 0)
    && forall i | 0 < i < |segments| && segments[i].meta.role in {Payload, RandomControl} ::
         segments[i].meta != segments[i - 1].meta
  }

  /** Returned segments with a plain or action one between any two payloads, and no controls yet. */
  ghost predicate Spaced(returned: seq<Segment>) {
    && (forall i | 0 <= i < |returned| :: returned[i].tokens > 0 && returned[i].meta.role != RandomControl)
    && forall i | 0 < i < |returned| && returned[i].meta.role == Payload :: returned[i - 1].meta.role != Payload
  }

  /** The segment itself, a payload between two controls of its own length. */
  function Block(segment: Segment, enc: Tokenizer): seq<Segment> {
    if segment.meta.role == Payload then
      var control := Segment(enc(Tabs(segment.tokens)), CONTROL);
      [control, segment, control]
    else [segment]
  }

  /** The counts after the first i returned segments: two controls for every payload. */
  ghost predicate TwoEach(balanced: seq<Segment>, returned: seq<Segment>, i: nat)
    requires i <= |returned|
  {
    forall tokens: nat ::
      && OfLength(balanced, |balanced|, Payload, tokens) == OfLength(returned, i, Payload, tokens)
      && OfLength(balanced, |balanced|, RandomControl, tokens)
         == OfLength(returned, i, RandomControl, tokens) + 2 * OfLength(returned, i, Payload, tokens)
  }

  lemma {:induction false} BlockCounts(balanced: seq<Segment>, returned: seq<Segment>, i: nat, enc: Tokenizer,
                                       next: nat)
    requires i < |returned| && next == i + 1 && CountsTabs(enc) && TwoEach(balanced, returned, i)
    ensures TwoEach(balanced + Block(returned[i], enc), returned, next)
  {
    var segment, added := returned[i], Block(returned[i], enc);
    forall tokens: nat
      ensures OfLength(balanced + added, |balanced + added|, Payload, tokens)
        == OfLength(returned, next, Payload, tokens)
      ensures OfLength(balanced + added, |balanced + added|, RandomControl, tokens)
              == OfLength(returned, next, RandomControl, tokens) + 2 * OfLength(returned, next, Payload, tokens)
    {
      OfLengthSplits(balanced, added, |added|, Payload, tokens);
      OfLengthSplits(balanced, added, |added|, RandomControl, tokens);
      OfLengthOfBlock(added, segment, tokens);
    }
  }

  /** How the blocks so far end: in a control, or in the last returned segment. */
  ghost predicate SeparatedSoFar(balanced: seq<Segment>, returned: seq<Segment>, i: nat)
    requires i <= |returned|
  {
    && Separated(balanced) && (balanced == [] <==> i == 0)
    && (i > 0 ==> balanced[|balanced| - 1].meta == EdgeOf(returned[i - 1]) && balanced[0].meta == EdgeOf(returned[0]))
  }

  /** What a segment's block begins and ends with. */
  ghost function EdgeOf(segment: Segment): Meta { if segment.meta.role == Payload then CONTROL else segment.meta }

  /** The first n returned segments' blocks. */
  ghost function BlocksOf(returned: seq<Segment>, n: nat, enc: Tokenizer): seq<Segment>
    requires n <= |returned|
  {
    if n == 0 then [] else BlocksOf(returned, n - 1, enc) + Block(returned[n - 1], enc)
  }

  lemma {:induction false} BlockSeparates(balanced: seq<Segment>, returned: seq<Segment>, i: nat, enc: Tokenizer,
                                          next: nat)
    requires i < |returned| && next == i + 1 && CountsTabs(enc) && Spaced(returned)
      && SeparatedSoFar(balanced, returned, i)
    ensures SeparatedSoFar(balanced + Block(returned[i], enc), returned, next)
  {
    var added := Block(returned[i], enc);
    var all := balanced + added;
    forall k | 0 < k < |all| && all[k].meta.role in {Payload, RandomControl}
      ensures all[k].meta != all[k - 1].meta
    {
      if k == |balanced| {
        assert all[k] == added[0] && all[k - 1] == balanced[|balanced| - 1];
      }
    }
  }

  ghost predicate NoControls(returned: seq<Segment>, n: nat)
    requires n <= |returned|
  {
    forall i | 0 <= i < n :: returned[i].meta.role != RandomControl
  }

  /** Each payload between two controls of its own length. */
  method ReturnBlocks(returned: seq<Segment>, enc: Tokenizer) returns (r: Blocks)
    ensures r.EmptyPayload? <==>
      exists i :: 0 <= i < |returned| && returned[i].meta.role == Payload && returned[i].tokens == 0
    ensures r.Blocked? ==> r.segments == BlocksOf(returned, |returned|, enc)
    ensures r.Blocked? && CountsTabs(enc) ==> TwoEach(r.segments, returned, |returned|)
    ensures r.Blocked? && CountsTabs(enc) && NoControls(returned, |returned|) ==>
      LengthsCovered(r.segments) && Countable(r.segments)
    ensures r.Blocked? && CountsTabs(enc) && Spaced(returned) ==> SeparatedSoFar(r.segments, returned, |returned|)
  {
    var balanced: seq<Segment> := [];
    for i: nat := 0 to |returned|
      invariant forall k | 0 <= k < i && returned[k].meta.role == Payload :: returned[k].tokens > 0
      invariant balanced == BlocksOf(returned, i, enc) && (CountsTabs(enc) ==> TwoEach(balanced, returned, i))
      invariant CountsTabs(enc) && NoControls(returned, i) ==>
        Countable(balanced)
      invariant CountsTabs(enc) && Spaced(returned) ==> SeparatedSoFar(balanced, returned, i)
    {
      var segment := returned[i];
      if segment.meta.role == Payload && segment.tokens == 0 {
        return EmptyPayload;
      }
      ghost var next := i + 1;
      if CountsTabs(enc) {
        BlockCounts(balanced, returned, i, enc, next);
        if Spaced(returned) {
          BlockSeparates(balanced, returned, i, enc, next);
        }
      }
      balanced := balanced + Block(segment, enc);
    }
    r := Blocked(balanced);
  }

  /** That n tabs are n tokens is needed: a lone payload's block covers it exactly when its
      controls have its length. */
  lemma {:induction false} TabsMustCount(payload: Segment, enc: Tokenizer)
    requires payload.meta.role == Payload && payload.tokens > 0
    ensures LengthsCovered(Block(payload, enc)) <==> enc(Tabs(payload.tokens)) == payload.tokens
  {
    var block := Block(payload, enc);
    var n := payload.tokens;
    assert OfLength(block, 0, Payload, n) == OfLength(block, 0, RandomControl, n) == 0;
    assert OfLength(block, 1, Payload, n) == 0 && OfLength(block, 2, Payload, n) == 1 == OfLength(block, 3, Payload, n);
    if enc(Tabs(n)) == n {
      forall tokens: nat | tokens > 0
        ensures OfLength(block, |block|, Payload, tokens) <= OfLength(block, |block|, RandomControl, tokens)
      {
        OfLengthOfBlock(block, payload, tokens);
      }
    } else {
      assert OfLength(block, 1, RandomControl, n) == OfLength(block, 2, RandomControl, n)
        == OfLength(block, 3, RandomControl, n) == 0;
    }
  }

  lemma {:induction false} OfLengthSplits(a: seq<Segment>, b: seq<Segment>, n: nat, role: Role, tokens: nat)
    requires n <= |b|
    ensures OfLength(a + b, |a| + n, role, tokens) == OfLength(a, |a|, role, tokens) + OfLength(b, n, role, tokens)
  {
    if n == 0 {
      OfLengthPrefix(a, b, |a|, role, tokens);
    } else {
      OfLengthSplits(a, b, n - 1, role, tokens);
    }
  }

  lemma {:induction false} OfLengthPrefix(a: seq<Segment>, b: seq<Segment>, n: nat, role: Role, tokens: nat)
    requires n <= |a|
    ensures OfLength(a + b, n, role, tokens) == OfLength(a, n, role, tokens)
  {
    if n > 0 {
      OfLengthPrefix(a, b, n - 1, role, tokens);
    }
  }

  lemma {:induction false} OfLengthOfBlock(added: seq<Segment>, segment: Segment, tokens: nat)
    requires added == if segment.meta.role == Payload
      then [Segment(segment.tokens, CONTROL), segment, Segment(segment.tokens, CONTROL)] else [segment]
    ensures OfLength(added, |added|, Payload, tokens) == if segment.meta.role == Payload
      && segment.tokens == tokens then 1 else 0
    ensures OfLength(added, |added|, RandomControl, tokens)
            == if segment.tokens != tokens then 0 else if segment.meta.role == Payload then 2
              else if segment.meta.role == RandomControl then 1 else 0
  {
    assert OfLength(added, 0, Payload, tokens) == 0 && OfLength(added, 0, RandomControl, tokens) == 0;
    if segment.meta.role == Payload {
      var one := if segment.tokens == tokens then 1 else 0;
      assert OfLength(added, 1, Payload, tokens) == 0 && OfLength(added, 1, RandomControl, tokens) == one;
      assert OfLength(added, 2, Payload, tokens) == one && OfLength(added, 2, RandomControl, tokens) == one;
    }
  }

  // ----- encoding -----

  /** What encode_tagged_segments and the parallel lists hold for each token. */
  function Metas(segments: seq<Segment>, n: nat): (metas: seq<Meta>)
    requires n <= |segments|
    ensures |metas| == Start(segments, n)
  {
    if n == 0 then [] else Metas(segments, n - 1) + seq(segments[n - 1].tokens, i => segments[n - 1].meta)
  }

  function MetaOf(s: Span): Meta { Meta(s.role, s.factId, s.field, s.text) }

  /** The maximal runs of equal tokens over the first n tokens. */
  ghost predicate Runs(metas: seq<Meta>, spans: seq<Span>, n: nat) {
    && n <= |metas| && (n == 0 <==> spans == []) && (spans != [] ==> spans[0].start == 0 && spans[|spans| - 1].end == n)
    && (forall k | 0 <= k < |spans| :: 0 <= spans[k].start < spans[k].end <= n)
    && (forall k | 0 <= k < |spans| ::
         forall t: nat | spans[k].start <= t < spans[k].end :: metas[t] == MetaOf(spans[k]))
    && forall k | 0 < k < |spans| :: spans[k].start == spans[k - 1].end && MetaOf(spans[k]) != MetaOf(spans[k - 1])
  }

  lemma {:induction false} RunsGrow(metas: seq<Meta>, spans: seq<Span>, start: nat, span: Span)
    requires Runs(metas, spans, start) && span.start == start < span.end <= |metas|
    requires forall t: nat | start <= t < span.end :: metas[t] == MetaOf(span)
    requires spans != [] ==> MetaOf(span) != MetaOf(spans[|spans| - 1])
    ensures Runs(metas, spans + [span], span.end)
  {
    var next := spans + [span];
    forall k | 0 <= k < |next|
      ensures forall t: nat | next[k].start <= t < next[k].end :: metas[t] == MetaOf(next[k])
    {
      if k < |spans| {
        assert next[k] == spans[k];
      }
    }
  }

  ghost predicate Complete(meta: Meta, costs: map<string, int>) {
    meta.factId.Some? && meta.factId.value in costs && meta.field.Some? && meta.text.Some?
  }

  /** Every payload token has its metadata and a cost. */
  ghost predicate PaidFor(metas: seq<Meta>, costs: map<string, int>) {
    forall t | 0 <= t < |metas| && metas[t].role == Payload :: Complete(metas[t], costs)
  }

  ghost predicate HasCost(span: Span, costs: map<string, int>) {
    span.role == Payload ==>
      span.factId.Some? && span.factId.value in costs && span.factCost == Some(costs[span.factId.value])
  }

  datatype Encoded = Spans(spans: seq<Span>) | MissingCost | MissingMetadata

  /** The end of the run that starts here. */
  method RunEnd(metas: seq<Meta>, start: nat) returns (end: nat)
    requires start < |metas|
    ensures start < end <= |metas| && forall t: nat | start <= t < end :: metas[t] == metas[start]
    ensures end < |metas| ==> metas[end] != metas[start]
  {
    end := start + 1;
    while end < |metas| && metas[end] == metas[start]
      invariant start < end <= |metas| && forall t: nat | start <= t < end :: metas[t] == metas[start]
    {
      end := end + 1;
    }
  }

  datatype Run = Costed(span: Span) | NoCost | NoMetadata

  /** One run's span, with the cost of a payload's fact. */
  function CostedRun(meta: Meta, start: nat, end: nat, costs: map<string, int>): (run: Run)
    requires start < end
    ensures run.Costed? <==> (meta.role == Payload ==> Complete(meta, costs))
    ensures run.Costed? ==>
      run.span.start == start && run.span.end == end && MetaOf(run.span) == meta && HasCost(run.span, costs)
  {
    if meta.role != Payload then Costed(Span(start, end, meta.role, meta.factId, None, meta.field, meta.text))
    else if meta.factId.None? || meta.factId.value !in costs then NoCost
    else if meta.field.None? || meta.text.None? then NoMetadata
    else Costed(Span(start, end, meta.role, meta.factId, Some(costs[meta.factId.value]), meta.field, meta.text))
  }

  const BOUNDARY := Meta(Boundary, None, None, None)

  /** The record's spans: maximal runs of equal tokens, with the cost of a payload's fact, and
      the boundary span of the end-of-text token. */
  method EncodeRecord(metas: seq<Meta>, costs: map<string, int>) returns (r: Encoded)
    ensures r.Spans? ==> |r.spans| > 0 && r.spans[|r.spans| - 1] == SpanAt(|metas|, 1, BOUNDARY)
    ensures r.Spans? ==> Runs(metas, r.spans[..|r.spans| - 1], |metas|)
    ensures r.Spans? ==> forall k | 0 <= k < |r.spans| :: HasCost(r.spans[k], costs)
    ensures r.Spans? <==> PaidFor(metas, costs)
  {
    var spans: seq<Span> := [];
    var start: nat := 0;
    while start < |metas|
      invariant start <= |metas| && Runs(metas, spans, start)
      invariant start < |metas| && spans != [] ==> metas[start] != MetaOf(spans[|spans| - 1])
      invariant forall t | 0 <= t < start && metas[t].role == Payload :: Complete(metas[t], costs)
      invariant forall k | 0 <= k < |spans| :: HasCost(spans[k], costs)
    {
      var end := RunEnd(metas, start);
      var run := CostedRun(metas[start], start, end, costs);
      if !run.Costed? {
        return if run.NoCost? then MissingCost else MissingMetadata;
      }
      RunsGrow(metas, spans, start, run.span);
      spans := spans + [run.span];
      start := end;
    }
    var all := spans + [SpanAt(|metas|, 1, BOUNDARY)];
    assert all[..|all| - 1] == spans;
    r := Spans(all);
  }

  // ----- the encoded record passes the supply check -----

  /** A segment after the spans so far: merged into the last when it encodes alike, gone when empty. */
  ghost function Extend(before: seq<Span>, span: Span): seq<Span> {
    if span.start == span.end then before
    else if before != [] && MetaOf(before[|before| - 1]) == MetaOf(span)
      then before[..|before| - 1] + [before[|before| - 1].(end := span.end)]
    else before + [span]
  }

  ghost function Merged(segments: seq<Segment>, n: nat): seq<Span>
    requires n <= |segments|
  {
    if n == 0 then [] else Extend(Merged(segments, n - 1), SegmentSpan(segments, n - 1))
  }

  lemma {:induction false} MetasAt(segments: seq<Segment>, n: nat, t: nat)
    requires 0 < n <= |segments| && Start(segments, n - 1) <= t < Start(segments, n)
    ensures Metas(segments, n)[t] == segments[n - 1].meta
  {
  }

  lemma {:induction false} ExtendRuns(metas: seq<Meta>, before: seq<Span>, span: Span)
    requires 0 <= span.start <= span.end <= |metas| && Runs(metas, before, span.start)
    requires forall t: nat | span.start <= t < span.end :: metas[t] == MetaOf(span)
    ensures Runs(metas, Extend(before, span), span.end)
  {
    if span.start < span.end {
      if before != [] && MetaOf(before[|before| - 1]) == MetaOf(span) {
        LastRunGrows(metas, before, span.start, span.end);
      } else {
        RunsGrow(metas, before, span.start, span);
      }
    }
  }

  /** Merging gives the runs of the tokens. */
  lemma {:induction false} MergedRuns(segments: seq<Segment>, n: nat)
    requires n <= |segments|
    ensures Runs(Metas(segments, n), Merged(segments, n), Start(segments, n))
  {
    if n > 0 {
      MergedRuns(segments, n - 1);
      var before, metas, span := Merged(segments, n - 1), Metas(segments, n), SegmentSpan(segments, n - 1);
      assert Metas(segments, n - 1) <= metas;
      RunsStay(Metas(segments, n - 1), metas, before, Start(segments, n - 1));
      forall t: nat | span.start <= t < span.end
        ensures metas[t] == MetaOf(span)
      {
        MetasAt(segments, n, t);
      }
      ExtendRuns(metas, before, span);
    }
  }

  lemma {:induction false} RunsStay(metas: seq<Meta>, more: seq<Meta>, spans: seq<Span>, n: nat)
    requires Runs(metas, spans, n) && metas <= more
    ensures Runs(more, spans, n)
  {
  }

  lemma {:induction false} LastRunGrows(metas: seq<Meta>, spans: seq<Span>, n: nat, end: nat)
    requires Runs(metas, spans, n) && spans != [] && n < end <= |metas|
    requires forall t: nat | n <= t < end :: metas[t] == MetaOf(spans[|spans| - 1])
    ensures Runs(metas, spans[..|spans| - 1] + [spans[|spans| - 1].(end := end)], end)
  {
    var last := spans[|spans| - 1];
    var next := spans[..|spans| - 1] + [last.(end := end)];
    forall k | 0 <= k < |next|
      ensures forall t: nat | next[k].start <= t < next[k].end :: metas[t] == MetaOf(next[k])
    {
      if k < |spans| - 1 {
        assert next[k] == spans[k];
      } else {
        assert MetaOf(next[k]) == MetaOf(last);
      }
    }
  }

  /** The runs of a token sequence are unique, costs aside. */
  ghost predicate SamePlace(a: Span, b: Span) {
    a.start == b.start && a.end == b.end && MetaOf(a) == MetaOf(b)
  }

  lemma {:induction false} RunsUnique(metas: seq<Meta>, a: seq<Span>, b: seq<Span>, k: nat)
    requires Runs(metas, a, |metas|) && Runs(metas, b, |metas|) && k < |a| && k < |b|
    ensures SamePlace(a[k], b[k])
  {
    if k > 0 {
      RunsUnique(metas, a, b, k - 1);
    }
    assert a[k].start == b[k].start;
    assert metas[a[k].start] == MetaOf(a[k]) == MetaOf(b[k]);
    RunNotLonger(metas, a, b, k);
    RunNotLonger(metas, b, a, k);
  }

  lemma {:induction false} RunNotLonger(metas: seq<Meta>, a: seq<Span>, b: seq<Span>, k: nat)
    requires Runs(metas, a, |metas|) && Runs(metas, b, |metas|) && k < |a| && k < |b|
    requires a[k].start == b[k].start && MetaOf(a[k]) == MetaOf(b[k])
    ensures a[k].end <= b[k].end
  {
    if k + 1 < |b| {
      assert b[k + 1].start == b[k].end && metas[b[k].end] == MetaOf(b[k + 1]) != MetaOf(b[k]);
    } else {
      assert b[k].end == |metas|;
    }
  }

  lemma {:induction false} OnlyLastEnds(metas: seq<Meta>, spans: seq<Span>)
    requires Runs(metas, spans, |metas|)
    ensures forall k | 0 <= k < |spans| :: spans[k].end == |metas| <==> k == |spans| - 1
  {
    forall k | 0 <= k < |spans| - 1
      ensures spans[k].end < |metas|
    {
      assert spans[k + 1].start == spans[k].end;
    }
  }

  lemma {:induction false} SameRunCount(metas: seq<Meta>, a: seq<Span>, b: seq<Span>)
    requires Runs(metas, a, |metas|) && Runs(metas, b, |metas|)
    ensures |a| == |b|
  {
    if a != [] && b != [] {
      var k := (if |a| < |b| then |a| else |b|) - 1;
      RunsUnique(metas, a, b, k);
      OnlyLastEnds(metas, a);
      OnlyLastEnds(metas, b);
    }
  }

  /** No payload or control is merged with its neighbour. */
  ghost predicate KeepsCounted(segments: seq<Segment>, n: nat)
    requires n <= |segments|
  {
    n == 0 || (KeepsCounted(segments, n - 1) && NotMerged(Merged(segments, n - 1), SegmentSpan(segments, n - 1)))
  }

  ghost predicate NotMerged(before: seq<Span>, span: Span) {
    span.role in {Payload, RandomControl} && span.start < span.end ==>
      before == [] || MetaOf(before[|before| - 1]) != MetaOf(span)
  }

  lemma {:induction false} TallyOneMore(spans: seq<Span>, s: Span, f: Span -> nat)
    ensures Tally(spans + [s], |spans| + 1, f) == Tally(spans, |spans|, f) + f(s)
  {
    TallyPrefix(spans + [s], spans, |spans|, f);
  }

  lemma {:induction false} TallyLast(spans: seq<Span>, s: Span, f: Span -> nat)
    requires spans != []
    ensures Tally(spans[..|spans| - 1] + [s], |spans|, f) + f(spans[|spans| - 1]) == Tally(spans, |spans|, f) + f(s)
  {
    var n := |spans| - 1;
    TallyPrefix(spans, spans[..n], n, f);
    TallyOneMore(spans[..n], s, f);
  }

  lemma {:induction false} ExtendCounts(before: seq<Span>, span: Span, role: Role, key: Key, length: nat)
    requires role in {Payload, RandomControl} && span.start <= span.end
    requires NotMerged(before, span)
    ensures Count(Extend(before, span), role, key, length) == Count(before, role, key, length)
      + Indicator(role, key, length)(span)
  {
    var f := Indicator(role, key, length);
    if span.start < span.end {
      if before != [] && MetaOf(before[|before| - 1]) == MetaOf(span) {
        assert f(span) == 0 && f(before[|before| - 1]) == 0 && f(before[|before| - 1].(end := span.end)) == 0;
        TallyLast(before, before[|before| - 1].(end := span.end), f);
      } else {
        TallyOneMore(before, span, f);
      }
    }
  }

  /** Merging changes no payload or control count. */
  lemma {:induction false} MergedCounts(segments: seq<Segment>, n: nat, role: Role, key: Key, length: nat)
    requires n <= |segments| && role in {Payload, RandomControl} && KeepsCounted(segments, n)
    ensures Count(Merged(segments, n), role, key, length) == Tally(AllSpans(segments), n, Indicator(role, key, length))
  {
    if n > 0 {
      MergedCounts(segments, n - 1, role, key, length);
      ExtendCounts(Merged(segments, n - 1), SegmentSpan(segments, n - 1), role, key, length);
    }
  }

  lemma {:induction false} SamePlacesCount(a: seq<Span>, b: seq<Span>, n: nat, role: Role, key: Key, length: nat)
    requires n <= |a| && n <= |b| && forall k | 0 <= k < n :: SamePlace(a[k], b[k])
    ensures Tally(a, n, Indicator(role, key, length)) == Tally(b, n, Indicator(role, key, length))
  {
    if n > 0 {
      SamePlacesCount(a, b, n - 1, role, key, length);
    }
  }

  lemma {:induction false} SameRunsCount(metas: seq<Meta>, a: seq<Span>, b: seq<Span>, role: Role, key: Key,
                                         length: nat)
    requires Runs(metas, a, |metas|) && Runs(metas, b, |metas|)
    ensures Count(a, role, key, length) == Count(b, role, key, length)
  {
    SameRunCount(metas, a, b);
    forall k | 0 <= k < |a|
      ensures SamePlace(a[k], b[k])
    {
      RunsUnique(metas, a, b, k);
    }
    SamePlacesCount(a, b, |a|, role, key, length);
  }

  /** The encoded spans count as the segments do: the boundary span is neither. */
  lemma {:induction false} EncodedCounts(segments: seq<Segment>, spans: seq<Span>, role: Role, key: Key, length: nat)
    requires role in {Payload, RandomControl} && KeepsCounted(segments, |segments|)
    requires spans != [] && spans[|spans| - 1] == SpanAt(Base(segments), 1, BOUNDARY)
    requires Runs(Metas(segments, |segments|), spans[..|spans| - 1], Base(segments))
    ensures Count(spans, role, key, length) == Count(AllSpans(segments), role, key, length)
  {
    var runs, merged := spans[..|spans| - 1], Merged(segments, |segments|);
    MergedRuns(segments, |segments|);
    SameRunsCount(Metas(segments, |segments|), runs, merged, role, key, length);
    MergedCounts(segments, |segments|, role, key, length);
    TallyOneMore(runs, spans[|spans| - 1], Indicator(role, key, length));
    assert spans == runs + [spans[|spans| - 1]];
  }

  /** The padding is neither payload nor control, so it changes no count. */
  lemma {:induction false} PaddingCounts(segments: seq<Segment>, padding: nat, enc: Tokenizer, role: Role, key: Key,
                                         length: nat)
    requires role in {Payload, RandomControl} && CountsTabs(enc)
    ensures Count(AllSpans(Pad(segments, padding, enc)), role, key, length)
      == Count(AllSpans(segments), role, key, length)
    ensures Base(Pad(segments, padding, enc)) == Base(segments) + padding
  {
    if padding > 0 {
      var padded := Pad(segments, padding, enc);
      StartOfPrefix(segments, padded, |segments|);
      forall i: nat | i < |segments|
        ensures SegmentSpan(padded, i) == SegmentSpan(segments, i)
      {
        StartOfPrefix(segments, padded, i);
      }
      TallyPrefix(AllSpans(padded), AllSpans(segments), |segments|, Indicator(role, key, length));
    }
  }

  lemma {:induction false} StartOfPrefix(segments: seq<Segment>, more: seq<Segment>, n: nat)
    requires segments <= more && n <= |segments|
    ensures Start(more, n) == Start(segments, n)
  {
    if n > 0 {
      StartOfPrefix(segments, more, n - 1);
    }
  }

  /** A balanced record, once encoded, passes the per-record supply check. */
  method EncodedRecordIsSupplied(segments: seq<Segment>, maxPadding: nat, enc: Tokenizer, costs: map<string, int>)
    returns (r: Padded, supply: Supply)
    ensures r.Balanced? && CountsTabs(enc) && KeepsCounted(r.segments, |r.segments|)
              && PaidFor(Metas(r.segments, |r.segments|), costs)
            ==> supply.Enough?
    ensures r.Balanced? <==> Countable(segments) && Coverable(segments, maxPadding)
    ensures r.BadSegment? <==> !Countable(segments)
    ensures r.Balanced? ==> r.segments == Pad(segments, r.padding, enc)
  {
    r := BalanceRecord(segments, maxPadding, enc);
    supply := OutsideDocument;
    if r.Balanced? {
      var metas := Metas(r.segments, |r.segments|);
      var encoded := EncodeRecord(metas, costs);
      if encoded.Spans? {
        var length := |metas| + 1;
        supply := RequireLocalSupply(encoded.spans, length);
        if CountsTabs(enc) {
          PassesSupply(segments, r.padding, enc, encoded.spans);
        }
      }
    }
  }

  lemma {:induction false} PaddedCounts(segments: seq<Segment>, padding: nat, enc: Tokenizer, spans: seq<Span>,
                                        role: Role, key: Key)
    requires role in {Payload, RandomControl} && CountsTabs(enc) && EncodesPadded(segments, padding, enc, spans)
    requires KeepsCounted(Pad(segments, padding, enc), |Pad(segments, padding, enc)|)
    ensures Count(spans, role, key, DocumentLength(segments, padding))
      == Count(AllSpans(segments), role, key, DocumentLength(segments, padding))
  {
    EncodedCounts(Pad(segments, padding, enc), spans, role, key, DocumentLength(segments, padding));
    PaddingCounts(segments, padding, enc, role, key, DocumentLength(segments, padding));
  }

  /** The spans that encode the padded record. */
  ghost predicate EncodesPadded(segments: seq<Segment>, padding: nat, enc: Tokenizer, spans: seq<Span>) {
    var padded := Pad(segments, padding, enc);
    && spans != [] && spans[|spans| - 1] == SpanAt(Base(padded), 1, BOUNDARY)
    && Runs(Metas(padded, |padded|), spans[..|spans| - 1], Base(padded))
  }

  lemma {:induction false} PassesSupply(segments: seq<Segment>, padding: nat, enc: Tokenizer, spans: seq<Span>)
    requires CountsTabs(enc) && Covered(segments, padding) && EncodesPadded(segments, padding, enc, spans)
    ensures AllInDocument(spans, DocumentLength(segments, padding))
      && Base(Pad(segments, padding, enc)) + 1 == DocumentLength(segments, padding)
    ensures KeepsCounted(Pad(segments, padding, enc), |Pad(segments, padding, enc)|) ==>
      Supplied(spans, DocumentLength(segments, padding))
  {
    CoveredMeans(segments, padding);
    var length := DocumentLength(segments, padding);
    PaddingCounts(segments, padding, enc, Payload, Key(0, 0), length);
    forall k | 0 <= k < |spans|
      ensures InDocument(spans[k], length)
    {
      assert k < |spans| - 1 ==> spans[k] == spans[..|spans| - 1][k];
    }
    if KeepsCounted(Pad(segments, padding, enc), |Pad(segments, padding, enc)|) {
      forall key
        ensures Count(spans, Payload, key, length) <= Count(spans, RandomControl, key, length)
      {
        PaddedCounts(segments, padding, enc, spans, Payload, key);
        PaddedCounts(segments, padding, enc, spans, RandomControl, key);
      }
    }
  }

  // ----- graph records -----

  lemma {:induction false} LastMerged(segments: seq<Segment>, n: nat)
    requires 0 < n <= |segments| && segments[n - 1].tokens > 0
    ensures Merged(segments, n) != [] && MetaOf(Merged(segments, n)[|Merged(segments, n)| - 1]) == segments[n - 1].meta
  {
  }

  /** In separated segments no payload or control is merged away. */
  lemma {:induction false} SeparatedKeepsCounted(segments: seq<Segment>, n: nat)
    requires Separated(segments) && n <= |segments|
    ensures KeepsCounted(segments, n)
  {
    if n > 0 {
      SeparatedKeepsCounted(segments, n - 1);
      if n > 1 {
        LastMerged(segments, n - 1);
      }
    }
  }

  function TextSegment(text: string, meta: Meta, enc: Tokenizer): Segment { Segment(enc(text), meta) }

  const ACTION := Meta(Action, None, None, None)

  const ALIAS := Meta(RelationAlias, None, None, None)

  function Paid(factId: string, field: string,
                text: string): Meta { Meta(Payload, Some(factId), Some(field), Some(text)) }

  /** A row as serialize_return reads it; `dumps` is the JSON form of a string. */
  datatype Row = Row(factId: string, qualifiers: seq<(string, string)>, target: string, kind: string)

  /** The first n qualifiers: a prefix, the value as payload, and a closing bracket each. */
  function QualifierSegments(row: Row, n: nat, dumps: string -> string, enc: Tokenizer): seq<Segment>
    requires n <= |row.qualifiers|
  {
    if n == 0 then []
    else
      var (key, value) := row.qualifiers[n - 1];
      var prefix := (if n > 1 then "," else "") + "[" + dumps(key) + ",";
      QualifierSegments(row, n - 1, dumps, enc)
      + Framed(prefix, dumps(value), Paid(row.factId, "qualifier:" + key, dumps(value)), "]", enc)
  }

  /** The three segments of the i-th qualifier, from the second on after a comma. */
  lemma {:induction false} QualifierAt(row: Row, n: nat, i: nat, dumps: string -> string, enc: Tokenizer)
    requires i < n <= |row.qualifiers|
    ensures |QualifierSegments(row, n, dumps, enc)| == 3 * n
    ensures var segments, key, value := QualifierSegments(row, n, dumps, enc), row.qualifiers[i].0,
        dumps(row.qualifiers[i].1);
      && segments[3 * i] == Segment(enc((if i == 0 then "" else ",") + "[" + dumps(key) + ","), PLAIN)
      && segments[3 * i + 1]
           == Segment(enc(value), Meta(Payload, Some(row.factId), Some("qualifier:" + key), Some(value)))
      && segments[3 * i + 2] == Segment(enc("]"), PLAIN)
  {
    if i < n - 1 {
      QualifierAt(row, n - 1, i, dumps, enc);
    } else {
      QualifierCount(row, n - 1, dumps, enc);
    }
  }

  lemma {:induction false} QualifierCount(row: Row, n: nat, dumps: string -> string, enc: Tokenizer)
    requires n <= |row.qualifiers|
    ensures |QualifierSegments(row, n, dumps, enc)| == 3 * n
  {
    if n > 0 {
      QualifierCount(row, n - 1, dumps, enc);
    }
  }

  /** A payload text between two plain ones. */
  function Framed(before: string, text: string, meta: Meta, after: string, enc: Tokenizer): seq<Segment> {
    [TextSegment(before, PLAIN, enc), TextSegment(text, meta, enc), TextSegment(after, PLAIN, enc)]
  }

  function ReturnHead(enc: Tokenizer): seq<Segment> {
    [TextSegment("<|graph_return|>", ACTION, enc)] + [TextSegment("{\"qualifiers\":[", PLAIN, enc)]
  }

  function ReturnTail(row: Row, dumps: string -> string, enc: Tokenizer): seq<Segment> {
    Framed("],\"target\":", dumps(row.target), Paid(row.factId, "target", dumps(row.target)),
           ",\"target_kind\":" + dumps(row.kind) + "}", enc)
    + [TextSegment("<|graph_end|>", ACTION, enc)]
  }

  /** serialize_return of a row that was found. */
  function SerializeReturn(row: Row, dumps: string -> string, enc: Tokenizer): seq<Segment> {
    ReturnHead(enc) + QualifierSegments(row, |row.qualifiers|, dumps, enc) + ReturnTail(row, dumps, enc)
  }

  /** Spaced segments that pay for nothing but this row, each payload with its field and text,
      and whose first and last are no payloads. */
  ghost predicate Returns(segments: seq<Segment>, factId: string) {
    && Spaced(segments)
    && (segments != [] ==> segments[0].meta.role != Payload && segments[|segments| - 1].meta.role != Payload)
    && forall i | 0 <= i < |segments| && segments[i].meta.role == Payload :: Pays(segments[i].meta, factId)
  }

  ghost predicate Pays(meta: Meta, factId: string) { meta.factId == Some(factId) && meta.field.Some?
    && meta.text.Some? }

  lemma {:induction false} ReturnsJoin(a: seq<Segment>, b: seq<Segment>, factId: string)
    requires Returns(a, factId) && Returns(b, factId)
    ensures Returns(a + b, factId)
  {
    SpacedJoins(a, b);
  }

  lemma {:induction false} SpacedJoins(a: seq<Segment>, b: seq<Segment>)
    requires Spaced(a) && Spaced(b) && (b != [] ==> b[0].meta.role != Payload)
    ensures Spaced(a + b)
  {
    var all := a + b;
    forall i | 0 < i < |all| && all[i].meta.role == Payload
      ensures all[i - 1].meta.role != Payload
    {
      if i > |a| {
        assert all[i] == b[i - |a|] && all[i - 1] == b[i - |a| - 1];
      }
    }
  }

  lemma {:induction false} OneReturns(text: string, meta: Meta, enc: Tokenizer, factId: string)
    requires LosesNothing(enc) && text != "" && meta.role !in {Payload, RandomControl}
    ensures Returns([TextSegment(text, meta, enc)], factId)
  {
    assert enc(text) > 0;
  }

  lemma {:induction false} FramedReturns(before: string, text: string, meta: Meta, after: string, enc: Tokenizer,
                                         factId: string)
    requires LosesNothing(enc) && before != "" && text != "" && after != "" && meta.role == Payload
      && Pays(meta, factId)
    ensures Returns(Framed(before, text, meta, after, enc), factId)
  {
    assert enc(before) > 0 && enc(text) > 0 && enc(after) > 0;
  }

  lemma {:induction false} QualifiersReturn(row: Row, n: nat, dumps: string -> string, enc: Tokenizer)
    requires n <= |row.qualifiers| && LosesNothing(enc) && forall s :: dumps(s) != ""
    ensures Returns(QualifierSegments(row, n, dumps, enc), row.factId)
  {
    if n > 0 {
      QualifiersReturn(row, n - 1, dumps, enc);
      var (key, value) := row.qualifiers[n - 1];
      var prefix := (if n > 1 then "," else "") + "[" + dumps(key) + ",";
      assert |prefix| > 0;
      FramedReturns(prefix, dumps(value), Paid(row.factId, "qualifier:" + key, dumps(value)), "]", enc, row.factId);
      ReturnsJoin(QualifierSegments(row, n - 1, dumps, enc),
                  Framed(prefix, dumps(value), Paid(row.factId, "qualifier:" + key, dumps(value)), "]", enc),
                    row.factId);
    }
  }

  lemma {:induction false} HeadReturns(enc: Tokenizer, factId: string)
    requires LosesNothing(enc)
    ensures Returns(ReturnHead(enc), factId)
  {
    OneReturns("<|graph_return|>", ACTION, enc, factId);
    OneReturns("{\"qualifiers\":[", PLAIN, enc, factId);
    ReturnsJoin([TextSegment("<|graph_return|>", ACTION, enc)], [TextSegment("{\"qualifiers\":[", PLAIN, enc)], factId);
  }

  lemma {:induction false} TailReturns(row: Row, dumps: string -> string, enc: Tokenizer)
    requires LosesNothing(enc) && forall s :: dumps(s) != ""
    ensures Returns(ReturnTail(row, dumps, enc), row.factId)
  {
    var paid := Paid(row.factId, "target", dumps(row.target));
    var closing := ",\"target_kind\":" + dumps(row.kind) + "}";
    assert |closing| > 0;
    FramedReturns("],\"target\":", dumps(row.target), paid, closing, enc, row.factId);
    OneReturns("<|graph_end|>", ACTION, enc, row.factId);
    ReturnsJoin(Framed("],\"target\":", dumps(row.target), paid, closing, enc),
                [TextSegment("<|graph_end|>", ACTION, enc)], row.factId);
  }

  /** What a row returns is spaced, whatever its qualifiers. */
  lemma {:induction false} SerializedReturns(row: Row, dumps: string -> string, enc: Tokenizer)
    requires LosesNothing(enc) && forall s :: dumps(s) != ""
    ensures Returns(SerializeReturn(row, dumps, enc), row.factId)
  {
    var middle := QualifierSegments(row, |row.qualifiers|, dumps, enc);
    HeadReturns(enc, row.factId);
    QualifiersReturn(row, |row.qualifiers|, dumps, enc);
    TailReturns(row, dumps, enc);
    ReturnsJoin(ReturnHead(enc), middle, row.factId);
    ReturnsJoin(ReturnHead(enc) + middle, ReturnTail(row, dumps, enc), row.factId);
  }

  /** The payloads of the blocks are the row's. */
  lemma {:induction false} BlocksPay(returned: seq<Segment>, n: nat, enc: Tokenizer, factId: string)
    requires n <= |returned| && Returns(returned, factId)
    ensures forall i | 0 <= i < |BlocksOf(returned, n, enc)| && BlocksOf(returned, n, enc)[i].meta.role == Payload ::
      Pays(BlocksOf(returned, n, enc)[i].meta, factId)
  {
    if n > 0 {
      BlocksPay(returned, n - 1, enc, factId);
    }
  }

  /** What a fact's record says before the row is returned. */
  function FactHead(source: string, alias: string, enc: Tokenizer): seq<Segment> {
    [TextSegment("Source " + source + " relation ", PLAIN, enc), TextSegment(alias, ALIAS, enc),
      TextSegment(" returns ", PLAIN, enc)]
  }

  /** A fact's record before it is padded. */
  ghost function FactSegments(source: string, alias: string, row: Row, dumps: string -> string,
                              enc: Tokenizer): seq<Segment> {
    FactHead(source, alias, enc) + BlocksOf(SerializeReturn(row, dumps, enc), |SerializeReturn(row, dumps, enc)|, enc)
  }

  /** Segments ready to be balanced and encoded: separated, covered length by length, and every
      payload paid for by one fact. */
  ghost predicate Ready(segments: seq<Segment>, factId: string) {
    && Separated(segments) && LengthsCovered(segments)
    && forall i | 0 <= i < |segments| && segments[i].meta.role == Payload :: Pays(segments[i].meta, factId)
  }

  lemma {:induction false} NoneOfLength(segments: seq<Segment>, n: nat, role: Role, tokens: nat)
    requires n <= |segments| && forall i | 0 <= i < |segments| :: segments[i].meta.role != role
    ensures OfLength(segments, n, role, tokens) == 0
  {
    if n > 0 {
      NoneOfLength(segments, n - 1, role, tokens);
    }
  }

  /** Uncounted segments before and after ready ones change nothing. */
  lemma {:induction false} HeadStaysReady(head: seq<Segment>, segments: seq<Segment>, factId: string)
    requires Ready(segments, factId) && (segments != [] ==> segments[0].meta.role !in {Payload, RandomControl})
    requires forall i | 0 <= i < |head| :: head[i].tokens > 0 && head[i].meta.role !in {Payload, RandomControl}
    ensures Ready(head + segments, factId)
  {
    var all := head + segments;
    forall i | 0 < i < |all| && all[i].meta.role in {Payload, RandomControl}
      ensures all[i].meta != all[i - 1].meta
    {
      var k := i - |head|;
      assert k > 0 && all[i] == segments[k] && all[i - 1] == segments[k - 1];
    }
    forall tokens: nat | tokens > 0
      ensures OfLength(all, |all|, Payload, tokens) <= OfLength(all, |all|, RandomControl, tokens)
    {
      OfLengthSplits(head, segments, |segments|, Payload, tokens);
      OfLengthSplits(head, segments, |segments|, RandomControl, tokens);
      NoneOfLength(head, |head|, Payload, tokens);
      NoneOfLength(head, |head|, RandomControl, tokens);
    }
  }

  lemma {:induction false} PadStaysReady(segments: seq<Segment>, padding: nat, enc: Tokenizer, factId: string)
    requires Ready(segments, factId) && CountsTabs(enc)
    ensures Ready(Pad(segments, padding, enc), factId)
  {
    if padding > 0 {
      var last := [Segment(enc(Tabs(padding)), PLAIN)];
      assert last[0].tokens == padding;
      var all := segments + last;
      forall tokens: nat
        ensures OfLength(all, |all|, Payload, tokens) == OfLength(segments, |segments|, Payload, tokens)
        ensures OfLength(all, |all|, RandomControl, tokens) == OfLength(segments, |segments|, RandomControl, tokens)
      {
        OfLengthSplits(segments, last, 1, Payload, tokens);
        OfLengthSplits(segments, last, 1, RandomControl, tokens);
        NoneOfLength(last, 1, Payload, tokens);
        NoneOfLength(last, 1, RandomControl, tokens);
      }
    }
  }

  lemma {:induction false} TokensPay(segments: seq<Segment>, n: nat, factId: string, costs: map<string, int>)
    requires n <= |segments| && factId in costs
    requires forall i | 0 <= i < |segments| && segments[i].meta.role == Payload :: Pays(segments[i].meta, factId)
    ensures PaidFor(Metas(segments, n), costs)
  {
    if n > 0 {
      TokensPay(segments, n - 1, factId, costs);
    }
  }

  lemma {:induction false} HeadIsUncounted(source: string, alias: string, enc: Tokenizer)
    requires LosesNothing(enc) && alias != ""
    ensures var head := FactHead(source, alias, enc);
      forall i | 0 <= i < |head| :: head[i].tokens > 0 && head[i].meta.role !in {Payload, RandomControl}
  {
    var first := "Source " + source + " relation ";
    assert |first| > 0;
    assert enc(first) > 0 && enc(alias) > 0 && enc(" returns ") > 0;
  }

  /** The blocks of a fact's row, with its head. */
  method FactBlocks(source: string, alias: string, row: Row, dumps: string -> string, enc: Tokenizer)
    returns (segments: seq<Segment>)
    requires CountsTabs(enc) && LosesNothing(enc) && alias != "" && forall s :: dumps(s) != ""
    ensures segments == FactSegments(source, alias, row, dumps, enc) && Ready(segments, row.factId)
      && Countable(segments)
  {
    var returned := SerializeReturn(row, dumps, enc);
    SerializedReturns(row, dumps, enc);
    var blocks := ReturnBlocks(returned, enc);
    BlocksPay(returned, |returned|, enc, row.factId);
    var head := FactHead(source, alias, enc);
    HeadIsUncounted(source, alias, enc);
    HeadStaysReady(head, blocks.segments, row.factId);
    segments := head + blocks.segments;
  }

  /** A fact's record, whatever its row, alias and tokenizer: it never lacks a segment, it is
      balanced when nine times its length fits the padding, and once balanced it encodes to
      spans that pass the per-record supply check. */
  method RenderFact(source: string, alias: string, row: Row, dumps: string -> string, enc: Tokenizer, maxPadding: nat,
                    costs: map<string, int>)
    returns (r: Padded, supply: Supply)
    requires CountsTabs(enc) && LosesNothing(enc) && alias != "" && (forall s :: dumps(s) != "") && row.factId in costs
    ensures r.Balanced? || r.Undersupply?
    ensures r.Balanced? <==> Coverable(FactSegments(source, alias, row, dumps, enc), maxPadding)
    ensures 9 * Base(FactSegments(source, alias, row, dumps, enc)) <= maxPadding ==> r.Balanced?
    ensures r.Balanced? ==>
      r.segments == Pad(FactSegments(source, alias, row, dumps, enc), r.padding, enc) && supply.Enough?
  {
    var segments := FactBlocks(source, alias, row, dumps, enc);
    r, supply := EncodeReady(segments, maxPadding, enc, row.factId, costs);
  }

  /** Balancing and encoding ready segments. */
  method EncodeReady(segments: seq<Segment>, maxPadding: nat, enc: Tokenizer, ghost factId: string, costs: map<string,
                     int>)
    returns (r: Padded, supply: Supply)
    requires CountsTabs(enc) && Ready(segments, factId) && Countable(segments) && factId in costs
    ensures r.Balanced? || r.Undersupply?
    ensures r.Balanced? <==> Coverable(segments, maxPadding)
    ensures 9 * Base(segments) <= maxPadding ==> r.Balanced?
    ensures r.Balanced? ==> r.segments == Pad(segments, r.padding, enc) && supply.Enough?
  {
    r, supply := EncodedRecordIsSupplied(segments, maxPadding, enc, costs);
    NineTimesSuffices(segments);
    if r.Balanced? {
      PaddedIsEncodable(segments, r.padding, enc, factId, costs, r.segments);
    }
  }

  lemma {:induction false} PaddedIsEncodable(segments: seq<Segment>, padding: nat, enc: Tokenizer, factId: string,
                                             costs: map<string, int>,
                                             padded: seq<Segment>)
    requires Ready(segments, factId) && CountsTabs(enc) && factId in costs && padded == Pad(segments, padding, enc)
    ensures KeepsCounted(padded, |padded|) && PaidFor(Metas(padded, |padded|), costs)
  {
    PadStaysReady(segments, padding, enc, factId);
    SeparatedKeepsCounted(padded, |padded|);
    TokensPay(padded, |padded|, factId, costs);
  }
}
