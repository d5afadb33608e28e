/** Running the automaton over the token stream, record by record and chunk by chunk, and
    what the yielded ranges are (mask_ledger.py, _iter_record_ranges and the scan loop of
    _iter_pattern_matches). */
module PatternScan {
  import opened Tokens
  import opened PatternAutomaton
  import FailureLinks

  const CHUNK_SIZE: nat := 0x10_0000

  // ----- the frozen record schedule -----

  /** One line of the frozen schedule: blank, not a JSON row with two integers, or a row. */
  datatype Line = Blank | Malformed | Row(range: Range)

  datatype Schedule = Accepted(ranges: seq<Range>) | Rejected

  ghost function Rows(lines: seq<Line>): seq<Range> {
    if lines == [] then []
    else
      var last := lines[|lines| - 1];
      Rows(lines[..|lines| - 1]) + (if last.Row? then [last.range] else [])
  }

  /** The ranges are nonempty and laid end to end from 0 to n. */
  ghost predicate Partition(ranges: seq<Range>, n: int) {
    && (forall i | 0 <= i < |ranges| :: ranges[i].start < ranges[i].end)
    && (forall i | 0 <= i < |ranges| :: ranges[i].start == End(ranges[..i]))
    && End(ranges) == n
  }

  ghost function End(ranges: seq<Range>): int {
    if ranges == [] then 0 else ranges[|ranges| - 1].end
  }

  lemma {:induction false} PartitionBounds(ranges: seq<Range>, n: int, i: nat)
    requires Partition(ranges, n) && i < |ranges|
    ensures 0 <= ranges[i].start < ranges[i].end <= n
    ensures forall j | i < j < |ranges| :: ranges[i].end <= ranges[j].start
  {
    PartitionFrom(ranges, n, i);
    PartitionOrder(ranges, n, i, |ranges|);
    if i + 1 < |ranges| {
      PartitionOrder(ranges, n, i, |ranges| - 1);
      assert ranges[i].end <= ranges[|ranges| - 1].start;
    }
  }

  lemma {:induction false} PartitionFrom(ranges: seq<Range>, n: int, i: nat)
    requires Partition(ranges, n) && i < |ranges|
    ensures 0 <= ranges[i].start
  {
    if i > 0 {
      PartitionFrom(ranges, n, i - 1);
      assert ranges[..i][i - 1] == ranges[i - 1];
    }
  }

  lemma {:induction false} PartitionOrder(ranges: seq<Range>, n: int, i: nat, m: nat)
    requires Partition(ranges, n) && i < m <= |ranges|
    ensures forall j | i < j < m :: ranges[i].end <= ranges[j].start
  {
    if i + 1 < m {
      PartitionOrder(ranges, n, i, m - 1);
      assert ranges[m - 1].start == ranges[..m - 1][m - 2].end;
    }
  }

  lemma PartitionGrows(ranges: seq<Range>, n: int, range: Range)
    requires Partition(ranges, n) && n == range.start < range.end
    ensures Partition(ranges + [range], range.end)
  {
    var extended := ranges + [range];
    assert forall k | 0 <= k <= |ranges| :: extended[..k] == ranges[..k];
  }

  /** Accepts exactly the schedules whose rows partition the token stream. */
  method IterRecordRanges(lines: seq<Line>, tokenCount: nat) returns (r: Schedule)
    ensures r.Accepted? <==> Malformed !in lines && Rows(lines) != [] && Partition(Rows(lines), tokenCount)
    ensures r.Accepted? ==> r.ranges == Rows(lines)
  {
    var previousEnd: int := 0;
    var ranges: seq<Range> := [];
    for i := 0 to |lines|
      invariant Malformed !in lines[..i] && ranges == Rows(lines[..i])
      invariant Partition(ranges, previousEnd) && previousEnd <= tokenCount
    {
      assert lines[..i + 1][..i] == lines[..i];
      match lines[i]
      case Blank =>
      case Malformed =>
        return Rejected;
      case Row(range) =>
        if range.start != previousEnd || range.end <= range.start || range.end > tokenCount {
          RejectedRow(lines, i, ranges, previousEnd, tokenCount);
          return Rejected;
        }
        PartitionGrows(ranges, previousEnd, range);
        ranges, previousEnd := ranges + [range], range.end;
    }
    assert lines[..|lines|] == lines;
    if ranges == [] || previousEnd != tokenCount {
      return Rejected;
    }
    return Accepted(ranges);
  }

  lemma {:induction false} RowsPrefix(lines: seq<Line>, i: nat)
    requires i <= |lines|
    ensures Rows(lines[..i]) <= Rows(lines)
    decreases |lines|
  {
    if i < |lines| {
      var front := lines[..|lines| - 1];
      RowsPrefix(front, i);
      assert front[..i] == lines[..i];
    } else {
      assert lines[..i] == lines;
    }
  }

  lemma RejectedRow(lines: seq<Line>, i: nat, ranges: seq<Range>, previousEnd: int, tokenCount: nat)
    requires i < |lines| && lines[i].Row? && ranges == Rows(lines[..i]) && Partition(ranges, previousEnd)
    requires var r := lines[i].range; r.start != previousEnd || r.end <= r.start || r.end > tokenCount
    ensures !Partition(Rows(lines), tokenCount)
  {
    var all := Rows(lines);
    assert lines[..i + 1][..i] == lines[..i];
    RowsPrefix(lines, i + 1);
    assert all[|ranges|] == lines[i].range && all[..|ranges|] == ranges;
    if Partition(all, tokenCount) {
      PartitionBounds(all, tokenCount, |ranges|);
    }
  }

  // ----- what the scan yields -----

  /** A pattern occurs at r, inside one of the records. */
  ghost predicate Occurs(tokens: seq<Token>, patterns: seq<Pattern>, records: seq<Range>, r: Range) {
    exists k :: 0 <= k < |records| && OccursIn(tokens, patterns, records[k], r)
  }

  ghost predicate OccursIn(tokens: seq<Token>, patterns: seq<Pattern>, record: Range, r: Range) {
    Inside(tokens, record, r) && tokens[r.start..r.end] in patterns
  }

  ghost predicate Inside(tokens: seq<Token>, record: Range, r: Range) {
    0 <= record.start <= r.start < r.end <= record.end <= |tokens|
  }

  /** Sorted by end, and by start among equal ends; so no range is repeated. */
  ghost predicate EndOrdered(matches: seq<Range>) {
    forall i, j | 0 <= i < j < |matches| :: Before(matches[i], matches[j])
  }

  ghost predicate Before(a: Range, b: Range) {
    a.end < b.end || (a.end == b.end && a.start < b.start)
  }

  /** Every range ends after lo and no later than hi. */
  ghost predicate EndsWithin(matches: seq<Range>, lo: int, hi: int) {
    forall i | 0 <= i < |matches| :: lo < matches[i].end <= hi
  }

  /** `matches` lists exactly the occurrences inside one record, each once, by their ends. */
  ghost predicate Complete(tokens: seq<Token>, patterns: seq<Pattern>, records: seq<Range>, matches: seq<Range>) {
    && (forall r: Range :: r in matches <==> Occurs(tokens, patterns, records, r))
    && EndOrdered(matches)
  }

  lemma Concatenate(a: seq<Range>, b: seq<Range>, lo: int, mid: int, hi: int)
    requires EndOrdered(a) && EndOrdered(b) && lo <= mid <= hi
    requires EndsWithin(a, lo, mid) && EndsWithin(b, mid, hi)
    ensures EndOrdered(a + b) && EndsWithin(a + b, lo, hi)
  {
  }

  // ----- one position -----

  /** The ranges yielded for the output list `ids` at end position `end`. */
  ghost function Yields(patterns: seq<Pattern>, ids: seq<nat>, end: int): (found: seq<Range>)
    requires forall i | 0 <= i < |ids| :: ids[i] < |patterns|
    ensures |found| == |ids| && forall i | 0 <= i < |ids| :: found[i] == Range(end - |patterns[ids[i]]|, end)
  {
    if ids == [] then []
    else
      var last := ids[|ids| - 1];
      Yields(patterns, ids[..|ids| - 1], end) + [Range(end - |patterns[last]|, end)]
  }

  lemma YieldsOrdered(patterns: seq<Pattern>, ids: seq<nat>, end: int)
    requires LongestFirst(patterns, ids)
    ensures EndOrdered(Yields(patterns, ids, end)) && EndsWithin(Yields(patterns, ids, end), end - 1, end)
  {
  }

  lemma SuffixIsEnding(tokens: seq<Token>, lo: nat, hi: nat, p: Pattern)
    requires lo <= hi <= |tokens| && |p| <= hi - lo
    ensures IsSuffix(p, tokens[lo..hi]) <==> tokens[hi - |p|..hi] == p
  {
    assert tokens[lo..hi][hi - lo - |p|..] == tokens[hi - |p|..hi];
  }

  lemma YieldsSound(tokens: seq<Token>, patterns: seq<Pattern>, lo: nat, hi: nat, ids: seq<nat>, i: nat)
    requires lo <= hi <= |tokens| && i < |ids|
    requires Lists(patterns, tokens[lo..hi], ids)
    requires forall id | 0 <= id < |patterns| :: patterns[id] != []
    ensures OccursIn(tokens, patterns, Range(lo, hi), Yields(patterns, ids, hi)[i])
  {
    assert EndsHere(patterns, tokens[lo..hi], ids[i]);
    SuffixIsEnding(tokens, lo, hi, patterns[ids[i]]);
    assert patterns[ids[i]] in patterns;
  }

  lemma YieldsComplete(tokens: seq<Token>, patterns: seq<Pattern>, lo: nat, hi: nat, ids: seq<nat>, r: Range)
    returns (i: nat)
    requires lo <= hi <= |tokens| && Lists(patterns, tokens[lo..hi], ids)
    requires r.end == hi && OccursIn(tokens, patterns, Range(lo, hi), r)
    ensures i < |ids| && Yields(patterns, ids, hi)[i] == r
  {
    var id :| 0 <= id < |patterns| && patterns[id] == tokens[r.start..hi];
    SuffixIsEnding(tokens, lo, hi, patterns[id]);
    assert EndsHere(patterns, tokens[lo..hi], id);
    i :| 0 <= i < |ids| && ids[i] == id;
  }

  /** `here` lists the occurrences of record [lo, hi) that end at hi. */
  ghost predicate EndingHere(tokens: seq<Token>, patterns: seq<Pattern>, lo: nat, hi: nat, here: seq<Range>) {
    forall r: Range :: r in here <==> r.end == hi && OccursIn(tokens, patterns, Range(lo, hi), r)
  }

  lemma YieldsMeaning(tokens: seq<Token>, patterns: seq<Pattern>, lo: nat, hi: nat, ids: seq<nat>)
    requires lo <= hi <= |tokens| && Lists(patterns, tokens[lo..hi], ids)
    requires forall id | 0 <= id < |patterns| :: patterns[id] != []
    ensures EndingHere(tokens, patterns, lo, hi, Yields(patterns, ids, hi))
    ensures EndOrdered(Yields(patterns, ids, hi)) && EndsWithin(Yields(patterns, ids, hi), hi - 1, hi)
  {
    YieldsOrdered(patterns, ids, hi);
    var here := Yields(patterns, ids, hi);
    forall i | 0 <= i < |here|
      ensures here[i].end == hi && OccursIn(tokens, patterns, Range(lo, hi), here[i])
    {
      YieldsSound(tokens, patterns, lo, hi, ids, i);
    }
    forall r: Range | r.end == hi && OccursIn(tokens, patterns, Range(lo, hi), r)
      ensures r in here
    {
      var i := YieldsComplete(tokens, patterns, lo, hi, ids, r);
    }
  }

  // ----- extending what has been scanned -----

  /** `matches` lists the occurrences in the finished records and in record [lo, at). */
  ghost predicate ScannedTo(tokens: seq<Token>, patterns: seq<Pattern>, finished: seq<Range>, lo: int, at: int,
                            matches: seq<Range>) {
    && 0 <= lo <= at <= |tokens|
    && (forall r: Range ::
         r in matches <==> Occurs(tokens, patterns, finished, r) || OccursIn(tokens, patterns, Range(lo, at), r))
    && EndOrdered(matches) && EndsWithin(matches, 0, at)
  }

  lemma MembersMore(tokens: seq<Token>, patterns: seq<Pattern>, finished: seq<Range>, lo: nat, at: nat,
                    matches: seq<Range>, here: seq<Range>)
    requires ScannedTo(tokens, patterns, finished, lo, at, matches) && at < |tokens|
    requires EndingHere(tokens, patterns, lo, at + 1, here)
    ensures forall r: Range :: r in matches + here <==>
      Occurs(tokens, patterns, finished, r) || OccursIn(tokens, patterns, Range(lo, at + 1), r)
  {
    forall r: Range
      ensures r in matches + here <==>
        Occurs(tokens, patterns, finished, r) || OccursIn(tokens, patterns, Range(lo, at + 1), r)
    {
      MemberOf(matches, here, r);
    }
  }

  /** One more token: the new occurrences are the ones that end there. */
  lemma ScannedMore(tokens: seq<Token>, patterns: seq<Pattern>, finished: seq<Range>, lo: nat, at: nat,
                    matches: seq<Range>, here: seq<Range>)
    requires ScannedTo(tokens, patterns, finished, lo, at, matches) && at < |tokens|
    requires EndingHere(tokens, patterns, lo, at + 1, here) && EndOrdered(here) && EndsWithin(here, at, at + 1)
    ensures ScannedTo(tokens, patterns, finished, lo, at + 1, matches + here)
  {
    Concatenate(matches, here, 0, at, at + 1);
    MembersMore(tokens, patterns, finished, lo, at, matches, here);
  }

  lemma MemberOf(a: seq<Range>, b: seq<Range>, r: Range)
    ensures r in a + b <==> r in a || r in b
  {
  }

  /** The records are nonempty-or-empty stretches of the stream, in order. */
  ghost predicate InOrder(records: seq<Range>, n: nat) {
    && (forall i | 0 <= i < |records| :: 0 <= records[i].start <= records[i].end <= n)
    && (forall i, j | 0 <= i < j < |records| :: records[i].end <= records[j].start)
  }

  lemma PartitionInOrder(records: seq<Range>, n: nat)
    requires Partition(records, n)
    ensures InOrder(records, n)
  {
    forall i | 0 <= i < |records|
      ensures 0 <= records[i].start <= records[i].end <= n
      ensures forall j | i < j < |records| :: records[i].end <= records[j].start
    {
      PartitionBounds(records, n, i);
    }
  }

  lemma RecordStarts(tokens: seq<Token>, patterns: seq<Pattern>, finished: seq<Range>, lo: nat, matches: seq<Range>)
    requires Complete(tokens, patterns, finished, matches)
    requires InOrder(finished, |tokens|) && lo <= |tokens| && forall i | 0 <= i < |finished| :: finished[i].end <= lo
    ensures ScannedTo(tokens, patterns, finished, lo, lo, matches)
  {
    forall i | 0 <= i < |matches|
      ensures 0 < matches[i].end <= lo
    {
      assert matches[i] in matches;
      var k :| 0 <= k < |finished| && OccursIn(tokens, patterns, finished[k], matches[i]);
    }
  }

  lemma RecordEnds(tokens: seq<Token>, patterns: seq<Pattern>, records: seq<Range>, k: nat, matches: seq<Range>)
    requires k < |records|
    requires ScannedTo(tokens, patterns, records[..k], records[k].start, records[k].end, matches)
    ensures Complete(tokens, patterns, records[..k + 1], matches)
  {
    assert Range(records[k].start, records[k].end) == records[k];
    forall r: Range
      ensures Occurs(tokens, patterns, records[..k + 1], r) <==>
              Occurs(tokens, patterns, records[..k], r) || OccursIn(tokens, patterns, records[k], r)
    {
      OccursSnoc(tokens, patterns, records, k, r);
    }
  }

  lemma OccursSnoc(tokens: seq<Token>, patterns: seq<Pattern>, records: seq<Range>, k: nat, r: Range)
    requires k < |records|
    ensures Occurs(tokens, patterns, records[..k + 1], r) <==>
            Occurs(tokens, patterns, records[..k], r) || OccursIn(tokens, patterns, records[k], r)
  {
    if Occurs(tokens, patterns, records[..k], r) {
      var j :| 0 <= j < k && OccursIn(tokens, patterns, records[..k][j], r);
      assert records[..k + 1][j] == records[..k][j];
    }
    if OccursIn(tokens, patterns, records[k], r) {
      assert records[..k + 1][k] == records[k];
    }
    if Occurs(tokens, patterns, records[..k + 1], r) && !OccursIn(tokens, patterns, records[k], r) {
      var j :| 0 <= j < k + 1 && OccursIn(tokens, patterns, records[..k + 1][j], r);
      assert records[..k][j] == records[..k + 1][j];
    }
  }

  // ----- the scan -----

  /** All automaton facts the scan relies on. */
  ghost predicate Ready(patterns: seq<Pattern>, edges: Edges, words: seq<seq<Token>>, failures: seq<nat>,
                        outputs: seq<seq<nat>>) {
    && Trie(edges, words) && |failures| == |words| == |outputs|
    && (forall s {:trigger Linked(words, failures, s)} | 0 < s < |words| :: Linked(words, failures, s))
    && (forall s {:trigger outputs[s]} | 0 <= s < |words| :: Lists(patterns, words[s], outputs[s]))
    && FailureLinks.Known(patterns, words)
    && (forall id | 0 <= id < |patterns| :: patterns[id] != [])
  }

  /** The loop that yields one range per pattern in the output list. */
  method YieldOutputs(patterns: seq<Pattern>, ids: seq<nat>, end: int, matches0: seq<Range>)
    returns (matches: seq<Range>)
    requires forall i | 0 <= i < |ids| :: ids[i] < |patterns|
    ensures matches == matches0 + Yields(patterns, ids, end)
  {
    matches := matches0;
    for i := 0 to |ids|
      invariant matches == matches0 + Yields(patterns, ids[..i], end)
    {
      assert ids[..i + 1][..i] == ids[..i];
      matches := matches + [Range(end - |patterns[ids[i]]|, end)];
    }
    assert ids[..|ids|] == ids;
  }

  /** One token: advance, then yield the output list. */
  method ScanToken(tokens: seq<Token>, patterns: seq<Pattern>, edges: Edges, failures: seq<nat>, outputs: seq<seq<nat>>,
                   at: nat, token: Token, state0: nat, found0: seq<Range>,
                   ghost words: seq<seq<Token>>, ghost finished: seq<Range>, ghost lo: int, ghost next: nat)
    returns (state: nat, found: seq<Range>)
    requires Ready(patterns, edges, words, failures, outputs)
    requires at < |tokens| && tokens[at] == token && next == at + 1
    requires ScannedTo(tokens, patterns, finished, lo, at, found0) && Longest(words, tokens[lo..at], state0)
    ensures ScannedTo(tokens, patterns, finished, lo, next, found) && Longest(words, tokens[lo..next], state)
  {
    assert tokens[lo..next] == tokens[lo..at] + [token];
    state := Advance(edges, failures, state0, token, words, tokens[lo..at]);
    found := YieldOutputs(patterns, outputs[state], at + 1, found0);
    FailureLinks.ListsOfLongest(patterns, words, tokens[lo..next], state, outputs[state]);
    YieldsMeaning(tokens, patterns, lo, next, outputs[state]);
    ScannedMore(tokens, patterns, finished, lo, at, found0, Yields(patterns, outputs[state], next));
  }

  /** One chunk of a record. */
  method ScanChunk(tokens: seq<Token>, patterns: seq<Pattern>, edges: Edges, failures: seq<nat>, outputs: seq<seq<nat>>,
                   chunkStart: nat, chunkEnd: nat, state0: nat, found0: seq<Range>,
                   ghost words: seq<seq<Token>>, ghost finished: seq<Range>, ghost lo: int)
    returns (state: nat, found: seq<Range>)
    requires Ready(patterns, edges, words, failures, outputs)
    requires chunkStart <= chunkEnd <= |tokens|
    requires ScannedTo(tokens, patterns, finished, lo, chunkStart, found0)
      && Longest(words, tokens[lo..chunkStart], state0)
    ensures ScannedTo(tokens, patterns, finished, lo, chunkEnd, found) && Longest(words, tokens[lo..chunkEnd], state)
  {
    state, found := state0, found0;
    var chunk := tokens[chunkStart..chunkEnd];
    for at := chunkStart to chunkEnd
      invariant ScannedTo(tokens, patterns, finished, lo, at, found) && Longest(words, tokens[lo..at], state)
    {
      state, found := ScanToken(tokens, patterns, edges, failures, outputs, at, chunk[at - chunkStart],
                                state, found, words, finished, lo, at + 1);
    }
  }

  /** One record: the state starts at the root and survives chunk boundaries. */
  method ScanRecord(tokens: seq<Token>, patterns: seq<Pattern>, edges: Edges, failures: seq<nat>,
                    outputs: seq<seq<nat>>,
                    record: Range, found0: seq<Range>, ghost words: seq<seq<Token>>, ghost finished: seq<Range>)
    returns (found: seq<Range>)
    requires Ready(patterns, edges, words, failures, outputs)
    requires 0 <= record.start <= record.end <= |tokens|
    requires ScannedTo(tokens, patterns, finished, record.start, record.start, found0)
    ensures ScannedTo(tokens, patterns, finished, record.start, record.end, found)
  {
    found := found0;
    var state: nat := 0;
    var chunkStart := record.start;
    ghost var at := record.start;
    while chunkStart < record.end
      invariant record.start <= chunkStart && at == if chunkStart < record.end then chunkStart else record.end
      invariant ScannedTo(tokens, patterns, finished, record.start, at, found)
      invariant Longest(words, tokens[record.start..at], state)
    {
      var chunkEnd := if record.end < chunkStart + CHUNK_SIZE then record.end else chunkStart + CHUNK_SIZE;
      state, found := ScanChunk(tokens, patterns, edges, failures, outputs, chunkStart, chunkEnd,
                                state, found, words, finished, record.start);
      chunkStart, at := chunkStart + CHUNK_SIZE, chunkEnd;
    }
  }

  /** The whole matcher, for distinct nonempty patterns: exactly the occurrences inside one
      record, each once, in order of their ends. Chunk boundaries never show, and every
      record starts afresh. */
  method IterPatternMatches(tokens: seq<Token>, patterns: seq<Pattern>, records: seq<Range>)
    returns (matches: seq<Range>)
    requires Distinct(patterns) && [] !in patterns
    requires InOrder(records, |tokens|)
    ensures Complete(tokens, patterns, records, matches)
  {
    var edges, failures, outputs;
    ghost var words;
    edges, failures, outputs, words := BuildTrie(patterns);
    failures, outputs := FailureLinks.LinkFailures(patterns, edges, failures, outputs, words);
    matches := [];
    for k := 0 to |records|
      invariant Complete(tokens, patterns, records[..k], matches)
    {
      RecordStarts(tokens, patterns, records[..k], records[k].start, matches);
      matches := ScanRecord(tokens, patterns, edges, failures, outputs, records[k], matches, words, records[..k]);
      RecordEnds(tokens, patterns, records, k, matches);
    }
    assert records[..|records|] == records;
  }
}
