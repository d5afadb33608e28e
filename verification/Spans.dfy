/** Encoded spans of one record: roles, exact Random keys, the overlap check and the
    per-record supply check (graph_records.py relative_position_bin; mask_ledger.py
    should_mask, _validated_length; schedule_plan.py _require_local_supply). */
module Spans {
  import opened Wrappers

  datatype Role =
    | Plain | Payload | RandomControl | RelationAlias | Rule | Action
    | ProvisionalAnswer | FinalAnswer | Boundary

  /** The roles that the Random sidecar must never mask. */
  predicate Protected(role: Role) {
    role.RelationAlias? || role.Payload? || role.Rule? || role.Action? || role.ProvisionalAnswer? || role.FinalAnswer?
  }

  datatype Span = Span(start: int, end: int, role: Role, factId: Option<string>, factCost: Option<int>,
                       field: Option<string>, text: Option<string>)

  /** The exact Random-matching key: token length and relative position bin. */
  datatype Key = Key(length: int, bin: int)

  const POSITION_BINS := 10

  predicate InDocument(s: Span, length: int) {
    0 <= s.start < s.end <= length
  }

  /** The midpoint lies in the k-th tenth of the document, the last tenth closed at its end. */
  ghost predicate InTenth(start: int, end: int, length: int, k: int) {
    && 0 <= k <= 9
    && (k < 9 ==> 2 * length * k <= 10 * (start + end) < 2 * length * (k + 1))
    && (k == 9 ==> 18 * length <= 10 * (start + end))
  }

  lemma {:induction false} QuotientBounds(a: int, b: int, q: int)
    requires 0 <= a && 0 < b && q == a / b
    ensures 0 <= q && b * q <= a < b * (q + 1)
  {
    assert a == q * b + a % b;
    assert q < 0 ==> q * b <= -b;
  }

  function PositionBin(start: int, end: int, length: int): (bin: int)
    requires 0 <= start < end <= length
    ensures 0 <= bin < POSITION_BINS && InTenth(start, end, length, bin)
  {
    var bin := (start + end) * POSITION_BINS / (2 * length);
    QuotientBounds((start + end) * POSITION_BINS, 2 * length, bin);
    if bin < POSITION_BINS - 1 then bin else
      TimesAtLeast(2 * length, 9, bin);
      POSITION_BINS - 1
  }

  lemma {:induction false} TimesAtLeast(m: int, k: int, n: int)
    requires m >= 0 && k <= n
    ensures m * k <= m * n
    decreases n - k
  {
    if k < n {
      TimesAtLeast(m, k, n - 1);
      assert m * n == m * (n - 1) + m;
    }
  }

  /** A span's bin is the one tenth that holds its midpoint. */
  lemma {:induction false} BinIsTenth(start: int, end: int, length: int, k: int)
    requires 0 <= start < end <= length
    ensures PositionBin(start, end, length) == k <==> InTenth(start, end, length, k)
  {
    var bin := PositionBin(start, end, length);
    if InTenth(start, end, length, k) && k < bin {
      TimesAtLeast(2 * length, k + 1, bin);
    } else if InTenth(start, end, length, k) && bin < k {
      TimesAtLeast(2 * length, bin + 1, k);
    }
  }

  function KeyOf(s: Span, length: int): Key
    requires InDocument(s, length)
  {
    Key(s.end - s.start, PositionBin(s.start, s.end, length))
  }

  /** Conditions that mask by payload: Split masks every payload span, Selective those whose
      fact the route policy sends to the store. */
  predicate MaskedBySplit(s: Span) {
    s.role.Payload?
  }

  predicate MaskedBySelective(s: Span, external: int -> bool) {
    s.role.Payload? && s.factCost.Some? && external(s.factCost.value)
  }

  // ----- sorting by (start, end) -----

  ghost predicate NotAfter(a: Span, b: Span) {
    a.start < b.start || (a.start == b.start && a.end <= b.end)
  }

  ghost predicate InOrder(spans: seq<Span>) {
    forall i, j | 0 <= i < j < |spans| :: NotAfter(spans[i], spans[j])
  }

  function Insert(spans: seq<Span>, s: Span): seq<Span> {
    if spans == [] then [s]
    else
      var n, last := |spans| - 1, spans[|spans| - 1];
      if last.start < s.start || (last.start == s.start && last.end <= s.end) then spans + [s]
      else Insert(spans[..n], s) + [last]
  }

  /** Python's stable sort by (start, end). */
  function SortSpans(spans: seq<Span>): seq<Span> {
    if spans == [] then []
    else Insert(SortSpans(spans[..|spans| - 1]), spans[|spans| - 1])
  }

  lemma {:induction false} InsertPermutes(spans: seq<Span>, s: Span)
    ensures multiset(Insert(spans, s)) == multiset(spans) + multiset{s}
  {
    if spans != [] {
      var n := |spans| - 1;
      assert spans == spans[..n] + [spans[n]];
      InsertPermutes(spans[..n], s);
    }
  }

  lemma {:induction false} InsertBelow(spans: seq<Span>, s: Span, top: Span)
    requires NotAfter(s, top) && forall i | 0 <= i < |spans| :: NotAfter(spans[i], top)
    ensures forall i | 0 <= i < |Insert(spans, s)| :: NotAfter(Insert(spans, s)[i], top)
  {
    if spans != [] {
      InsertBelow(spans[..|spans| - 1], s, top);
    }
  }

  lemma {:induction false} InsertOrders(spans: seq<Span>, s: Span)
    requires InOrder(spans)
    ensures InOrder(Insert(spans, s))
  {
    if spans != [] {
      var n := |spans| - 1;
      if NotAfter(spans[n], s) {
        assert forall i | 0 <= i < n :: NotAfter(spans[i], spans[n]);
      } else {
        InsertOrders(spans[..n], s);
        InsertBelow(spans[..n], s, spans[n]);
      }
    }
  }

  lemma {:induction false} SortPermutes(spans: seq<Span>)
    ensures multiset(SortSpans(spans)) == multiset(spans) && InOrder(SortSpans(spans))
  {
    if spans != [] {
      var n := |spans| - 1;
      assert spans == spans[..n] + [spans[n]];
      SortPermutes(spans[..n]);
      InsertPermutes(SortSpans(spans[..n]), spans[n]);
      InsertOrders(SortSpans(spans[..n]), spans[n]);
    }
  }

  // ----- the overlap check -----

  datatype Measured = Length(length: int) | BadSpan

  ghost predicate Apart(a: Span, b: Span) {
    a.end <= b.start || b.end <= a.start
  }

  ghost predicate ValidSpan(s: Span) {
    0 <= s.start < s.end && (s.role.Payload? ==> s.factId.Some? && s.factId.value != "")
  }

  /** Nonempty spans that do not overlap, and every payload span names its fact. */
  ghost predicate WellFormed(spans: multiset<Span>) {
    && (forall s | s in spans :: ValidSpan(s) && spans[s] == 1)
    && (forall s, t | s in spans && t in spans && s != t :: Apart(s, t))
  }

  /** The same for a list already in order. */
  ghost predicate Disjoint(spans: seq<Span>) {
    && (forall i | 0 <= i < |spans| :: ValidSpan(spans[i]))
    && (forall i, j | 0 <= i < j < |spans| :: spans[i].end <= spans[j].start)
  }

  lemma Occurrences(spans: seq<Span>, i: nat, j: nat)
    requires i < j < |spans| && spans[i] == spans[j]
    ensures multiset(spans)[spans[i]] >= 2
  {
    assert spans == spans[..j] + [spans[j]] + spans[j + 1..];
    assert spans[..j][i] == spans[i];
    assert spans[i] in multiset(spans[..j]);
  }

  lemma {:induction false} OccursOnce(spans: seq<Span>, i: nat)
    requires i < |spans| && forall j | 0 <= j < |spans| && j != i :: spans[j] != spans[i]
    ensures multiset(spans)[spans[i]] == 1
  {
    assert spans == spans[..i] + [spans[i]] + spans[i + 1..];
    assert spans[i] !in spans[..i] && spans[i] !in spans[i + 1..];
  }

  lemma DisjointIffWellFormed(spans: seq<Span>)
    requires InOrder(spans)
    ensures Disjoint(spans) <==> WellFormed(multiset(spans))
  {
    if WellFormed(multiset(spans)) {
      forall i, j | 0 <= i < j < |spans|
        ensures spans[i].end <= spans[j].start
      {
        assert spans[i] in multiset(spans) && spans[j] in multiset(spans);
        assert NotAfter(spans[i], spans[j]);
        if spans[i] == spans[j] {
          Occurrences(spans, i, j);
        }
      }
      assert forall i | 0 <= i < |spans| :: spans[i] in multiset(spans);
    }
    if Disjoint(spans) {
      forall s | s in multiset(spans)
        ensures ValidSpan(s) && multiset(spans)[s] == 1
      {
        var i :| 0 <= i < |spans| && spans[i] == s;
        OccursOnce(spans, i);
      }
    }
  }

  /** Where the last span ends. */
  ghost function LastEnd(spans: seq<Span>): int {
    if spans == [] then 0 else spans[|spans| - 1].end
  }

  /** The checking loop over the sorted spans. */
  method MeasureSorted(sorted: seq<Span>) returns (r: Measured)
    ensures r.Length? <==> Disjoint(sorted)
    ensures r.Length? ==> r.length == LastEnd(sorted) && forall k | 0 <= k < |sorted| :: sorted[k].end <= r.length
  {
    var previousEnd, length := 0, 0;
    for i := 0 to |sorted|
      invariant forall k | 0 <= k < i :: ValidSpan(sorted[k]) && sorted[k].end <= length
      invariant forall k, m | 0 <= k < m < i :: sorted[k].end <= sorted[m].start
      invariant 0 <= previousEnd == length == if i == 0 then 0 else sorted[i - 1].end
    {
      var span := sorted[i];
      if span.start < 0 || span.end <= span.start || span.start < previousEnd {
        return BadSpan;
      }
      if span.role.Payload? && (span.factId.None? || span.factId.value == "") {
        return BadSpan;
      }
      previousEnd := span.end;
      length := if length < span.end then span.end else length;
    }
    return Length(length);
  }

  /** Accepts exactly the well-formed lists, in any order, and returns the largest end. */
  method ValidatedLength(spans: seq<Span>) returns (r: Measured)
    ensures r.Length? <==> WellFormed(multiset(spans))
    ensures r.Length? ==> Disjoint(SortSpans(spans)) && r.length == LastEnd(SortSpans(spans))
    ensures r.Length? ==> AllInDocument(SortSpans(spans), r.length) && LargestEnd(spans, r.length)
  {
    SortPermutes(spans);
    DisjointIffWellFormed(SortSpans(spans));
    r := MeasureSorted(SortSpans(spans));
    if r.Length? {
      LastIsLargest(spans, SortSpans(spans), r.length);
    }
  }

  /** The largest end, zero for no spans at all. */
  ghost predicate LargestEnd(spans: seq<Span>, length: int) {
    && (forall s | s in spans :: s.end <= length)
    && (if spans == [] then length == 0 else exists s :: s in spans && s.end == length)
  }

  lemma {:induction false} LastIsLargest(spans: seq<Span>, sorted: seq<Span>, length: int)
    requires multiset(sorted) == multiset(spans) && length == LastEnd(sorted)
    requires forall k | 0 <= k < |sorted| :: sorted[k].end <= length
    ensures LargestEnd(spans, length)
  {
    forall s
      ensures s in spans <==> s in sorted
    {
      assert s in multiset(spans) <==> s in multiset(sorted);
    }
    assert |multiset(sorted)| == |sorted| && |multiset(spans)| == |spans|;
    if spans != [] {
      assert sorted[|sorted| - 1] in spans;
    }
  }

  // ----- the per-record supply check -----

  predicate HasKey(s: Span, role: Role, key: Key, length: int) {
    InDocument(s, length) && s.role == role && KeyOf(s, length) == key
  }

  /** The sum of f over the first n spans. */
  function Tally(spans: seq<Span>, n: nat, f: Span -> nat): nat
    requires n <= |spans|
  {
    if n == 0 then 0 else Tally(spans, n - 1, f) + f(spans[n - 1])
  }

  /** Tallied, this counts the spans with a role and a key. */
  function Indicator(role: Role, key: Key, length: int): Span -> nat {
    (s: Span) => if HasKey(s, role, key, length) then 1 else 0
  }

  function Count(spans: seq<Span>, role: Role, key: Key, length: int): nat {
    Tally(spans, |spans|, Indicator(role, key, length))
  }

  lemma {:induction false} TallyPrefix(a: seq<Span>, b: seq<Span>, n: nat, f: Span -> nat)
    requires n <= |a| && n <= |b| && forall i | 0 <= i < n :: a[i] == b[i]
    ensures Tally(a, n, f) == Tally(b, n, f)
  {
    if n > 0 {
      TallyPrefix(a, b, n - 1, f);
    }
  }

  lemma {:induction false} InsertTally(spans: seq<Span>, s: Span, f: Span -> nat)
    ensures Tally(Insert(spans, s), |Insert(spans, s)|, f) == Tally(spans, |spans|, f) + f(s)
  {
    var r := Insert(spans, s);
    if spans != [] {
      var n := |spans| - 1;
      if NotAfter(spans[n], s) {
        TallyPrefix(r, spans, |spans|, f);
      } else {
        InsertTally(spans[..n], s, f);
        TallyPrefix(r, Insert(spans[..n], s), |r| - 1, f);
        TallyPrefix(spans, spans[..n], n, f);
      }
    }
  }

  /** A tally does not depend on the order of the spans. */
  lemma {:induction false} SortTally(spans: seq<Span>, f: Span -> nat)
    ensures Tally(SortSpans(spans), |SortSpans(spans)|, f) == Tally(spans, |spans|, f)
  {
    if spans != [] {
      var n := |spans| - 1;
      SortTally(spans[..n], f);
      InsertTally(SortSpans(spans[..n]), spans[n], f);
      TallyPrefix(spans, spans[..n], n, f);
    }
  }

  ghost predicate AllInDocument(spans: seq<Span>, length: int) {
    forall i | 0 <= i < |spans| :: InDocument(spans[i], length)
  }

  /** Every payload key has at least as many Random controls with that same key. */
  ghost predicate Supplied(spans: seq<Span>, length: int) {
    forall key :: Count(spans, Payload, key, length) <= Count(spans, RandomControl, key, length)
  }

  /** A span of this role inside the document, of this many tokens, its midpoint in the k-th tenth. */
  ghost predicate Fits(s: Span, role: Role, tokens: int, k: int, length: int) {
    && s.role == role && 0 <= s.start < s.end <= length && s.end - s.start == tokens
    && InTenth(s.start, s.end, length, k)
  }

  ghost function Matching(spans: seq<Span>, role: Role, tokens: int, k: int, length: int): set<nat> {
    set i: nat | i < |spans| && Fits(spans[i], role, tokens, k, length)
  }

  /** Every payload has a control of its own length and tenth, one each. */
  ghost predicate EnoughControls(spans: seq<Span>, length: int) {
    forall tokens, k ::
      |Matching(spans, Payload, tokens, k, length)| <= |Matching(spans, RandomControl, tokens, k, length)|
  }

  lemma {:induction false} FitsIsKey(s: Span, role: Role, tokens: int, k: int, length: int)
    ensures HasKey(s, role, Key(tokens, k), length) <==> Fits(s, role, tokens, k, length)
  {
    if InDocument(s, length) {
      BinIsTenth(s.start, s.end, length, k);
    }
  }

  lemma {:induction false} MatchingGrows(spans: seq<Span>, s: Span, role: Role, tokens: int, k: int, length: int)
    ensures |Matching(spans + [s], role, tokens, k, length)|
         == |Matching(spans, role, tokens, k, length)| + if Fits(s, role, tokens, k, length) then 1 else 0
  {
    var before, after := Matching(spans, role, tokens, k, length), Matching(spans + [s], role, tokens, k, length);
    assert after == if Fits(s, role, tokens, k, length) then before + {|spans|} else before;
  }

  lemma {:induction false} CountIsMatching(spans: seq<Span>, role: Role, tokens: int, k: int, length: int)
    ensures Count(spans, role, Key(tokens, k), length) == |Matching(spans, role, tokens, k, length)|
    decreases |spans|
  {
    if spans != [] {
      var n := |spans| - 1;
      assert spans == spans[..n] + [spans[n]];
      CountIsMatching(spans[..n], role, tokens, k, length);
      TallyPrefix(spans, spans[..n], n, Indicator(role, Key(tokens, k), length));
      FitsIsKey(spans[n], role, tokens, k, length);
      MatchingGrows(spans[..n], spans[n], role, tokens, k, length);
    } else {
      assert Matching(spans, role, tokens, k, length) == {};
    }
  }

  lemma {:induction false} SuppliedMeans(spans: seq<Span>, length: int)
    ensures Supplied(spans, length) <==> EnoughControls(spans, length)
  {
    forall tokens, k
      ensures Count(spans, Payload, Key(tokens, k), length) == |Matching(spans, Payload, tokens, k, length)|
      ensures Count(spans, RandomControl, Key(tokens, k), length) == |Matching(spans, RandomControl, tokens, k, length)|
    {
      CountIsMatching(spans, Payload, tokens, k, length);
      CountIsMatching(spans, RandomControl, tokens, k, length);
    }
    if EnoughControls(spans, length) {
      forall key
        ensures Count(spans, Payload, key, length) <= Count(spans, RandomControl, key, length)
      {
        assert key == Key(key.length, key.bin);
      }
    }
  }

  function Get(counter: map<Key, nat>, key: Key): nat {
    if key in counter then counter[key] else 0
  }

  datatype Supply = Enough | Undersupplied(key: Key) | OutsideDocument

  /** Counts demands and candidates key by key; the record passes exactly when every payload has
      a control of its own length and tenth of the document. */
  method RequireLocalSupply(spans: seq<Span>, length: int) returns (r: Supply)
    ensures r.OutsideDocument? <==> !AllInDocument(spans, length)
    ensures r.Enough? <==> AllInDocument(spans, length) && Supplied(spans, length)
    ensures r.Enough? <==> AllInDocument(spans, length) && EnoughControls(spans, length)
    ensures r.Undersupplied? ==> AllInDocument(spans, length)
    ensures r.Undersupplied? ==> Count(spans, RandomControl, r.key, length) < Count(spans, Payload, r.key, length)
    ensures r.Undersupplied? ==>
      |Matching(spans, RandomControl, r.key.length, r.key.bin, length)|
      < |Matching(spans, Payload, r.key.length, r.key.bin, length)|
  {
    SuppliedMeans(spans, length);
    var demands: map<Key, nat> := map[];
    var candidates: map<Key, nat> := map[];
    for i := 0 to |spans|
      invariant forall k | 0 <= k < i :: InDocument(spans[k], length)
      invariant forall key :: Get(demands, key) == Tally(spans, i, Indicator(Payload, key, length))
      invariant forall key :: Get(candidates, key) == Tally(spans, i, Indicator(RandomControl, key, length))
    {
      var span := spans[i];
      if !(0 <= span.start < span.end <= length) {
        return OutsideDocument;
      }
      var key := KeyOf(span, length);
      if span.role.Payload? {
        demands := demands[key := Get(demands, key) + 1];
      } else if span.role.RandomControl? {
        candidates := candidates[key := Get(candidates, key) + 1];
      }
    }
    var keys := demands.Keys;
    while keys != {}
      invariant forall key | key in demands && key !in keys :: Get(demands, key) <= Get(candidates, key)
      invariant keys <= demands.Keys
    {
      var key :| key in keys;
      if Get(candidates, key) < demands[key] {
        assert Count(spans, RandomControl, key, length) < Count(spans, Payload, key, length);
        CountIsMatching(spans, Payload, key.length, key.bin, length);
        CountIsMatching(spans, RandomControl, key.length, key.bin, length);
        return Undersupplied(key);
      }
      keys := keys - {key};
    }
    return Enough;
  }
}
