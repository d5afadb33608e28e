/** The one-pass check that every direct payload occurrence is tagged and labelled
    (mask_ledger.py, _require_inventory_matches_tagged and _require_no_protected_patterns). */
module TaggedSweep {
  import opened Tokens
  import PatternScan

  type FactId = string

  /** A payload row of the occurrence table, in (start, end) order. */
  datatype PayloadSpan = PayloadSpan(start: int, end: int, factId: FactId)

  datatype Verdict = Clean | Untagged(range: Range) | Mislabeled(range: Range)

  /** The spans are nonempty, sorted and disjoint. */
  ghost predicate Disjoint(spans: seq<PayloadSpan>) {
    && (forall i | 0 <= i < |spans| :: 0 <= spans[i].start < spans[i].end)
    && (forall i, j | 0 <= i < j < |spans| :: spans[i].end <= spans[j].start)
  }

  ghost predicate Covers(span: PayloadSpan, r: Range) {
    span.start <= r.start && r.end <= span.end
  }

  /** Some inventory pattern occurs at r, inside one record. */
  ghost predicate Direct(tokens: seq<Token>, facts: map<seq<Token>, set<FactId>>, records: seq<Range>, r: Range) {
    exists k :: 0 <= k < |records| && PatternScan.Inside(tokens, records[k], r) && tokens[r.start..r.end] in facts
  }

  /** One payload span covers r, and its fact is one of the pattern's facts. */
  ghost predicate Tagged(tokens: seq<Token>, spans: seq<PayloadSpan>, facts: map<seq<Token>, set<FactId>>, r: Range) {
    && 0 <= r.start <= r.end <= |tokens| && tokens[r.start..r.end] in facts
    && exists i :: 0 <= i < |spans| && Covers(spans[i], r) && spans[i].factId in facts[tokens[r.start..r.end]]
  }

  /** A set of patterns as a list without repeats. The order does not matter to what follows. */
  method Enumerate(set_: set<seq<Token>>) returns (patterns: seq<seq<Token>>)
    ensures forall i, j | 0 <= i < j < |patterns| :: patterns[i] != patterns[j]
    ensures forall p: seq<Token> :: p in patterns <==> p in set_
  {
    patterns := [];
    var keys := set_;
    while keys != {}
      invariant keys <= set_
      invariant forall p: seq<Token> :: p in patterns <==> p in set_ - keys
      invariant forall i, j | 0 <= i < j < |patterns| :: patterns[i] != patterns[j]
    {
      var key :| key in keys;
      assert forall i | 0 <= i < |patterns| :: patterns[i] in patterns;
      patterns, keys := patterns + [key], keys - {key};
    }
  }

  lemma DirectIsOccurs(tokens: seq<Token>, facts: map<seq<Token>, set<FactId>>, patterns: seq<seq<Token>>,
                       records: seq<Range>, r: Range)
    requires forall p: seq<Token> :: p in patterns <==> p in facts
    ensures Direct(tokens, facts, records, r) <==> PatternScan.Occurs(tokens, patterns, records, r)
  {
    if Direct(tokens, facts, records, r) {
      var k :| 0 <= k < |records| && PatternScan.Inside(tokens, records[k], r) && tokens[r.start..r.end] in facts;
      assert PatternScan.OccursIn(tokens, patterns, records[k], r);
    }
    if PatternScan.Occurs(tokens, patterns, records, r) {
      var k :| 0 <= k < |records| && PatternScan.OccursIn(tokens, patterns, records[k], r);
      assert PatternScan.Inside(tokens, records[k], r);
    }
  }

  /** Spans before `current` end before every match still to come. */
  ghost predicate Passed(spans: seq<PayloadSpan>, current: nat, matches: seq<Range>, j: nat) {
    current <= |spans| && forall i, m | 0 <= i < current && j <= m < |matches| :: spans[i].end < matches[m].end
  }

  /** Skipping a span that ends at or before a match's start is final, although later
      matches may start earlier: they all end later. */
  lemma SkipIsFinal(spans: seq<PayloadSpan>, current: nat, matches: seq<Range>, j: nat)
    requires Passed(spans, current, matches, j) && current < |spans| && j < |matches|
    requires PatternScan.EndOrdered(matches) && matches[j].start < matches[j].end
    requires spans[current].end <= matches[j].start
    ensures Passed(spans, current + 1, matches, j)
  {
    forall m | j <= m < |matches| ensures spans[current].end < matches[m].end {
      assert j < m ==> PatternScan.Before(matches[j], matches[m]);
    }
  }

  /** Once the sweep has settled on a span, no other span can cover the match. */
  lemma OnlyCurrentCovers(spans: seq<PayloadSpan>, current: nat, matches: seq<Range>, j: nat, i: nat)
    requires Disjoint(spans) && Passed(spans, current, matches, j) && j < |matches|
    requires current < |spans| ==> spans[current].end > matches[j].start
    requires i < |spans| && Covers(spans[i], matches[j])
    ensures i == current
  {
  }

  /** Accepts if and only if every occurrence of an inventory pattern inside one record lies
      in one payload span of a fact the pattern may have. Otherwise the reported range is
      the first occurrence, by its end, for which that fails. */
  method RequireInventoryMatchesTagged(tokens: seq<Token>, spans: seq<PayloadSpan>,
                                       facts: map<seq<Token>, set<FactId>>, records: seq<Range>)
    returns (v: Verdict)
    requires Disjoint(spans) && [] !in facts && PatternScan.InOrder(records, |tokens|)
    ensures v.Clean? <==> forall r: Range | Direct(tokens, facts, records, r) :: Tagged(tokens, spans, facts, r)
    ensures !v.Clean? ==>
      && Direct(tokens, facts, records, v.range) && !Tagged(tokens, spans, facts, v.range)
      && (v.Untagged? <==> forall i | 0 <= i < |spans| :: !Covers(spans[i], v.range))
      && forall r: Range | Direct(tokens, facts, records, r) && PatternScan.Before(r, v.range) ::
           Tagged(tokens, spans, facts, r)
  {
    var patterns := Enumerate(facts.Keys);
    var matches := PatternScan.IterPatternMatches(tokens, patterns, records);
    forall r: Range
      ensures r in matches <==> Direct(tokens, facts, records, r)
    {
      DirectIsOccurs(tokens, facts, patterns, records, r);
    }
    var current: nat := 0;
    for j := 0 to |matches|
      invariant Passed(spans, current, matches, j)
      invariant forall m | 0 <= m < j :: Tagged(tokens, spans, facts, matches[m])
    {
      var match_ := matches[j];
      assert match_ in matches;
      var start, end := match_.start, match_.end;
      while current < |spans| && spans[current].end <= start
        invariant Passed(spans, current, matches, j)
      {
        SkipIsFinal(spans, current, matches, j);
        current := current + 1;
      }
      forall i | 0 <= i < |spans| && Covers(spans[i], match_)
        ensures i == current
      {
        OnlyCurrentCovers(spans, current, matches, j, i);
      }
      if current == |spans| || spans[current].start > start || end > spans[current].end {
        FirstViolation(tokens, spans, facts, records, matches, j);
        return Untagged(match_);
      }
      assert Covers(spans[current], match_);
      if spans[current].factId !in facts[tokens[start..end]] {
        FirstViolation(tokens, spans, facts, records, matches, j);
        return Mislabeled(match_);
      }
      assert Tagged(tokens, spans, facts, match_);
    }
    return Clean;
  }

  lemma FirstViolation(tokens: seq<Token>, spans: seq<PayloadSpan>, facts: map<seq<Token>, set<FactId>>,
                       records: seq<Range>, matches: seq<Range>, j: nat)
    requires j < |matches| && PatternScan.EndOrdered(matches)
    requires forall r: Range :: r in matches <==> Direct(tokens, facts, records, r)
    requires forall m | 0 <= m < j :: Tagged(tokens, spans, facts, matches[m])
    ensures forall r: Range | Direct(tokens, facts, records, r) && PatternScan.Before(r, matches[j]) ::
      Tagged(tokens, spans, facts, r)
  {
    forall r: Range | Direct(tokens, facts, records, r) && PatternScan.Before(r, matches[j])
      ensures Tagged(tokens, spans, facts, r)
    {
      var m :| 0 <= m < |matches| && matches[m] == r;
    }
  }

  /** Accepts if and only if no protected pattern occurs inside a record. */
  method RequireNoProtectedPatterns(tokens: seq<Token>, protected: set<seq<Token>>, records: seq<Range>)
    returns (clean: bool)
    requires [] !in protected && PatternScan.InOrder(records, |tokens|)
    ensures clean <==>
      forall k, r: Range | 0 <= k < |records| && PatternScan.Inside(tokens, records[k], r) ::
        tokens[r.start..r.end] !in protected
  {
    var patterns := Enumerate(protected);
    var matches := PatternScan.IterPatternMatches(tokens, patterns, records);
    clean := matches == [];
    if clean {
      forall k, r: Range | 0 <= k < |records| && PatternScan.Inside(tokens, records[k], r)
        ensures tokens[r.start..r.end] !in protected
      {
        assert r !in matches;
        assert !PatternScan.OccursIn(tokens, patterns, records[k], r);
      }
    } else {
      assert matches[0] in matches;
      ghost var k :| 0 <= k < |records| && PatternScan.OccursIn(tokens, patterns, records[k], matches[0]);
      assert PatternScan.Inside(tokens, records[k], matches[0]);
    }
  }
}
