/** The occurrence table as a value: one row per span of the corpus, in token order, and
    the demand, candidate and selection tables as sets of row numbers (mask_ledger.py,
    _create_spool). A row's span id is its number plus one. */
module OccurrenceTable {
  import opened Wrappers
  import opened Tokens
  import S = Spans
  import ZeroRuns

  datatype SpanRow = SpanRow(recordIndex: int, component: string, start: int, end: int, key: S.Key, role: S.Role,
                             factId: Option<string>, field: Option<string>, text: Option<string>,
                             selective: bool, tokenBytes: seq<Token>)

  /** The rows are nonempty, in order, disjoint and inside the stream. */
  ghost predicate TableValid(rows: seq<SpanRow>, total: int) {
    && (forall i | 0 <= i < |rows| ::
         0 <= rows[i].start < rows[i].end <= total && rows[i].key.length == rows[i].end - rows[i].start)
    && (forall i, j | 0 <= i < j < |rows| :: rows[i].end <= rows[j].start)
  }

  function Having(rows: seq<SpanRow>, role: S.Role): (ids: set<nat>)
    ensures forall i: nat :: i in ids <==> i < |rows| && rows[i].role == role
  {
    set i: nat | i < |rows| && rows[i].role == role
  }

  /** The rows from number `from` on that have this role. */
  function HavingFrom(rows: seq<SpanRow>, from: nat, role: S.Role): set<nat> {
    set i: nat | from <= i < |rows| && rows[i].role == role
  }

  lemma HavingAppend(rows: seq<SpanRow>, more: seq<SpanRow>, role: S.Role)
    ensures Having(rows + more, role) == Having(rows, role) + HavingFrom(rows + more, |rows|, role)
  {
  }

  function ByKey(rows: seq<SpanRow>, ids: set<nat>, key: S.Key): (some: set<nat>)
    ensures some <= ids
    ensures forall i: nat :: i in some <==> i in ids && i < |rows| && rows[i].key == key
  {
    set i | i in ids && i < |rows| && rows[i].key == key
  }

  /** Position p lies in one of the rows `ids`. */
  ghost predicate Masked(rows: seq<SpanRow>, ids: set<nat>, p: int) {
    exists i :: i in ids && i < |rows| && rows[i].start <= p < rows[i].end
  }

  /** The ranges of the rows `ids` among the first n, in order. */
  function RangesOf(rows: seq<SpanRow>, ids: set<nat>, n: nat): seq<Range>
    requires n <= |rows|
  {
    if n == 0 then []
    else if n - 1 in ids then RangesOf(rows, ids, n - 1) + [Range(rows[n - 1].start, rows[n - 1].end)]
    else RangesOf(rows, ids, n - 1)
  }

  /** The number of tokens in the rows `ids` among the first n. */
  ghost function Mass(rows: seq<SpanRow>, ids: set<nat>, n: nat): int
    requires n <= |rows|
  {
    if n == 0 then 0
    else Mass(rows, ids, n - 1) + if n - 1 in ids then rows[n - 1].end - rows[n - 1].start else 0
  }

  /** Both sets have the same number of rows for every key. */
  ghost predicate SameHistogram(rows: seq<SpanRow>, a: set<nat>, b: set<nat>) {
    forall key :: |ByKey(rows, a, key)| == |ByKey(rows, b, key)|
  }

  /** SQL's GROUP BY (length, position_bin) over the rows `ids`. */
  function KeyCounts(rows: seq<SpanRow>, ids: set<nat>): (counts: map<S.Key, nat>)
    requires forall i | i in ids :: i < |rows|
    ensures forall key :: key in counts <==> ByKey(rows, ids, key) != {}
    ensures forall key | key in counts :: counts[key] == |ByKey(rows, ids, key)|
  {
    var keys := set i | i in ids :: rows[i].key;
    assert forall key | ByKey(rows, ids, key) != {} :: exists i :: i in ByKey(rows, ids, key) && rows[i].key == key;
    assert forall i | i in ids :: i in ByKey(rows, ids, rows[i].key);
    map key | key in keys :: |ByKey(rows, ids, key)|
  }

  lemma SameCounts(rows: seq<SpanRow>, a: set<nat>, b: set<nat>)
    requires (forall i | i in a :: i < |rows|) && (forall i | i in b :: i < |rows|)
    ensures KeyCounts(rows, a) == KeyCounts(rows, b) <==> SameHistogram(rows, a, b)
  {
    var ca, cb := KeyCounts(rows, a), KeyCounts(rows, b);
    forall key
      ensures |ByKey(rows, a, key)| == (if key in ca then ca[key] else 0)
      ensures |ByKey(rows, b, key)| == (if key in cb then cb[key] else 0)
      ensures (key in ca ==> ca[key] > 0) && (key in cb ==> cb[key] > 0)
    {
    }
    if SameHistogram(rows, a, b) {
      forall key
        ensures key in ca <==> key in cb
        ensures key in ca ==> ca[key] == cb[key]
      {
        assert |ByKey(rows, a, key)| == |ByKey(rows, b, key)|;
      }
    }
  }

  // ----- equal histograms have equal mass -----

  lemma {:induction false} MassWithout(rows: seq<SpanRow>, ids: set<nat>, x: nat, n: nat)
    requires n <= |rows| && x in ids && x < |rows|
    ensures Mass(rows, ids, n) == Mass(rows, ids - {x}, n) + if x < n then rows[x].end - rows[x].start else 0
  {
    if n > 0 {
      MassWithout(rows, ids, x, n - 1);
    }
  }

  lemma {:induction false} MassOfNone(rows: seq<SpanRow>, n: nat)
    requires n <= |rows|
    ensures Mass(rows, {}, n) == 0
  {
    if n > 0 {
      MassOfNone(rows, n - 1);
    }
  }

  lemma RemovePair(rows: seq<SpanRow>, a: set<nat>, b: set<nat>, x: nat, y: nat)
    requires SameHistogram(rows, a, b) && x in a && y in b && x < |rows| && y < |rows| && rows[x].key == rows[y].key
    ensures SameHistogram(rows, a - {x}, b - {y})
  {
    forall key
      ensures |ByKey(rows, a - {x}, key)| == |ByKey(rows, b - {y}, key)|
    {
      assert |ByKey(rows, a, key)| == |ByKey(rows, b, key)|;
      if key == rows[x].key {
        assert ByKey(rows, a - {x}, key) == ByKey(rows, a, key) - {x};
        assert ByKey(rows, b - {y}, key) == ByKey(rows, b, key) - {y};
      } else {
        assert ByKey(rows, a - {x}, key) == ByKey(rows, a, key);
        assert ByKey(rows, b - {y}, key) == ByKey(rows, b, key);
      }
    }
  }

  /** Because the key fixes the length, equal histograms mean equal token mass. */
  lemma {:induction false} EqualMass(rows: seq<SpanRow>, total: int, a: set<nat>, b: set<nat>)
    requires TableValid(rows, total) && SameHistogram(rows, a, b)
    requires (forall i | i in a :: i < |rows|) && (forall i | i in b :: i < |rows|)
    ensures Mass(rows, a, |rows|) == Mass(rows, b, |rows|)
    decreases a
  {
    if a == {} {
      assert forall y | y in b :: y in ByKey(rows, b, rows[y].key);
      forall key
        ensures ByKey(rows, b, key) == {}
      {
        assert |ByKey(rows, b, key)| == |ByKey(rows, a, key)| == 0;
      }
      assert b == {};
      MassOfNone(rows, |rows|);
    } else {
      var x :| x in a;
      var key := rows[x].key;
      assert x in ByKey(rows, a, key);
      assert |ByKey(rows, a, key)| == |ByKey(rows, b, key)|;
      assert ByKey(rows, b, key) != {};
      var y :| y in ByKey(rows, b, key);
      RemovePair(rows, a, b, x, y);
      EqualMass(rows, total, a - {x}, b - {y});
      MassWithout(rows, a, x, |rows|);
      MassWithout(rows, b, y, |rows|);
    }
  }

  // ----- the ranges of a set of rows -----

  lemma {:induction false} RangesSorted(rows: seq<SpanRow>, total: int, ids: set<nat>, n: nat)
    requires TableValid(rows, total) && n <= |rows|
    ensures ZeroRuns.Sorted(RangesOf(rows, ids, n))
    ensures forall k, i | 0 <= k < |RangesOf(rows, ids, n)| && n <= i < |rows| ::
      RangesOf(rows, ids, n)[k].end <= rows[i].start
  {
    if n > 0 {
      RangesSorted(rows, total, ids, n - 1);
    }
  }

  lemma {:induction false} RangesMasked(rows: seq<SpanRow>, ids: set<nat>, n: nat, p: int)
    requires n <= |rows|
    ensures ZeroRuns.In(RangesOf(rows, ids, n), p) <==>
      exists i :: i in ids && i < n && rows[i].start <= p < rows[i].end
  {
    if n > 0 {
      RangesMasked(rows, ids, n - 1, p);
      if n - 1 in ids {
        ZeroRuns.InSnoc(RangesOf(rows, ids, n - 1), Range(rows[n - 1].start, rows[n - 1].end), p);
      }
    }
  }

  lemma {:induction false} RangesMass(rows: seq<SpanRow>, ids: set<nat>, n: nat)
    requires n <= |rows|
    ensures ZeroRuns.Length(RangesOf(rows, ids, n)) == Mass(rows, ids, n)
  {
    if n > 0 {
      RangesMass(rows, ids, n - 1);
      if n - 1 in ids {
        ZeroRuns.LengthSnoc(RangesOf(rows, ids, n - 1), Range(rows[n - 1].start, rows[n - 1].end));
      }
    }
  }

  /** A sidecar that is zero exactly on the rows `ids` passes the zero-run comparison. */
  ghost predicate ZeroOn(sidecar: seq<ZeroRuns.Byte>, total: int, rows: seq<SpanRow>, ids: set<nat>) {
    |sidecar| == total && forall p | 0 <= p < |sidecar| :: sidecar[p] == if Masked(rows, ids, p) then 0 else 1
  }

  lemma ZeroOnPasses(sidecar: seq<ZeroRuns.Byte>, total: int, rows: seq<SpanRow>, ids: set<nat>)
    requires TableValid(rows, total) && ZeroOn(sidecar, total, rows, ids)
    ensures ZeroRuns.ZeroExactlyOn(sidecar, total, RangesOf(rows, ids, |rows|))
  {
    RangesSorted(rows, total, ids, |rows|);
    forall p
      ensures ZeroRuns.In(RangesOf(rows, ids, |rows|), p) <==> 0 <= p < |sidecar| && sidecar[p] == 0
    {
      RangesMasked(rows, ids, |rows|, p);
    }
  }

  /** Rows of different roles never mask the same position. */
  lemma RolesApart(rows: seq<SpanRow>, total: int, ids: set<nat>, i: nat, p: int)
    requires TableValid(rows, total) && i < |rows| && rows[i].start <= p < rows[i].end && i !in ids
    ensures !Masked(rows, ids, p)
  {
  }
}
