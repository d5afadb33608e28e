/** The run-length comparison of a 0/1 sidecar with the ranges it should zero
    (mask_ledger.py, _iter_weight_zero_runs, _iter_merged_ranges and _compare_zero_runs). */
module ZeroRuns {
  import opened Tokens

  type Byte = b: int | 0 <= b < 256

  datatype Runs = Runs(runs: seq<Range>) | Leak

  datatype Summary = Summary(count: nat, maskedTokens: int) | Mismatch

  /** Position p lies in one of the ranges. */
  ghost predicate In(ranges: seq<Range>, p: int) {
    exists i :: 0 <= i < |ranges| && ranges[i].start <= p < ranges[i].end
  }

  /** Nonempty ranges with a gap between neighbours: the canonical form of a set. */
  ghost predicate Canonical(runs: seq<Range>) {
    && (forall i | 0 <= i < |runs| :: runs[i].start < runs[i].end)
    && (forall i, j | 0 <= i < j < |runs| :: runs[i].end < runs[j].start)
  }

  /** Nonempty ranges in order that do not overlap; neighbours may touch. */
  ghost predicate Sorted(ranges: seq<Range>) {
    && (forall i | 0 <= i < |ranges| :: 0 <= ranges[i].start < ranges[i].end)
    && (forall i, j | 0 <= i < j < |ranges| :: ranges[i].end <= ranges[j].start)
  }

  /** The total length of the first n ranges. */
  function Total(ranges: seq<Range>, n: nat): int
    requires n <= |ranges|
  {
    if n == 0 then 0 else Total(ranges, n - 1) + ranges[n - 1].end - ranges[n - 1].start
  }

  function Length(ranges: seq<Range>): int {
    Total(ranges, |ranges|)
  }

  /** The number of zero weights among the first n. */
  ghost function Zeros(sidecar: seq<Byte>, n: nat): nat
    requires n <= |sidecar|
  {
    if n == 0 then 0 else Zeros(sidecar, n - 1) + if sidecar[n - 1] == 0 then 1 else 0
  }

  // ----- canonical forms are unique -----

  lemma FirstPoint(runs: seq<Range>, p: int)
    requires Canonical(runs) && In(runs, p)
    ensures runs[0].start <= p
  {
  }

  lemma TailPoints(runs: seq<Range>, p: int)
    requires Canonical(runs) && runs != []
    ensures In(runs[1..], p) <==> In(runs, p) && p >= runs[0].end
  {
    if In(runs[1..], p) {
      var i :| 0 <= i < |runs| - 1 && runs[1..][i].start <= p < runs[1..][i].end;
      assert runs[i + 1] == runs[1..][i];
    }
    if In(runs, p) && p >= runs[0].end {
      var i :| 0 <= i < |runs| && runs[i].start <= p < runs[i].end;
      assert runs[1..][i - 1] == runs[i];
    }
  }

  lemma GapAfterFirst(runs: seq<Range>)
    requires Canonical(runs) && runs != []
    ensures In(runs, runs[0].start) && !In(runs, runs[0].end)
  {
    assert runs[0].start <= runs[0].start < runs[0].end;
  }

  ghost predicate SamePoints(a: seq<Range>, b: seq<Range>) {
    forall p :: In(a, p) <==> In(b, p)
  }

  lemma FirstRun(a: seq<Range>, b: seq<Range>)
    requires Canonical(a) && Canonical(b) && a != [] && SamePoints(a, b)
    ensures b != [] && a[0].start == b[0].start && a[0].end <= b[0].end
  {
    GapAfterFirst(a);
    assert In(b, a[0].start);
    FirstPoint(b, a[0].start);
    GapAfterFirst(b);
    assert In(a, b[0].start);
    FirstPoint(a, b[0].start);
    assert !In(a, b[0].end);
    assert !(a[0].start <= b[0].end < a[0].end);
  }

  lemma SameTails(a: seq<Range>, b: seq<Range>)
    requires Canonical(a) && Canonical(b) && a != [] && b != [] && a[0] == b[0] && SamePoints(a, b)
    ensures SamePoints(a[1..], b[1..])
  {
    forall p
      ensures In(a[1..], p) <==> In(b[1..], p)
    {
      TailPoints(a, p);
      TailPoints(b, p);
    }
  }

  /** Two canonical run lists that cover the same positions are the same list. */
  lemma {:induction false} CanonicalUnique(a: seq<Range>, b: seq<Range>)
    requires Canonical(a) && Canonical(b) && SamePoints(a, b)
    ensures a == b
  {
    if a == [] {
      if b != [] {
        FirstRun(b, a);
      }
    } else {
      FirstRun(a, b);
      FirstRun(b, a);
      SameTails(a, b);
      CanonicalUnique(a[1..], b[1..]);
      assert a == [a[0]] + a[1..] && b == [b[0]] + b[1..];
    }
  }

  // ----- reading the zero runs of a sidecar -----

  const CHUNK_SIZE: nat := 0x10_0000

  ghost predicate Binary(sidecar: seq<Byte>, n: int) {
    forall i | 0 <= i < n && i < |sidecar| :: sidecar[i] == 0 || sidecar[i] == 1
  }

  /** The closed runs lie before the open run, or before `offset` when none is open. */
  ghost predicate Shape(offset: int, runs: seq<Range>, runStart: int) {
    && Canonical(runs) && -1 <= runStart < offset
    && (forall i | 0 <= i < |runs| :: 0 <= runs[i].start && runs[i].end < (if runStart >= 0 then runStart else offset))
  }

  ghost predicate Points(sidecar: seq<Byte>, offset: int, runs: seq<Range>, runStart: int) {
    offset <= |sidecar| && forall p | 0 <= p < offset :: sidecar[p] == 0 <==> In(runs, p) || 0 <= runStart <= p
  }

  /** The runs closed so far and the start of the open one (or -1) describe the first
      `offset` weights. */
  ghost predicate Read(sidecar: seq<Byte>, offset: int, runs: seq<Range>, runStart: int) {
    && 0 <= offset <= |sidecar| && Binary(sidecar, offset)
    && Shape(offset, runs, runStart) && Points(sidecar, offset, runs, runStart)
    && Zeros(sidecar, offset) == Length(runs) + (if runStart >= 0 then offset - runStart else 0)
  }

  lemma InSnoc(runs: seq<Range>, last: Range, p: int)
    ensures In(runs + [last], p) <==> In(runs, p) || last.start <= p < last.end
  {
    var all := runs + [last];
    assert all[|runs|] == last;
    if In(runs, p) {
      var i :| 0 <= i < |runs| && runs[i].start <= p < runs[i].end;
      assert all[i] == runs[i];
    }
    if In(all, p) && !(last.start <= p < last.end) {
      var i :| 0 <= i < |all| && all[i].start <= p < all[i].end;
      assert runs[i] == all[i];
    }
  }

  lemma {:induction false} TotalPrefix(ranges: seq<Range>, last: Range, n: nat)
    requires n <= |ranges|
    ensures Total(ranges + [last], n) == Total(ranges, n)
  {
    if n > 0 {
      TotalPrefix(ranges, last, n - 1);
    }
  }

  lemma LengthSnoc(runs: seq<Range>, last: Range)
    ensures Length(runs + [last]) == Length(runs) + last.end - last.start
  {
    TotalPrefix(runs, last, |runs|);
  }

  lemma CloseRun(sidecar: seq<Byte>, offset: int, runs: seq<Range>, runStart: int)
    requires Read(sidecar, offset, runs, runStart) && runStart >= 0
    ensures Shape(offset + 1, runs + [Range(runStart, offset)], -1)
    ensures Points(sidecar, offset, runs + [Range(runStart, offset)], -1)
    ensures Zeros(sidecar, offset) == Length(runs + [Range(runStart, offset)])
  {
    LengthSnoc(runs, Range(runStart, offset));
    forall p | 0 <= p < offset
      ensures sidecar[p] == 0 <==> In(runs + [Range(runStart, offset)], p)
    {
      InSnoc(runs, Range(runStart, offset), p);
    }
  }

  lemma NotBeyond(offset: int, runs: seq<Range>, runStart: int)
    requires Shape(offset, runs, runStart)
    ensures !In(runs, offset)
  {
  }

  lemma ReadZero(sidecar: seq<Byte>, offset: int, runs: seq<Range>, runStart: int)
    requires Read(sidecar, offset, runs, runStart) && offset < |sidecar| && sidecar[offset] == 0
    ensures Read(sidecar, offset + 1, runs, if runStart < 0 then offset else runStart)
  {
    NotBeyond(offset, runs, runStart);
  }

  lemma ReadOne(sidecar: seq<Byte>, offset: int, runs: seq<Range>, runStart: int)
    requires Read(sidecar, offset, runs, runStart) && offset < |sidecar| && sidecar[offset] == 1
    ensures Read(sidecar, offset + 1, if runStart < 0 then runs else runs + [Range(runStart, offset)], -1)
  {
    if runStart >= 0 {
      CloseRun(sidecar, offset, runs, runStart);
      PointsOne(sidecar, offset, runs + [Range(runStart, offset)]);
    } else {
      PointsOne(sidecar, offset, runs);
    }
  }

  lemma PointsOne(sidecar: seq<Byte>, offset: int, runs: seq<Range>)
    requires 0 <= offset < |sidecar| && sidecar[offset] == 1 && Points(sidecar, offset, runs, -1)
    requires Shape(offset + 1, runs, -1)
    ensures Points(sidecar, offset + 1, runs, -1)
  {
    assert !In(runs, offset);
  }

  /** The list `runs` is the canonical form of the zero positions of the sidecar. */
  ghost predicate RunsOf(sidecar: seq<Byte>, runs: seq<Range>) {
    && Canonical(runs) && Length(runs) == Zeros(sidecar, |sidecar|)
    && forall p :: In(runs, p) <==> 0 <= p < |sidecar| && sidecar[p] == 0
  }

  lemma ReadAll(sidecar: seq<Byte>, runs: seq<Range>, runStart: int)
    requires Read(sidecar, |sidecar|, runs, runStart)
    ensures RunsOf(sidecar, if runStart < 0 then runs else runs + [Range(runStart, |sidecar|)])
  {
    if runStart >= 0 {
      CloseRun(sidecar, |sidecar|, runs, runStart);
    }
    var all := if runStart < 0 then runs else runs + [Range(runStart, |sidecar|)];
    forall p
      ensures In(all, p) <==> 0 <= p < |sidecar| && sidecar[p] == 0
    {
    }
  }

  /** One weight: open a run at a zero, close the open run at a one. */
  method ReadWeight(value: Byte, offset: int, runs0: seq<Range>, runStart0: int, ghost sidecar: seq<Byte>)
    returns (runs: seq<Range>, runStart: int)
    requires Read(sidecar, offset, runs0, runStart0) && offset < |sidecar| && sidecar[offset] == value
    requires value == 0 || value == 1
    ensures Read(sidecar, offset + 1, runs, runStart)
  {
    runs, runStart := runs0, runStart0;
    if value == 0 {
      ReadZero(sidecar, offset, runs0, runStart0);
    } else {
      ReadOne(sidecar, offset, runs0, runStart0);
    }
    if value == 0 && runStart == -1 {
      runStart := offset;
    } else if value == 1 && runStart != -1 {
      runs, runStart := runs + [Range(runStart, offset)], -1;
    }
  }

  /** One chunk of the sidecar; `ok` is false when a weight is neither 0 nor 1. */
  method ReadChunk(sidecar: seq<Byte>, chunkStart: int, chunkEnd: int, runs0: seq<Range>, runStart0: int)
    returns (ok: bool, runs: seq<Range>, runStart: int)
    requires Read(sidecar, chunkStart, runs0, runStart0) && chunkStart <= chunkEnd <= |sidecar|
    ensures ok ==> Read(sidecar, chunkEnd, runs, runStart)
    ensures !ok ==> !Binary(sidecar, |sidecar|)
  {
    runs, runStart := runs0, runStart0;
    var offset := chunkStart;
    while offset < chunkEnd
      invariant Read(sidecar, offset, runs, runStart) && offset <= chunkEnd
    {
      var value := sidecar[offset];
      if value != 0 && value != 1 {
        return false, runs, runStart;
      }
      runs, runStart := ReadWeight(value, offset, runs, runStart, sidecar);
      offset := offset + 1;
    }
    return true, runs, runStart;
  }

  /** Succeeds exactly on a 0/1 sidecar of the right length, with the canonical runs of its
      zero positions. */
  method IterWeightZeroRuns(sidecar: seq<Byte>, expectedSize: int) returns (r: Runs)
    ensures r.Runs? <==> |sidecar| == expectedSize && Binary(sidecar, |sidecar|)
    ensures r.Runs? ==> RunsOf(sidecar, r.runs)
  {
    if |sidecar| != expectedSize {
      return Leak;
    }
    var offset, runStart, ok := 0, -1, true;
    var runs: seq<Range> := [];
    while offset < |sidecar|
      invariant Read(sidecar, offset, runs, runStart)
    {
      var chunkEnd := if |sidecar| < offset + CHUNK_SIZE then |sidecar| else offset + CHUNK_SIZE;
      ok, runs, runStart := ReadChunk(sidecar, offset, chunkEnd, runs, runStart);
      if !ok {
        return Leak;
      }
      offset := chunkEnd;
    }
    ReadAll(sidecar, runs, runStart);
    return Runs(if runStart != -1 then runs + [Range(runStart, offset)] else runs);
  }

  // ----- merging the expected ranges -----

  /** `merged` and the pending range describe the ranges seen so far. */
  ghost predicate Merging(seen: seq<Range>, merged: seq<Range>, pending: seq<Range>) {
    && |pending| == (if seen == [] then 0 else 1) && (seen == [] ==> merged == [])
    && (seen != [] ==> pending[0].end == seen[|seen| - 1].end)
    && Canonical(merged + pending) && SamePoints(merged + pending, seen)
    && Length(merged + pending) == Length(seen)
  }

  lemma MergeTouching(seen: seq<Range>, merged: seq<Range>, current: Range, next: Range)
    requires Merging(seen, merged, [current]) && current.end == next.start < next.end
    ensures Merging(seen + [next], merged, [Range(current.start, next.end)])
  {
    var joined := Range(current.start, next.end);
    LengthSnoc(seen, next);
    LengthSnoc(merged, current);
    LengthSnoc(merged, joined);
    assert (merged + [current])[|merged|] == current;
    forall i | 0 <= i < |merged|
      ensures merged[i].start < merged[i].end < current.start
      ensures forall j | i < j < |merged| :: merged[i].end < merged[j].start
    {
      assert (merged + [current])[i] == merged[i];
      assert forall j | i < j < |merged| :: (merged + [current])[j] == merged[j];
    }
    forall p
      ensures In(merged + [joined], p) <==> In(seen + [next], p)
    {
      InSnoc(seen, next, p);
      InSnoc(merged, current, p);
      InSnoc(merged, joined, p);
    }
  }

  lemma MergeApart(seen: seq<Range>, merged: seq<Range>, pending: seq<Range>, next: Range)
    requires Merging(seen, merged, pending) && next.start < next.end
    requires pending != [] ==> pending[0].end < next.start
    ensures Merging(seen + [next], merged + pending, [next])
  {
    LengthSnoc(seen, next);
    LengthSnoc(merged + pending, next);
    if pending != [] {
      assert (merged + pending)[|merged|] == pending[0];
    }
    forall p
      ensures In(merged + pending + [next], p) <==> In(seen + [next], p)
    {
      InSnoc(seen, next, p);
      InSnoc(merged + pending, next, p);
    }
  }

  lemma SortedSnoc(seen: seq<Range>, next: Range)
    requires Sorted(seen)
    ensures Sorted(seen + [next]) <==>
      0 <= next.start < next.end && (seen != [] ==> seen[|seen| - 1].end <= next.start)
  {
    var all := seen + [next];
    assert all[|seen|] == next;
    if seen != [] {
      assert all[|seen| - 1] == seen[|seen| - 1];
    }
  }

  lemma NotSorted(ranges: seq<Range>, i: nat)
    requires i < |ranges| && !Sorted(ranges[..i + 1])
    ensures !Sorted(ranges)
  {
  }

  predicate Joins(current: seq<Range>, next: Range) {
    current != [] && next.start == current[0].end
  }

  predicate Invalid(current: seq<Range>, next: Range) {
    next.start < 0 || next.end <= next.start || (current != [] && next.start < current[0].end)
  }

  lemma MergeStep(ranges: seq<Range>, i: nat, merged: seq<Range>, current: seq<Range>)
    requires i < |ranges| && Sorted(ranges[..i]) && Merging(ranges[..i], merged, current)
    ensures Invalid(current, ranges[i]) ==> !Sorted(ranges)
    ensures !Invalid(current, ranges[i]) ==> Sorted(ranges[..i + 1])
    ensures !Invalid(current, ranges[i]) && Joins(current, ranges[i]) ==>
      Merging(ranges[..i + 1], merged, [Range(current[0].start, ranges[i].end)])
    ensures !Invalid(current, ranges[i]) && !Joins(current, ranges[i]) ==>
      Merging(ranges[..i + 1], merged + current, [ranges[i]])
  {
    var seen, next := ranges[..i], ranges[i];
    assert ranges[..i + 1] == seen + [next];
    SortedSnoc(seen, next);
    if Invalid(current, next) {
      NotSorted(ranges, i);
    } else if Joins(current, next) {
      assert current == [current[0]];
      MergeTouching(seen, merged, current[0], next);
    } else {
      MergeApart(seen, merged, current, next);
    }
  }

  /** Succeeds exactly on nonempty, sorted, non-overlapping ranges, and then merges touching
      neighbours into the canonical runs of their union. */
  method IterMergedRanges(ranges: seq<Range>) returns (r: Runs)
    ensures r.Runs? <==> Sorted(ranges)
    ensures r.Runs? ==> Canonical(r.runs) && SamePoints(r.runs, ranges) && Length(r.runs) == Length(ranges)
  {
    var merged: seq<Range> := [];
    var current: seq<Range> := [];
    for i := 0 to |ranges|
      invariant Sorted(ranges[..i]) && Merging(ranges[..i], merged, current)
    {
      var next := ranges[i];
      MergeStep(ranges, i, merged, current);
      if Invalid(current, next) {
        return Leak;
      }
      if Joins(current, next) {
        current := [Range(current[0].start, next.end)];
      } else {
        merged, current := merged + current, [next];
      }
    }
    assert ranges[..|ranges|] == ranges;
    return Runs(merged + current);
  }

  // ----- comparing -----

  /** Walks both run lists in step; accepts exactly equal lists and totals their lengths. */
  method CompareZeroRuns(actual: seq<Range>, expected: seq<Range>) returns (r: Summary)
    ensures r.Summary? <==> actual == expected
    ensures r.Summary? ==> r.count == |actual| && r.maskedTokens == Length(actual)
  {
    var count, maskedTokens := 0, 0;
    while count < |actual| || count < |expected|
      invariant count <= |actual| && count <= |expected| && actual[..count] == expected[..count]
      invariant maskedTokens == Length(actual[..count])
      decreases |actual| - count
    {
      if count == |actual| || count == |expected| || actual[count] != expected[count] {
        return Mismatch;
      }
      assert actual[..count + 1] == actual[..count] + [actual[count]];
      LengthSnoc(actual[..count], actual[count]);
      maskedTokens := maskedTokens + actual[count].end - actual[count].start;
      count := count + 1;
    }
    assert actual[..count] == actual && expected[..count] == expected;
    return Summary(count, maskedTokens);
  }

  /** The sidecar has the right length, is binary, and is zero exactly on the ranges. */
  ghost predicate ZeroExactlyOn(sidecar: seq<Byte>, size: int, ranges: seq<Range>) {
    && |sidecar| == size && Binary(sidecar, size) && Sorted(ranges)
    && forall p :: In(ranges, p) <==> 0 <= p < |sidecar| && sidecar[p] == 0
  }

  /** The whole check of one sidecar: it accepts if and only if the zero positions are
      exactly the union of the ranges, and then the masked-token count is both the total
      length of the ranges and the number of zero weights. */
  method CheckSidecar(sidecar: seq<Byte>, size: int, ranges: seq<Range>) returns (r: Summary)
    ensures r.Summary? <==> ZeroExactlyOn(sidecar, size, ranges)
    ensures r.Summary? ==> r.maskedTokens == Length(ranges) == Zeros(sidecar, |sidecar|)
    ensures r.Summary? ==> (r.count == 0 <==> forall p | 0 <= p < |sidecar| :: sidecar[p] == 1)
  {
    var actual := IterWeightZeroRuns(sidecar, size);
    var expected := IterMergedRanges(ranges);
    if actual.Leak? || expected.Leak? {
      return Mismatch;
    }
    r := CompareZeroRuns(actual.runs, expected.runs);
    if ZeroExactlyOn(sidecar, size, ranges) {
      CanonicalUnique(actual.runs, expected.runs);
    }
    if r.Summary? {
      assert SamePoints(actual.runs, ranges);
      if actual.runs != [] {
        GapAfterFirst(actual.runs);
      }
    }
  }
}
