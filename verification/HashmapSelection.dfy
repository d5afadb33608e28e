/** Bounded streaming selection of the smallest-ranked keys of each relation, and the
    reconciliation of its counts (wikidata5m_hashmap.py, _scan_candidates, _emit_records and
    _reconcile_counts). */
module HashmapSelection {
  const KEY_COUNT := 3000

  /** A subject and relation; an edge adds one object. */
  datatype Key = Key(relation: nat, subject: nat)

  datatype Edge = Edge(key: Key, target: nat)

  /** The edge and label tables. */
  datatype Database = Database(edges: set<Edge>, labels: map<nat, string>)

  function Objects(db: Database, k: Key): set<nat> {
    set e | e in db.edges && e.key == k :: e.target
  }

  function Keys(db: Database): set<Key> {
    set e | e in db.edges :: e.key
  }

  /** The subject and every object have labels. */
  predicate Eligible(db: Database, k: Key) {
    k.subject in db.labels && Objects(db, k) <= db.labels.Keys
  }

  /** address_sort_key: the digest of the address, then subject, then relation. */
  predicate Less(a: Key, b: Key, digest: Key -> nat) {
    digest(a) < digest(b)
    || (digest(a) == digest(b) && (a.subject < b.subject || (a.subject == b.subject && a.relation < b.relation)))
  }

  lemma {:induction false} LessIsTotal(a: Key, b: Key, digest: Key -> nat)
    ensures a == b || Less(a, b, digest) || Less(b, a, digest)
    ensures !(Less(a, b, digest) && Less(b, a, digest)) && !Less(a, a, digest)
  {
  }

  // ----- the bounded heap -----

  /** The `quota` smallest of the given keys, or all of them. */
  ghost predicate IsBest(heap: set<Key>, keys: set<Key>, quota: nat, digest: Key -> nat) {
    && heap <= keys && |heap| == (if |keys| < quota then |keys| else quota)
    && forall x, y | x in heap && y in keys && y !in heap :: Less(x, y, digest)
  }

  /** heap[0] of the inverted heap: its greatest rank. */
  method Worst(heap: set<Key>, digest: Key -> nat) returns (worst: Key)
    requires heap != {}
    ensures worst in heap && forall x | x in heap && x != worst :: Less(x, worst, digest)
  {
    worst :| worst in heap;
    var left := heap - {worst};
    while left != {}
      invariant left <= heap && worst in heap && worst !in left
      invariant forall x | x in heap && x !in left && x != worst :: Less(x, worst, digest)
    {
      var x :| x in left;
      left := left - {x};
      LessIsTotal(x, worst, digest);
      if Less(worst, x, digest) {
        worst := x;
      }
    }
  }

  lemma {:induction false} BestAdds(heap: set<Key>, keys: set<Key>, quota: nat, c: Key, digest: Key -> nat)
    requires IsBest(heap, keys, quota, digest) && c !in keys && |heap| < quota
    ensures IsBest(heap + {c}, keys + {c}, quota, digest)
  {
    assert heap == keys by {
      assert |keys - heap| == |keys| - |heap|;
    }
  }

  lemma {:induction false} BestReplaces(heap: set<Key>, keys: set<Key>, quota: nat, c: Key, worst: Key,
                                        digest: Key -> nat)
    requires IsBest(heap, keys, quota, digest) && c !in keys && |heap| == quota && worst in heap
      && Less(c, worst, digest)
    requires forall x | x in heap && x != worst :: Less(x, worst, digest)
    ensures IsBest(heap - {worst} + {c}, keys + {c}, quota, digest)
  {
    assert |keys| >= quota;
  }

  lemma {:induction false} BestKeeps(heap: set<Key>, keys: set<Key>, quota: nat, c: Key, worst: Key, digest: Key -> nat)
    requires IsBest(heap, keys, quota, digest) && c !in keys && |heap| == quota && worst in heap
      && !Less(c, worst, digest)
    requires forall x | x in heap && x != worst :: Less(x, worst, digest)
    ensures IsBest(heap, keys + {c}, quota, digest)
  {
    LessIsTotal(c, worst, digest);
  }

  /** heappush below the quota, heapreplace above it. */
  method Offer(heap: set<Key>, quota: nat, c: Key, digest: Key -> nat, ghost keys: set<Key>) returns (next: set<Key>)
    requires IsBest(heap, keys, quota, digest) && c !in keys && quota > 0
    ensures IsBest(next, keys + {c}, quota, digest)
  {
    if |heap| < quota {
      BestAdds(heap, keys, quota, c, digest);
      next := heap + {c};
    } else {
      var worst := Worst(heap, digest);
      if Less(c, worst, digest) {
        BestReplaces(heap, keys, quota, c, worst, digest);
        next := heap - {worst} + {c};
      } else {
        BestKeeps(heap, keys, quota, c, worst, digest);
        next := heap;
      }
    }
  }

  /** Rank order, without repeats. */
  ghost predicate Sorted(s: seq<Key>, digest: Key -> nat) {
    forall i, j | 0 <= i < j < |s| :: Less(s[i], s[j], digest)
  }

  ghost function SetOf(s: seq<Key>): set<Key> { set k | k in s }

  lemma {:induction false} SortedCount(s: seq<Key>, digest: Key -> nat)
    requires Sorted(s, digest)
    ensures |SetOf(s)| == |s|
    decreases |s|
  {
    if s == [] {
      assert SetOf(s) == {};
    } else {
      var front, last := s[..|s| - 1], s[|s| - 1];
      SortedCount(front, digest);
      assert s == front + [last];
      forall i | 0 <= i < |front| ensures front[i] != last {
        LessIsTotal(front[i], last, digest);
      }
      assert SetOf(s) == SetOf(front) + {last};
    }
  }

  /** Streaming selection is sorting everything and taking a prefix. */
  lemma {:induction false} BestIsPrefix(heap: set<Key>, keys: set<Key>, quota: nat, s: seq<Key>, digest: Key -> nat)
    requires IsBest(heap, keys, quota, digest) && Sorted(s, digest) && SetOf(s) == keys
    ensures |heap| <= |s| && heap == SetOf(s[..|heap|])
  {
    SortedCount(s, digest);
    var prefix := s[..|heap|];
    SortedCount(prefix, digest);
    forall p | p in prefix
      ensures p in heap
    {
      if p !in heap {
        var i :| 0 <= i < |prefix| && prefix[i] == p;
        NoneBelow(heap, s, i, digest);
        assert heap <= SetOf(s[..i]);
        SortedCount(s[..i], digest);
        Fewer(heap, SetOf(s[..i]));
      }
    }
    assert SetOf(prefix) <= heap;
    SameSize(SetOf(prefix), heap);
  }

  lemma {:induction false} NoneBelow(heap: set<Key>, s: seq<Key>, i: nat, digest: Key -> nat)
    requires i < |s| && Sorted(s, digest) && heap <= SetOf(s) && forall x | x in heap :: Less(x, s[i], digest)
    ensures heap <= SetOf(s[..i])
  {
    forall x | x in heap
      ensures x in s[..i]
    {
      var j :| 0 <= j < |s| && s[j] == x;
      LessIsTotal(s[i], s[j], digest);
      if j < i {
        assert s[..i][j] == x;
      }
    }
  }

  lemma {:induction false} Fewer(a: set<Key>, b: set<Key>)
    requires a <= b
    ensures |a| <= |b|
  {
    assert |b - a| == |b| - |a|;
  }

  lemma {:induction false} SameSize(a: set<Key>, b: set<Key>)
    requires a <= b && |a| == |b|
    ensures a == b
  {
    assert |b - a| == |b| - |a|;
  }

  // ----- edges by key -----

  ghost function EdgesIn(db: Database, keys: set<Key>): set<Edge> {
    set e | e in db.edges && e.key in keys
  }

  lemma {:induction false} ObjectCount(db: Database, k: Key)
    ensures |EdgesIn(db, {k})| == |Objects(db, k)|
  {
    SameTargets(EdgesIn(db, {k}), Objects(db, k), k);
  }

  lemma {:induction false} SameTargets(edges: set<Edge>, targets: set<nat>, k: Key)
    requires forall e | e in edges :: e.key == k
    requires forall t :: t in targets <==> Edge(k, t) in edges
    ensures |edges| == |targets|
    decreases |edges|
  {
    if edges == {} {
      assert targets == {};
    } else {
      var e :| e in edges;
      assert e == Edge(k, e.target);
      SameTargets(edges - {e}, targets - {e.target}, k);
    }
  }

  lemma {:induction false} EdgesAdd(db: Database, keys: set<Key>, k: Key)
    requires k !in keys
    ensures |EdgesIn(db, keys + {k})| == |EdgesIn(db, keys)| + |Objects(db, k)|
  {
    assert EdgesIn(db, keys + {k}) == EdgesIn(db, keys) + EdgesIn(db, {k});
    assert EdgesIn(db, keys) !! EdgesIn(db, {k});
    ObjectCount(db, k);
  }

  lemma {:induction false} EachHasAnEdge(db: Database, keys: set<Key>)
    requires keys <= Keys(db)
    ensures |EdgesIn(db, keys)| >= |keys|
    decreases |keys|
  {
    if keys != {} {
      var k :| k in keys;
      var rest := keys - {k};
      EachHasAnEdge(db, rest);
      EdgesAdd(db, rest, k);
      assert rest + {k} == keys;
      var e :| e in db.edges && e.key == k;
      assert e.target in Objects(db, k);
    }
  }

  // ----- the scan -----

  datatype Selected = Selected(relation: nat, quota: nat)

  ghost predicate ValidSelection(selection: seq<Selected>) {
    && (forall i | 0 <= i < |selection| :: selection[i].quota > 0)
    && forall i, j {:trigger selection[i], selection[j]} | 0 <= i < j < |selection| ::
         selection[i].relation != selection[j].relation
  }

  function Relations(selection: seq<Selected>): set<nat> {
    set s | s in selection :: s.relation
  }

  /** The eligible keys of one relation among the first n rows. */
  ghost function EligibleAmong(db: Database, rows: seq<Key>, n: nat, relation: nat): set<Key>
    requires n <= |rows|
  {
    if n == 0 then {}
    else
      EligibleAmong(db, rows, n - 1, relation)
      + if rows[n - 1].relation == relation && Eligible(db, rows[n - 1]) then {rows[n - 1]} else {}
  }

  lemma {:induction false} EligibleAmongAre(db: Database, rows: seq<Key>, n: nat, relation: nat, k: Key)
    requires n <= |rows|
    ensures k in EligibleAmong(db, rows, n, relation) <==> k in rows[..n] && k.relation == relation && Eligible(db, k)
  {
    if n > 0 {
      EligibleAmongAre(db, rows, n - 1, relation, k);
      assert rows[..n] == rows[..n - 1] + [rows[n - 1]];
    }
  }

  datatype Scan = Scan(groupedKeys: nat, groupedEdges: nat, missingSubject: nat, missingObject: nat,
                       heaps: map<nat, set<Key>>, eligibleKeys: map<nat, nat>, eligibleEdges: map<nat, nat>)

  function Of(f: map<nat, nat>, relation: nat): nat { if relation in f then f[relation] else 0 }

  function SumOver(selection: seq<Selected>, m: nat, f: map<nat, nat>): nat
    requires m <= |selection|
  {
    if m == 0 then 0 else SumOver(selection, m - 1, f) + Of(f, selection[m - 1].relation)
  }

  lemma {:induction false} SumUpdate(selection: seq<Selected>, m: nat, f: map<nat, nat>, i: nat, v: nat)
    requires m <= |selection| && ValidSelection(selection) && i < |selection|
    ensures SumOver(selection, m, f[selection[i].relation := v]) + (if i < m then Of(f, selection[i].relation) else 0)
            == SumOver(selection, m, f) + if i < m then v else 0
  {
    if m > 0 {
      SumUpdate(selection, m - 1, f, i, v);
    }
  }

  /** One relation's state after n rows: the best eligible keys, and their numbers. */
  ghost predicate RelationScanned(scan: Scan, db: Database, rows: seq<Key>, n: nat, s: Selected, digest: Key -> nat)
    requires n <= |rows|
  {
    && s.relation in scan.heaps && s.relation in scan.eligibleKeys && s.relation in scan.eligibleEdges
    && IsBest(scan.heaps[s.relation], EligibleAmong(db, rows, n, s.relation), s.quota, digest)
    && scan.eligibleKeys[s.relation] == |EligibleAmong(db, rows, n, s.relation)|
    && scan.eligibleEdges[s.relation] == |EdgesIn(db, EligibleAmong(db, rows, n, s.relation))|
  }

  /** Of the first n rows, those whose subject has no label, and those where only an object has none. */
  ghost function NoSubject(db: Database, rows: seq<Key>, n: nat): nat
    requires n <= |rows|
  {
    if n == 0 then 0 else NoSubject(db, rows, n - 1) + if rows[n - 1].subject !in db.labels then 1 else 0
  }

  ghost function NoObject(db: Database, rows: seq<Key>, n: nat): nat
    requires n <= |rows|
  {
    if n == 0 then 0
    else NoObject(db, rows, n - 1) + if rows[n - 1].subject in db.labels && !Eligible(db, rows[n - 1]) then 1 else 0
  }

  ghost predicate Scanned(scan: Scan, db: Database, rows: seq<Key>, n: nat, selection: seq<Selected>,
                          digest: Key -> nat)
    requires n <= |rows|
  {
    && (forall i | 0 <= i < |selection| :: RelationScanned(scan, db, rows, n, selection[i], digest))
    && scan.groupedKeys == n && scan.groupedEdges == |EdgesIn(db, SetOf(rows[..n]))|
    && scan.missingSubject == NoSubject(db, rows, n) && scan.missingObject == NoObject(db, rows, n)
    && scan.groupedKeys == scan.missingSubject + scan.missingObject + SumOver(selection, |selection|, scan.eligibleKeys)
  }

  ghost predicate Distinct(rows: seq<Key>) {
    forall i, j {:trigger rows[i], rows[j]} | 0 <= i < j < |rows| :: rows[i] != rows[j]
  }

  /** An eligible row: its relation's heap and counts move on. */
  method Accept(scan: Scan, db: Database, rows: seq<Key>, n: nat, selection: seq<Selected>, s: nat, digest: Key -> nat)
    returns (next: Scan)
    requires n < |rows| && Distinct(rows) && ValidSelection(selection) && Scanned(scan, db, rows, n, selection, digest)
    requires s < |selection| && rows[n].relation == selection[s].relation && Eligible(db, rows[n])
    ensures next.groupedKeys == scan.groupedKeys && next.groupedEdges == scan.groupedEdges
    ensures next.missingSubject == scan.missingSubject && next.missingObject == scan.missingObject
    ensures forall i | 0 <= i < |selection| :: RelationScanned(next, db, rows, n + 1, selection[i], digest)
    ensures SumOver(selection, |selection|, next.eligibleKeys) == SumOver(selection, |selection|, scan.eligibleKeys) + 1
  {
    var c, relation := rows[n], rows[n].relation;
    ghost var before := EligibleAmong(db, rows, n, relation);
    assert RelationScanned(scan, db, rows, n, selection[s], digest);
    EligibleAmongAre(db, rows, n, relation, c);
    var heap := Offer(scan.heaps[relation], selection[s].quota, c, digest, before);
    SumUpdate(selection, |selection|, scan.eligibleKeys, s, scan.eligibleKeys[relation] + 1);
    next := scan.(heaps := scan.heaps[relation := heap],
      eligibleKeys := scan.eligibleKeys[relation := scan.eligibleKeys[relation] + 1],
                  eligibleEdges := scan.eligibleEdges[relation := scan.eligibleEdges[relation] + |Objects(db, c)|]);
    AllScanned(scan, next, db, rows, n, selection, s, digest, heap);
  }

  /** Its own relation moves on, and the others stay. */
  lemma {:induction false} AllScanned(scan: Scan, next: Scan, db: Database, rows: seq<Key>, n: nat,
                                      selection: seq<Selected>, s: nat, digest: Key -> nat, heap: set<Key>)
    requires n < |rows| && ValidSelection(selection) && s < |selection| && rows[n].relation == selection[s].relation
    requires forall i | 0 <= i < |selection| :: RelationScanned(scan, db, rows, n, selection[i], digest)
    requires Eligible(db, rows[n]) && rows[n] !in EligibleAmong(db, rows, n, rows[n].relation)
    requires IsBest(heap, EligibleAmong(db, rows, n, rows[n].relation) + {rows[n]}, selection[s].quota, digest)
    requires rows[n].relation in scan.eligibleKeys && rows[n].relation in scan.eligibleEdges
    requires next.heaps == scan.heaps[rows[n].relation := heap]
    requires next.eligibleKeys == scan.eligibleKeys[rows[n].relation := scan.eligibleKeys[rows[n].relation] + 1]
    requires next.eligibleEdges
      == scan.eligibleEdges[rows[n].relation := scan.eligibleEdges[rows[n].relation] + |Objects(db, rows[n])|]
    ensures forall i | 0 <= i < |selection| :: RelationScanned(next, db, rows, n + 1, selection[i], digest)
  {
    forall i | 0 <= i < |selection|
      ensures RelationScanned(next, db, rows, n + 1, selection[i], digest)
    {
      if i == s {
        OwnScanned(scan, next, db, rows, n, selection[i], digest, heap);
      } else {
        OtherScanned(scan, next, db, rows, n, selection[i], digest);
      }
    }
  }

  /** An eligible row of this relation joins its keys, edges and heap. */
  lemma {:induction false} OwnScanned(scan: Scan, next: Scan, db: Database, rows: seq<Key>, n: nat, s: Selected,
                                      digest: Key -> nat, heap: set<Key>)
    requires n < |rows| && RelationScanned(scan, db, rows, n, s, digest) && rows[n].relation == s.relation
    requires Eligible(db, rows[n]) && rows[n] !in EligibleAmong(db, rows, n, s.relation)
    requires IsBest(heap, EligibleAmong(db, rows, n, s.relation) + {rows[n]}, s.quota, digest)
    requires next.heaps == scan.heaps[s.relation := heap]
    requires next.eligibleKeys == scan.eligibleKeys[s.relation := scan.eligibleKeys[s.relation] + 1]
    requires next.eligibleEdges
      == scan.eligibleEdges[s.relation := scan.eligibleEdges[s.relation] + |Objects(db, rows[n])|]
    ensures RelationScanned(next, db, rows, n + 1, s, digest)
  {
    EdgesAdd(db, EligibleAmong(db, rows, n, s.relation), rows[n]);
  }

  /** A row of another relation changes nothing for this one. */
  lemma {:induction false} OtherScanned(scan: Scan, next: Scan, db: Database, rows: seq<Key>, n: nat, s: Selected,
                                        digest: Key -> nat)
    requires n < |rows| && RelationScanned(scan, db, rows, n, s, digest) && rows[n].relation != s.relation
    requires s.relation in next.heaps && s.relation in next.eligibleKeys && s.relation in next.eligibleEdges
    requires next.heaps[s.relation] == scan.heaps[s.relation]
      && next.eligibleKeys[s.relation] == scan.eligibleKeys[s.relation]
    requires next.eligibleEdges[s.relation] == scan.eligibleEdges[s.relation]
    ensures RelationScanned(next, db, rows, n + 1, s, digest)
  {
  }

  lemma {:induction false} SkipRow(scan: Scan, next: Scan, db: Database, rows: seq<Key>, n: nat,
                                   selection: seq<Selected>, digest: Key -> nat)
    requires n < |rows| && !Eligible(db, rows[n])
    requires forall i | 0 <= i < |selection| :: RelationScanned(scan, db, rows, n, selection[i], digest)
    requires next.heaps == scan.heaps && next.eligibleKeys == scan.eligibleKeys
      && next.eligibleEdges == scan.eligibleEdges
    ensures forall i | 0 <= i < |selection| :: RelationScanned(next, db, rows, n + 1, selection[i], digest)
  {
    forall i | 0 <= i < |selection|
      ensures RelationScanned(next, db, rows, n + 1, selection[i], digest)
    {
      assert RelationScanned(scan, db, rows, n, selection[i], digest);
      assert EligibleAmong(db, rows, n + 1, selection[i].relation) == EligibleAmong(db, rows, n, selection[i].relation);
    }
  }

  lemma {:induction false} GroupedEdges(db: Database, rows: seq<Key>, n: nat)
    requires n < |rows| && Distinct(rows)
    ensures |EdgesIn(db, SetOf(rows[..n + 1]))| == |EdgesIn(db, SetOf(rows[..n]))| + |Objects(db, rows[n])|
  {
    assert rows[..n + 1] == rows[..n] + [rows[n]];
    assert SetOf(rows[..n + 1]) == SetOf(rows[..n]) + {rows[n]};
    EdgesAdd(db, SetOf(rows[..n]), rows[n]);
  }

  /** One grouped row: counted, then refused for a missing label or offered to its heap. */
  method ScanRow(scan: Scan, db: Database, rows: seq<Key>, n: nat, selection: seq<Selected>, digest: Key -> nat)
    returns (next: Scan)
    requires n < |rows| && Distinct(rows) && ValidSelection(selection) && rows[n].relation in Relations(selection)
    requires Scanned(scan, db, rows, n, selection, digest)
    ensures Scanned(next, db, rows, n + 1, selection, digest)
  {
    var k := rows[n];
    if k.subject !in db.labels {
      next := scan.(missingSubject := scan.missingSubject + 1);
      SkipRow(scan, next, db, rows, n, selection, digest);
    } else if !(Objects(db, k) <= db.labels.Keys) {
      next := scan.(missingObject := scan.missingObject + 1);
      SkipRow(scan, next, db, rows, n, selection, digest);
    } else {
      var s: nat :| s < |selection| && selection[s].relation == k.relation;
      next := Accept(scan, db, rows, n, selection, s, digest);
    }
    ghost var core := next;
    next := next.(groupedKeys := next.groupedKeys + 1, groupedEdges := next.groupedEdges + |Objects(db, k)|);
    GroupedEdges(db, rows, n);
    forall i | 0 <= i < |selection|
      ensures RelationScanned(next, db, rows, n + 1, selection[i], digest)
    {
      assert RelationScanned(core, db, rows, n + 1, selection[i], digest);
    }
  }

  /** The subject and every object of the key have labels. */
  ghost predicate Labelled(db: Database, k: Key) {
    k.subject in db.labels && forall e | e in db.edges && e.key == k :: e.target in db.labels
  }

  /** Only labelled keys of the relation are kept; one is dropped only when the quota is full, and
      then it has a greater digest than every kept key, or the same digest and a greater subject. */
  ghost predicate SmallestKept(kept: set<Key>, db: Database, rows: seq<Key>, s: Selected, digest: Key -> nat) {
    && |kept| <= s.quota && (forall x | x in kept :: x in rows && x.relation == s.relation && Labelled(db, x))
    && forall y | y in rows && y.relation == s.relation && Labelled(db, y) && y !in kept ::
         |kept| == s.quota
         && forall x | x in kept :: digest(x) < digest(y) || (digest(x) == digest(y) && x.subject < y.subject)
  }

  /** Digests never fall; equal ones rise by subject, then by relation. */
  ghost predicate RisesByDigest(s: seq<Key>, digest: Key -> nat) {
    forall i, j | 0 <= i < j < |s| ::
      digest(s[i]) < digest(s[j])
      || (digest(s[i]) == digest(s[j])
          && (s[i].subject < s[j].subject || (s[i].subject == s[j].subject && s[i].relation < s[j].relation)))
  }

  lemma {:induction false} EligibleIsLabelled(db: Database, k: Key)
    ensures Eligible(db, k) <==> Labelled(db, k)
  {
  }

  lemma {:induction false} BestIsSmallest(kept: set<Key>, db: Database, rows: seq<Key>, s: Selected,
                                          digest: Key -> nat)
    requires IsBest(kept, EligibleAmong(db, rows, |rows|, s.relation), s.quota, digest)
    ensures SmallestKept(kept, db, rows, s, digest)
  {
    var eligible := EligibleAmong(db, rows, |rows|, s.relation);
    forall k: Key
      ensures k in eligible <==> k in rows && k.relation == s.relation && Labelled(db, k)
    {
      EligibleAmongAre(db, rows, |rows|, s.relation, k);
      EligibleIsLabelled(db, k);
      assert rows[..|rows|] == rows;
    }
    if |eligible| < s.quota {
      SameSize(kept, eligible);
    }
  }

  lemma {:induction false} SortedRises(s: seq<Key>, digest: Key -> nat)
    requires Sorted(s, digest)
    ensures RisesByDigest(s, digest)
  {
  }

  /** What was scanned keeps the smallest labelled keys of each relation. */
  lemma {:induction false} ScannedKeepsSmallest(scan: Scan, db: Database, rows: seq<Key>, selection: seq<Selected>,
                                                digest: Key -> nat)
    requires Scanned(scan, db, rows, |rows|, selection, digest)
    ensures forall s | s in selection ::
      s.relation in scan.heaps && SmallestKept(scan.heaps[s.relation], db, rows, s, digest)
  {
    forall s | s in selection
      ensures s.relation in scan.heaps && SmallestKept(scan.heaps[s.relation], db, rows, s, digest)
    {
      var i :| 0 <= i < |selection| && selection[i] == s;
      assert RelationScanned(scan, db, rows, |rows|, selection[i], digest);
      BestIsSmallest(scan.heaps[s.relation], db, rows, s, digest);
    }
  }

  method ScanCandidates(db: Database, rows: seq<Key>, selection: seq<Selected>, digest: Key -> nat) returns (scan: Scan)
    requires Distinct(rows) && ValidSelection(selection) && forall k | k in rows :: k.relation in Relations(selection)
    ensures Scanned(scan, db, rows, |rows|, selection, digest)
    ensures forall s | s in selection ::
      s.relation in scan.heaps && SmallestKept(scan.heaps[s.relation], db, rows, s, digest)
  {
    scan := Scan(0, 0, 0, 0, map r | r in Relations(selection) ::
      {}, map r | r in Relations(selection) :: 0, map r | r in Relations(selection) :: 0);
    NothingScanned(scan, db, rows, selection, digest);
    for n: nat := 0 to |rows|
      invariant Scanned(scan, db, rows, n, selection, digest)
    {
      assert rows[n] in rows;
      scan := ScanRow(scan, db, rows, n, selection, digest);
    }
    ScannedKeepsSmallest(scan, db, rows, selection, digest);
  }

  lemma {:induction false} NothingScanned(scan: Scan, db: Database, rows: seq<Key>, selection: seq<Selected>,
                                          digest: Key -> nat)
    requires scan
      == Scan(0, 0, 0, 0, map r | r in Relations(selection) ::
        {}, map r | r in Relations(selection) :: 0, map r | r in Relations(selection) :: 0)
    ensures Scanned(scan, db, rows, 0, selection, digest)
  {
    assert EdgesIn(db, {}) == {};
    ZeroSum(selection, |selection|, scan.eligibleKeys);
    assert forall i | 0 <= i < |selection| ::
      selection[i] in selection && selection[i].relation in Relations(selection);
  }

  lemma {:induction false} ZeroSum(selection: seq<Selected>, m: nat, f: map<nat, nat>)
    requires m <= |selection| && f == map r | r in Relations(selection) :: 0
    ensures SumOver(selection, m, f) == 0
  {
    if m > 0 {
      ZeroSum(selection, m - 1, f);
    }
  }
}
