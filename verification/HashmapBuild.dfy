/** Emitting the selected keys' records and reconciling every count: the build succeeds exactly
    when each relation has its quota of eligible keys (wikidata5m_hashmap.py, HashmapRecord,
    _emit_records, _reconcile_counts and build_hashmap_dataset). */
module HashmapBuild {
  import opened Wrappers
  import opened HashmapSelection
  import GraphRows

  // ----- display keys -----

  /** label [Qsubject], relation label [Prelation] */
  function DisplayKey(k: Key, subjectLabel: string, relationLabel: string): string {
    subjectLabel + Tag("Q", k.subject) + ", " + relationLabel + Tag("P", k.relation)
  }

  function Tag(kind: string, n: nat): string {
    " [" + kind + GraphRows.Print(n) + "]"
  }

  lemma {:induction false} PrintIsDigits(n: nat, i: nat)
    requires i < |GraphRows.Print(n)|
    ensures '0' <= GraphRows.Print(n)[i] <= '9'
  {
    if n >= 10 && i < |GraphRows.Print(n / 10)| {
      PrintIsDigits(n / 10, i);
    }
  }

  /** A string ends in at most one tag of a kind. */
  lemma {:induction false} TagsDiffer(x: string, m: nat, y: string, n: nat, kind: string)
    requires kind in {"Q", "P"} && x + Tag(kind, m) == y + Tag(kind, n)
    ensures m == n && x == y
  {
    var s, t := x + Tag(kind, m), y + Tag(kind, n);
    SameDigits(x, m, y, n, kind);
    var d := |GraphRows.Print(m)|;
    assert |x| == |y|;
    assert GraphRows.Print(m) == s[|s| - 1 - d..|s| - 1] && GraphRows.Print(n) == t[|t| - 1 - d..|t| - 1];
    GraphRows.NumberPrints(m, GraphRows.Print(n));
    GraphRows.NumberPrints(n, GraphRows.Print(n));
    assert x == s[..|x|] && y == t[..|y|];
  }

  /** The tag's number has as many digits in both. */
  lemma {:induction false} SameDigits(x: string, m: nat, y: string, n: nat, kind: string)
    requires kind in {"Q", "P"} && x + Tag(kind, m) == y + Tag(kind, n)
    ensures |GraphRows.Print(m)| == |GraphRows.Print(n)|
  {
    var s := x + Tag(kind, m);
    NotShorter(x, m, y, n, kind);
    NotShorter(y, n, x, m, kind);
  }

  lemma {:induction false} DigitOfTag(y: string, n: nat, kind: string, d: nat)
    requires |kind| == 1 && d < |GraphRows.Print(n)|
    ensures var t := y + Tag(kind, n); '0' <= t[|t| - 2 - d] <= '9'
  {
    var t, e := y + Tag(kind, n), |GraphRows.Print(n)|;
    PrintIsDigits(n, e - d - 1);
    assert t[|t| - 2 - d] == GraphRows.Print(n)[e - d - 1];
  }

  lemma {:induction false} NotShorter(x: string, m: nat, y: string, n: nat, kind: string)
    requires kind in {"Q", "P"} && x + Tag(kind, m) == y + Tag(kind, n)
    ensures |GraphRows.Print(m)| >= |GraphRows.Print(n)|
  {
    var s, t := x + Tag(kind, m), y + Tag(kind, n);
    var d, e := |GraphRows.Print(m)|, |GraphRows.Print(n)|;
    // The kind's letter stands before the digits.
    assert s[|s| - 2 - d] == kind[0];
    if d < e {
      DigitOfTag(y, n, kind, d);
    }
  }

  /** Different keys have different display keys, whatever the labels contain. */
  lemma {:induction false} DisplayKeysDiffer(j: Key, k: Key, subjectJ: string, subjectK: string, labels: map<nat,
                                             string>)
    requires j.relation in labels && k.relation in labels
    requires DisplayKey(j, subjectJ, labels[j.relation]) == DisplayKey(k, subjectK, labels[k.relation])
    ensures j == k
  {
    var headJ, headK := subjectJ + Tag("Q", j.subject), subjectK + Tag("Q", k.subject);
    TagsDiffer(headJ + ", " + labels[j.relation], j.relation, headK + ", " + labels[k.relation], k.relation, "P");
    var tail := ", " + labels[j.relation];
    assert headJ + tail == headJ + ", " + labels[j.relation] && headK + tail == headK + ", " + labels[k.relation];
    assert headJ == (headJ + tail)[..|headJ|] && headK == (headK + tail)[..|headK|];
    TagsDiffer(subjectJ, j.subject, subjectK, k.subject, "Q");
  }

  // ----- emission -----

  datatype Value = Value(id: nat, text: string)

  datatype Record = Record(key: Key, subjectLabel: string, relationLabel: string, values: seq<Value>)

  ghost function IdsOf(values: seq<Value>): set<nat> { set v | v in values :: v.id }

  ghost predicate RisingIds(values: seq<Value>) {
    forall i, j {:trigger values[i], values[j]} | 0 <= i < j < |values| :: values[i].id < values[j].id
  }

  ghost predicate Labelled(values: seq<Value>, labels: map<nat, string>) {
    forall i | 0 <= i < |values| :: values[i].id in labels && values[i].text == labels[values[i].id]
  }

  /** These objects in rising order, each with its label. */
  ghost predicate ListsWithLabels(values: seq<Value>, objects: set<nat>, labels: map<nat, string>) {
    IdsOf(values) == objects && |values| == |objects| && RisingIds(values) && Labelled(values, labels)
  }

  /** A key's record: its labels, and all its objects with theirs. */
  ghost predicate IsRecord(r: Record, db: Database, labels: map<nat, string>, k: Key) {
    && r.key == k && k.subject in db.labels && r.subjectLabel == db.labels[k.subject]
    && k.relation in labels && r.relationLabel == labels[k.relation]
    && ListsWithLabels(r.values, Objects(db, k), db.labels)
  }

  lemma {:induction false} SmallestUpTo(s: set<nat>, o: nat)
    requires o in s
    ensures exists least :: least in s && forall p | p in s :: least <= p
    decreases o
  {
    if p :| p in s && p < o {
      SmallestUpTo(s, p);
    }
  }

  lemma {:induction false} HasSmallest(s: set<nat>)
    requires s != {}
    ensures exists least :: least in s && forall p | p in s :: least <= p
  {
    var o :| o in s;
    SmallestUpTo(s, o);
  }

  function Smallest(s: set<nat>): (o: nat)
    requires s != {}
    ensures o in s && forall p | p in s :: o <= p
  {
    HasSmallest(s);
    var o :| o in s && forall p | p in s :: o <= p;
    o
  }

  /** The value rows of a key, ordered by object, each joined with its label; None is a label
      that is missing. */
  method LabelValues(objects: set<nat>, labels: map<nat, string>) returns (values: Option<seq<Value>>)
    ensures values.Some? <==> objects <= labels.Keys
    ensures values.Some? ==> ListsWithLabels(values.value, objects, labels)
  {
    var listed: seq<Value> := [];
    var rest := objects;
    ghost var done: set<nat> := {};
    while rest != {}
      invariant objects == done + rest && Listing(listed, done, rest, labels)
    {
      var o := Smallest(rest);
      if o !in labels {
        return None;
      }
      ListingGrows(listed, done, rest, labels, o);
      listed := listed + [Value(o, labels[o])];
      rest := rest - {o};
      done := done + {o};
    }
    AllLabelled(listed, done, labels);
    assert done == objects;
    values := Some(listed);
  }

  /** `done` is listed, and everything in `rest` is larger. */
  ghost predicate Listing(values: seq<Value>, done: set<nat>, rest: set<nat>, labels: map<nat, string>) {
    done !! rest && ListsWithLabels(values, done, labels)
    && forall i, o | 0 <= i < |values| && o in rest :: values[i].id < o
  }

  lemma {:induction false} ListingGrows(values: seq<Value>, done: set<nat>, rest: set<nat>, labels: map<nat, string>,
                                        o: nat)
    requires Listing(values, done, rest, labels) && o in rest && o in labels && forall p | p in rest :: o <= p
    ensures Listing(values + [Value(o, labels[o])], done + {o}, rest - {o}, labels)
  {
    ListOneMore(values, done, labels, o);
  }

  lemma {:induction false} AllLabelled(values: seq<Value>, objects: set<nat>, labels: map<nat, string>)
    requires ListsWithLabels(values, objects, labels)
    ensures objects <= labels.Keys
  {
    forall o | o in objects
      ensures o in labels
    {
      assert o in IdsOf(values);
    }
  }

  lemma {:induction false} IdsGrow(values: seq<Value>, v: Value)
    ensures IdsOf(values + [v]) == IdsOf(values) + {v.id}
  {
    forall o
      ensures o in IdsOf(values + [v]) <==> o in IdsOf(values) || o == v.id
    {
      assert (values + [v])[|values|] == v;
    }
  }

  lemma {:induction false} ListOneMore(values: seq<Value>, objects: set<nat>, labels: map<nat, string>, o: nat)
    requires ListsWithLabels(values, objects, labels) && o in labels && o !in objects
    requires forall i | 0 <= i < |values| :: values[i].id < o
    ensures ListsWithLabels(values + [Value(o, labels[o])], objects + {o}, labels)
  {
    IdsGrow(values, Value(o, labels[o]));
  }

  datatype Emission = Emission(records: seq<Record>, emittedKeys: map<nat, nat>, emittedEdges: map<nat, nat>)

  /** The retained keys of one relation among the first n. */
  ghost function RetainedAmong(retained: seq<Key>, n: nat, relation: nat): set<Key>
    requires n <= |retained|
  {
    if n == 0 then {}
    else if retained[n - 1].relation == relation then RetainedAmong(retained, n - 1, relation) + {retained[n - 1]}
    else RetainedAmong(retained, n - 1, relation)
  }

  lemma {:induction false} RetainedAmongAre(retained: seq<Key>, n: nat, relation: nat, k: Key)
    requires n <= |retained|
    ensures k in RetainedAmong(retained, n, relation) <==> k in retained[..n] && k.relation == relation
  {
    if n > 0 {
      RetainedAmongAre(retained, n - 1, relation, k);
      assert retained[..n] == retained[..n - 1] + [retained[n - 1]];
    }
  }

  ghost predicate Emitted(e: Emission, db: Database, labels: map<nat, string>, retained: seq<Key>, n: nat)
    requires n <= |retained|
  {
    && |e.records| == n
    && (forall i | 0 <= i < n :: IsRecord(e.records[i], db, labels, retained[i]))
    && CountsEmitted(e, db, labels, retained, n)
  }

  ghost predicate CountsEmitted(e: Emission, db: Database, labels: map<nat, string>, retained: seq<Key>, n: nat)
    requires n <= |retained|
  {
    forall r | r in labels ::
      && r in e.emittedKeys && e.emittedKeys[r] == |RetainedAmong(retained, n, r)|
      && r in e.emittedEdges && e.emittedEdges[r] == |EdgesIn(db, RetainedAmong(retained, n, r))|
  }

  function DisplayOf(db: Database, labels: map<nat, string>, k: Key): string
    requires k.subject in db.labels && k.relation in labels
  {
    DisplayKey(k, db.labels[k.subject], labels[k.relation])
  }

  ghost predicate Shows(d: string, db: Database, labels: map<nat, string>, k: Key) {
    k.subject in db.labels && k.relation in labels && d == DisplayOf(db, labels, k)
  }

  /** Each display key so far is that of one of the first n keys. */
  ghost predicate ShownAmong(displayKeys: set<string>, db: Database, labels: map<nat, string>, retained: seq<Key>,
                             n: nat)
    requires n <= |retained|
  {
    forall d | d in displayKeys :: exists i :: 0 <= i < n && Shows(d, db, labels, retained[i])
  }

  lemma {:induction false} ShowOne(displayKeys: set<string>, db: Database, labels: map<nat, string>, retained: seq<Key>,
                                   n: nat)
    requires n < |retained| && ShownAmong(displayKeys, db, labels, retained, n)
    requires retained[n].subject in db.labels && retained[n].relation in labels
    ensures ShownAmong(displayKeys + {DisplayOf(db, labels, retained[n])}, db, labels, retained, n + 1)
  {
    assert Shows(DisplayOf(db, labels, retained[n]), db, labels, retained[n]);
  }

  /** Nothing displayed so far can be this key's display. */
  lemma {:induction false} FreshDisplay(db: Database, labels: map<nat, string>, retained: seq<Key>, n: nat,
                                        displayKeys: set<string>)
    requires n < |retained| && Distinct(retained) && forall i | 0 <= i <= n ::
      retained[i].subject in db.labels && retained[i].relation in labels
    requires ShownAmong(displayKeys, db, labels, retained, n)
    ensures DisplayOf(db, labels, retained[n]) !in displayKeys
  {
    forall i | 0 <= i < n
      ensures DisplayOf(db, labels, retained[i]) != DisplayOf(db, labels, retained[n])
    {
      if DisplayOf(db, labels, retained[i]) == DisplayOf(db, labels, retained[n]) {
        DisplayKeysDiffer(retained[i], retained[n], db.labels[retained[i].subject], db.labels[retained[n].subject],
          labels);
      }
    }
  }

  lemma {:induction false} CountsGrow(e: Emission, next: Emission, db: Database, labels: map<nat, string>,
                                      retained: seq<Key>, n: nat)
    requires n < |retained| && Distinct(retained) && CountsEmitted(e, db, labels, retained, n)
      && retained[n].relation in labels
    requires next.emittedKeys == e.emittedKeys[retained[n].relation := e.emittedKeys[retained[n].relation] + 1]
    requires next.emittedEdges
      == e.emittedEdges[retained[n].relation := e.emittedEdges[retained[n].relation] + |Objects(db, retained[n])|]
    ensures CountsEmitted(next, db, labels, retained, n + 1)
  {
    var k := retained[n];
    RetainedAmongAre(retained, n, k.relation, k);
    EdgesAdd(db, RetainedAmong(retained, n, k.relation), k);
  }

  lemma {:induction false} EmittedGrows(e: Emission, next: Emission, db: Database, labels: map<nat, string>,
                                        retained: seq<Key>, n: nat)
    requires n < |retained| && Distinct(retained) && Emitted(e, db, labels, retained, n)
    requires |next.records| == n + 1 && next.records[..n] == e.records
    requires IsRecord(next.records[n], db, labels, retained[n])
    requires next.emittedKeys == e.emittedKeys[retained[n].relation := e.emittedKeys[retained[n].relation] + 1]
    requires next.emittedEdges
      == e.emittedEdges[retained[n].relation := e.emittedEdges[retained[n].relation] + |Objects(db, retained[n])|]
    ensures Emitted(next, db, labels, retained, n + 1)
  {
    CountsGrow(e, next, db, labels, retained, n);
  }

  /** One record; None is one of the source's requirements failing. */
  method EmitRecord(e: Emission, db: Database, labels: map<nat, string>, retained: seq<Key>, n: nat,
                    addresses: set<Key>, displayKeys: set<string>)
    returns (next: Option<Emission>)
    requires n < |retained| && Distinct(retained) && Emitted(e, db, labels, retained, n)
    requires retained[n] in Keys(db) && Eligible(db, retained[n]) && retained[n].relation in labels
    requires addresses == SetOf(retained[..n])
    requires ShownAmong(displayKeys, db, labels, retained, n)
    ensures next.Some? && Emitted(next.value, db, labels, retained, n + 1)
  {
    var k := retained[n];
    HasObjects(db, k);
    FreshDisplay(db, labels, retained, n, displayKeys);
    if k.subject !in db.labels || Objects(db, k) == {} {
      return None;
    }
    var values := LabelValues(Objects(db, k), db.labels);
    if values.None? {
      return None;
    }
    if k in addresses || DisplayOf(db, labels, k) in displayKeys {
      return None;
    }
    var record := Record(k, db.labels[k.subject], labels[k.relation], values.value);
    var emission := Emission(e.records + [record], e.emittedKeys[k.relation := e.emittedKeys[k.relation] + 1],
                             e.emittedEdges[k.relation := e.emittedEdges[k.relation] + |values.value|]);
    EmittedGrows(e, emission, db, labels, retained, n);
    next := Some(emission);
  }

  lemma {:induction false} NothingEmitted(db: Database, labels: map<nat, string>, retained: seq<Key>)
    ensures Emitted(Emission([], map r | r in labels :: 0, map r | r in labels :: 0), db, labels, retained, 0)
    ensures ShownAmong({}, db, labels, retained, 0)
  {
    assert EdgesIn(db, {}) == {};
  }

  /** All records in retained order; no requirement ever fails. */
  method EmitRecords(db: Database, labels: map<nat, string>, retained: seq<Key>) returns (r: Option<Emission>)
    requires Distinct(retained) && forall k | k in retained :: k in Keys(db) && Eligible(db, k) && k.relation in labels
    ensures r.Some? && Emitted(r.value, db, labels, retained, |retained|)
  {
    var e := Emission([], map r | r in labels :: 0, map r | r in labels :: 0);
    NothingEmitted(db, labels, retained);
    var addresses: set<Key> := {};
    var displayKeys: set<string> := {};
    for n: nat := 0 to |retained|
      invariant Emitted(e, db, labels, retained, n) && addresses == SetOf(retained[..n])
      invariant ShownAmong(displayKeys, db, labels, retained, n)
    {
      assert retained[n] in retained;
      var next := EmitRecord(e, db, labels, retained, n, addresses, displayKeys);
      ShowOne(displayKeys, db, labels, retained, n);
      e := next.value;
      addresses := addresses + {retained[n]};
      displayKeys := displayKeys + {DisplayOf(db, labels, retained[n])};
      OneMoreKey(retained, n);
    }
    r := Some(e);
  }

  lemma {:induction false} OneMoreKey(retained: seq<Key>, n: nat)
    requires n < |retained|
    ensures SetOf(retained[..n + 1]) == SetOf(retained[..n]) + {retained[n]}
  {
    assert retained[..n + 1] == retained[..n] + [retained[n]];
  }

  lemma {:induction false} HasObjects(db: Database, k: Key)
    requires k in Keys(db)
    ensures Objects(db, k) != {}
  {
    var e :| e in db.edges && e.key == k;
    assert e.target in Objects(db, k);
  }

  // ----- reconciliation -----

  datatype Counts = Counts(sourceTriples: nat, selectedTriples: nat, unselectedTriples: nat, distinctEdges: nat,
    duplicateEdges: int,
                           groupedKeys: nat, missingSubject: nat, missingObject: nat, eligibleKeys: nat,
                             eligibleEdges: nat,
                           unsampledKeys: int, emittedKeys: nat, emittedEdges: nat)

  /** _reconcile_counts. */
  predicate Reconciles(c: Counts, selection: seq<Selected>, scannedEdges: nat, databaseKeys: nat,
                       emittedByRelation: map<nat, nat>) {
    && c.sourceTriples == c.selectedTriples + c.unselectedTriples
    && c.duplicateEdges >= 0 && c.selectedTriples == c.distinctEdges + c.duplicateEdges
    && c.distinctEdges == scannedEdges && c.groupedKeys == databaseKeys
    && c.groupedKeys == c.missingSubject + c.missingObject + c.eligibleKeys
    && c.unsampledKeys >= 0 && c.eligibleKeys == c.unsampledKeys + c.emittedKeys && c.emittedKeys == KEY_COUNT
    && c.eligibleEdges >= c.eligibleKeys && c.emittedEdges >= c.emittedKeys
    && c.eligibleEdges - c.emittedEdges >= c.unsampledKeys
    && forall i | 0 <= i < |selection| :: Of(emittedByRelation, selection[i].relation) == selection[i].quota
  }

  ghost function Quota(rank: nat): nat { if rank <= 24 then 94 else 93 }

  /** What a validated selection looks like: 32 relations with their frozen quotas. */
  ghost predicate FrozenSelection(selection: seq<Selected>) {
    ValidSelection(selection) && |selection| == 32 && forall i | 0 <= i < 32 :: selection[i].quota == Quota(i + 1)
  }

  ghost function SumQuota(selection: seq<Selected>, m: nat): nat
    requires m <= |selection|
  {
    if m == 0 then 0 else SumQuota(selection, m - 1) + selection[m - 1].quota
  }

  lemma {:induction false} QuotasSum(selection: seq<Selected>, m: nat)
    requires FrozenSelection(selection) && m <= 32
    ensures SumQuota(selection, m) == if m <= 24 then 94 * m else 2256 + 93 * (m - 24)
  {
    if m > 0 {
      QuotasSum(selection, m - 1);
    }
  }

  /** One relation's equations, given its best keys. */
  lemma {:induction false} RelationBalances(db: Database, heap: set<Key>, keys: set<Key>, quota: nat,
                                            digest: Key -> nat)
    requires IsBest(heap, keys, quota, digest) && keys <= Keys(db)
    ensures |heap| <= |keys| && (|heap| == quota <==> |keys| >= quota)
    ensures |EdgesIn(db, keys)| >= |keys| && |EdgesIn(db, heap)| >= |heap|
    ensures |EdgesIn(db, keys)| - |EdgesIn(db, heap)| >= |keys| - |heap|
  {
    EachHasAnEdge(db, keys);
    EachHasAnEdge(db, heap);
    EachHasAnEdge(db, keys - heap);
    assert EdgesIn(db, keys) == EdgesIn(db, heap) + EdgesIn(db, keys - heap);
    assert EdgesIn(db, heap) !! EdgesIn(db, keys - heap);
    assert |keys - heap| == |keys| - |heap|;
  }

  /** The retained keys: every heap's, in rank order. */
  ghost predicate Retains(retained: seq<Key>, scan: Scan, selection: seq<Selected>, digest: Key -> nat) {
    && Sorted(retained, digest)
    && forall k ::
         k in retained <==>
         exists i ::
           0 <= i < |selection| && selection[i].relation in scan.heaps && k in scan.heaps[selection[i].relation]
  }

  lemma {:induction false} SortedDistinct(s: seq<Key>, digest: Key -> nat)
    requires Sorted(s, digest)
    ensures Distinct(s)
  {
    forall i, j | 0 <= i < j < |s|
      ensures s[i] != s[j]
    {
      LessIsTotal(s[i], s[j], digest);
    }
  }

  /** A heap holds eligible keys of its own relation that occur among the rows. */
  lemma {:induction false} HeapKey(scan: Scan, db: Database, rows: seq<Key>, s: Selected, digest: Key -> nat, k: Key)
    requires RelationScanned(scan, db, rows, |rows|, s, digest) && k in scan.heaps[s.relation]
    ensures k in rows && k.relation == s.relation && Eligible(db, k)
  {
    EligibleAmongAre(db, rows, |rows|, s.relation, k);
    assert rows[..|rows|] == rows;
  }

  /** The retained keys of a relation are its heap. */
  lemma {:induction false} RetainedIsHeap(retained: seq<Key>, scan: Scan, db: Database, rows: seq<Key>,
                                          selection: seq<Selected>, digest: Key -> nat, i: nat)
    requires i < |selection| && ValidSelection(selection) && Scanned(scan, db, rows, |rows|, selection, digest)
      && Retains(retained, scan, selection, digest)
    ensures RetainedAmong(retained, |retained|, selection[i].relation) == scan.heaps[selection[i].relation]
  {
    var relation := selection[i].relation;
    assert RelationScanned(scan, db, rows, |rows|, selection[i], digest);
    forall k
      ensures k in RetainedAmong(retained, |retained|, relation) <==> k in scan.heaps[relation]
    {
      RetainedAmongAre(retained, |retained|, relation, k);
      assert retained[..|retained|] == retained;
      if k in scan.heaps[relation] {
        HeapKey(scan, db, rows, selection[i], digest, k);
      }
      if k in retained && k.relation == relation {
        var j :| 0 <= j < |selection| && selection[j].relation in scan.heaps && k in scan.heaps[selection[j].relation];
        assert RelationScanned(scan, db, rows, |rows|, selection[j], digest);
        HeapKey(scan, db, rows, selection[j], digest, k);
      }
    }
  }

  // ----- totals -----

  ghost function KeysAmong(selection: seq<Selected>, m: nat, retained: seq<Key>, n: nat): nat
    requires m <= |selection| && n <= |retained|
  {
    if m == 0 then 0
    else
      KeysAmong(selection, m - 1, retained, n)
      + |RetainedAmong(retained, n, selection[m - 1].relation)|
  }

  ghost function EdgesAmong(db: Database, selection: seq<Selected>, m: nat, retained: seq<Key>, n: nat): nat
    requires m <= |selection| && n <= |retained|
  {
    if m == 0 then 0
    else
      EdgesAmong(db, selection, m - 1, retained, n)
      + |EdgesIn(db, RetainedAmong(retained, n, selection[m - 1].relation))|
  }

  /** One more retained key is counted for its own relation and no other. */
  lemma {:induction false} AmongStep(db: Database, selection: seq<Selected>, m: nat, retained: seq<Key>, n: nat,
                                     next: nat, i: nat)
    requires m <= |selection| && n < |retained| && next == n + 1 && Distinct(retained) && ValidSelection(selection)
    requires i < |selection| && selection[i].relation == retained[n].relation
    ensures KeysAmong(selection, m, retained, next) == KeysAmong(selection, m, retained, n) + if i < m then 1 else 0
    ensures EdgesAmong(db, selection, m, retained, next) == EdgesAmong(db, selection, m, retained, n)
      + if i < m then |Objects(db, retained[n])| else 0
  {
    if m > 0 {
      AmongStep(db, selection, m - 1, retained, n, next, i);
      if m - 1 == i {
        RetainedAmongAre(retained, n, retained[n].relation, retained[n]);
        EdgesAdd(db, RetainedAmong(retained, n, retained[n].relation), retained[n]);
      }
    }
  }

  lemma {:induction false} NoneAmong(db: Database, selection: seq<Selected>, m: nat, retained: seq<Key>)
    requires m <= |selection|
    ensures KeysAmong(selection, m, retained, 0) == 0 && EdgesAmong(db, selection, m, retained, 0) == 0
  {
    if m > 0 {
      NoneAmong(db, selection, m - 1, retained);
      assert EdgesIn(db, {}) == {};
    }
  }

  function ValuesSum(records: seq<Record>, n: nat): nat
    requires n <= |records|
  {
    if n == 0 then 0 else ValuesSum(records, n - 1) + |records[n - 1].values|
  }

  /** Over all relations the retained keys are counted once each, and so are their edges. */
  lemma {:induction false} AmongTotals(db: Database, selection: seq<Selected>, e: Emission, labels: map<nat, string>,
                                       retained: seq<Key>, n: nat)
    requires n <= |retained| && Distinct(retained) && ValidSelection(selection)
      && Emitted(e, db, labels, retained, |retained|)
    requires forall k | k in retained :: k.relation in Relations(selection)
    ensures KeysAmong(selection, |selection|, retained, n) == n
      && EdgesAmong(db, selection, |selection|, retained, n) == ValuesSum(e.records, n)
  {
    if n == 0 {
      NoneAmong(db, selection, |selection|, retained);
    } else {
      var before: nat := n - 1;
      AmongTotals(db, selection, e, labels, retained, before);
      OneRetained(db, selection, retained, before, n);
      SumsOne(db, e, labels, retained, n);
    }
  }

  lemma {:induction false} OneRetained(db: Database, selection: seq<Selected>, retained: seq<Key>, n: nat, next: nat)
    requires n < |retained| && next == n + 1 && Distinct(retained) && ValidSelection(selection)
      && forall k | k in retained :: k.relation in Relations(selection)
    ensures KeysAmong(selection, |selection|, retained, next) == KeysAmong(selection, |selection|, retained, n) + 1
    ensures EdgesAmong(db, selection, |selection|, retained, next)
      == EdgesAmong(db, selection, |selection|, retained, n) + |Objects(db, retained[n])|
  {
    assert retained[n] in retained;
    var i: nat :| i < |selection| && selection[i].relation == retained[n].relation;
    AmongStep(db, selection, |selection|, retained, n, next, i);
  }

  lemma {:induction false} SumsOne(db: Database, e: Emission, labels: map<nat, string>, retained: seq<Key>, n: nat)
    requires 0 < n <= |retained| && Emitted(e, db, labels, retained, |retained|)
    ensures ValuesSum(e.records, n) == ValuesSum(e.records, n - 1) + |Objects(db, retained[n - 1])|
  {
    assert IsRecord(e.records[n - 1], db, labels, retained[n - 1]);
  }

  /** What the scan and the emission give for one relation, side by side. */
  ghost predicate SideBySide(s: Selected, scan: Scan, e: Emission) {
    && s.relation in scan.eligibleKeys && s.relation in scan.eligibleEdges && s.relation in e.emittedKeys
    && s.relation in e.emittedEdges
    && e.emittedKeys[s.relation] <= scan.eligibleKeys[s.relation] <= scan.eligibleEdges[s.relation]
    && e.emittedKeys[s.relation] <= e.emittedEdges[s.relation]
    && scan.eligibleEdges[s.relation] + e.emittedKeys[s.relation] >= scan.eligibleKeys[s.relation]
         + e.emittedEdges[s.relation]
    && e.emittedKeys[s.relation] == s.quota
  }

  lemma {:induction false} TotalsBalance(selection: seq<Selected>, m: nat, scan: Scan, e: Emission)
    requires m <= |selection| && forall i | 0 <= i < |selection| :: SideBySide(selection[i], scan, e)
    ensures var keys, edges := SumOver(selection, m, scan.eligibleKeys), SumOver(selection, m, scan.eligibleEdges);
            var outKeys, outEdges := SumOver(selection, m, e.emittedKeys), SumOver(selection, m, e.emittedEdges);
            outKeys <= keys <= edges && outKeys <= outEdges && edges + outKeys >= keys + outEdges
              && outKeys == SumQuota(selection, m)
  {
    if m > 0 {
      TotalsBalance(selection, m - 1, scan, e);
      assert SideBySide(selection[m - 1], scan, e);
    }
  }

  lemma {:induction false} EmittedSums(db: Database, selection: seq<Selected>, m: nat, e: Emission, labels: map<nat,
                                       string>, retained: seq<Key>)
    requires m <= |selection| && Emitted(e, db, labels, retained, |retained|) && forall i | 0 <= i < |selection| ::
      selection[i].relation in labels
    ensures SumOver(selection, m, e.emittedKeys) == KeysAmong(selection, m, retained, |retained|)
    ensures SumOver(selection, m, e.emittedEdges) == EdgesAmong(db, selection, m, retained, |retained|)
  {
    if m > 0 {
      EmittedSums(db, selection, m - 1, e, labels, retained);
    }
  }

  // ----- the build -----

  datatype Ingested = Ingested(edges: set<Edge>, source: nat, selected: nat, unselected: nat)

  ghost function SelectedEdges(triples: seq<Edge>, relations: set<nat>): set<Edge> {
    set e | e in triples && e.key.relation in relations
  }

  /** The triples of selected relations among the first n. */
  ghost function SelectedPlaces(triples: seq<Edge>, n: nat, relations: set<nat>): set<nat>
    requires n <= |triples|
  {
    set i: nat | i < n && triples[i].key.relation in relations
  }

  lemma {:induction false} SelectedPlace(triples: seq<Edge>, n: nat, relations: set<nat>)
    requires n < |triples|
    ensures |SelectedPlaces(triples, n + 1, relations)|
         == |SelectedPlaces(triples, n, relations)| + if triples[n].key.relation in relations then 1 else 0
  {
    var before, after := SelectedPlaces(triples, n, relations), SelectedPlaces(triples, n + 1, relations);
    assert after == if triples[n].key.relation in relations then before + {n} else before;
  }

  /** The keys whose subject has no label, and those where only some object has none. */
  ghost function Unnamed(db: Database, rows: seq<Key>, n: nat): set<nat>
    requires n <= |rows|
  {
    set i: nat | i < n && rows[i].subject !in db.labels
  }

  ghost function LacksObject(db: Database, k: Key): bool {
    k.subject in db.labels && exists e :: e in db.edges && e.key == k && e.target !in db.labels
  }

  ghost function PartlyNamed(db: Database, rows: seq<Key>, n: nat): set<nat>
    requires n <= |rows|
  {
    set i: nat | i < n && LacksObject(db, rows[i])
  }

  lemma {:induction false} Lacks(db: Database, k: Key)
    ensures LacksObject(db, k) <==> k.subject in db.labels && !Eligible(db, k)
  {
    EligibleIsLabelled(db, k);
  }

  lemma {:induction false} MissingOne(db: Database, rows: seq<Key>, n: nat, next: nat)
    requires n < |rows| && next == n + 1
    ensures |Unnamed(db, rows, next)| == |Unnamed(db, rows, n)| + if rows[n].subject !in db.labels then 1 else 0
    ensures |PartlyNamed(db, rows, next)| == |PartlyNamed(db, rows, n)| + if LacksObject(db, rows[n]) then 1 else 0
  {
    assert Unnamed(db, rows, next)
      == if rows[n].subject !in db.labels then Unnamed(db, rows, n) + {n} else Unnamed(db, rows, n);
    assert PartlyNamed(db, rows, next)
      == if LacksObject(db, rows[n]) then PartlyNamed(db, rows, n) + {n} else PartlyNamed(db, rows, n);
  }

  lemma {:induction false} MissingAre(db: Database, rows: seq<Key>, n: nat)
    requires n <= |rows|
    ensures NoSubject(db, rows, n) == |Unnamed(db, rows, n)| && NoObject(db, rows, n) == |PartlyNamed(db, rows, n)|
  {
    if n == 0 {
      assert Unnamed(db, rows, 0) == {} && PartlyNamed(db, rows, 0) == {};
    } else {
      MissingAre(db, rows, n - 1);
      MissingOne(db, rows, n - 1, n);
      Lacks(db, rows[n - 1]);
    }
  }

  /** The published counts, read off the triples and the labels: every triple is selected or not,
      every selected one distinct or a duplicate, every key refused for a label, sampled or not. */
  ghost predicate Accounts(c: Counts, triples: seq<Edge>, db: Database, relations: set<nat>, rows: seq<Key>) {
    && c.sourceTriples == |triples| && c.selectedTriples == |SelectedPlaces(triples, |triples|, relations)|
    && c.unselectedTriples == c.sourceTriples - c.selectedTriples
    && c.distinctEdges == |db.edges| && c.duplicateEdges == c.selectedTriples - c.distinctEdges
    && c.groupedKeys == |rows| && c.missingSubject == |Unnamed(db, rows, |rows|)|
    && c.missingObject == |PartlyNamed(db, rows, |rows|)|
    && c.eligibleKeys == c.groupedKeys - c.missingSubject - c.missingObject
    && c.emittedKeys == 3000 && c.unsampledKeys == c.eligibleKeys - c.emittedKeys
  }

  /** Counts every triple and keeps each selected edge once. */
  method IngestEdges(triples: seq<Edge>, relations: set<nat>) returns (r: Ingested)
    ensures r.edges == SelectedEdges(triples, relations)
    ensures r.source == |triples| == r.selected + r.unselected && |r.edges| <= r.selected
    ensures r.selected == |SelectedPlaces(triples, |triples|, relations)|
  {
    var edges: set<Edge> := {};
    var selected, unselected := 0, 0;
    for i := 0 to |triples|
      invariant edges == set e | e in triples[..i] && e.key.relation in relations
      invariant i == selected + unselected && unselected >= 0 && |edges| <= selected
      invariant selected == |SelectedPlaces(triples, i, relations)|
    {
      SelectedPlace(triples, i, relations);
      assert triples[..i + 1] == triples[..i] + [triples[i]];
      if triples[i].key.relation !in relations {
        unselected := unselected + 1;
      } else {
        selected := selected + 1;
        edges := edges + {triples[i]};
      }
    }
    assert triples[..|triples|] == triples;
    r := Ingested(edges, |triples|, selected, unselected);
  }

  lemma {:induction false} SetOfCons(k: Key, s: seq<Key>)
    ensures SetOf([k] + s) == {k} + SetOf(s)
  {
    assert ([k] + s)[0] == k && forall i | 0 <= i < |s| :: ([k] + s)[i + 1] == s[i];
    forall x | x in s ensures x in [k] + s {
    }
  }

  /** retained.sort(). */
  method SortKeys(keys: set<Key>, digest: Key -> nat) returns (s: seq<Key>)
    ensures Sorted(s, digest) && SetOf(s) == keys
  {
    s := [];
    var left := keys;
    while left != {}
      invariant left <= keys && Sorted(s, digest) && SetOf(s) == keys - left
      invariant forall x, y | x in left && y in s :: Less(x, y, digest)
    {
      var worst := Worst(left, digest);
      SetOfCons(worst, s);
      left := left - {worst};
      s := [worst] + s;
    }
  }

  datatype Dataset = Dataset(records: seq<Record>, counts: Counts)

  datatype Built = Built(dataset: Dataset) | TooFew(relation: nat) | Refused

  /** Every count the reconciliation compares, when each relation has its quota. */
  lemma {:induction false} CountsReconcile(db: Database, selection: seq<Selected>, rows: seq<Key>, digest: Key -> nat,
                                           scan: Scan,
                                           e: Emission, labels: map<nat, string>, retained: seq<Key>,
                                           ingested: Ingested, counts: Counts)
    requires FrozenSelection(selection) && Scanned(scan, db, rows, |rows|, selection, digest)
      && Retains(retained, scan, selection, digest)
    requires SetOf(rows) == Keys(db) && db.edges == ingested.edges && Emitted(e, db, labels, retained, |retained|)
    requires forall i | 0 <= i < |selection| ::
      selection[i].relation in labels && Of(scan.eligibleKeys, selection[i].relation) >= selection[i].quota
    requires ingested.source == ingested.selected + ingested.unselected && |ingested.edges| <= ingested.selected
    requires counts == MakeCounts(ingested, scan, selection, e)
    ensures Reconciles(counts, selection, scan.groupedEdges, |rows|, e.emittedKeys) && |e.records| == KEY_COUNT
  {
    AllSideBySide(db, selection, rows, digest, scan, e, labels, retained);
    EmissionTotals(db, selection, rows, digest, scan, e, labels, retained);
    AllGrouped(db, rows);
    FiguresReconcile(selection, scan, e, ingested, |rows|);
  }

  /** The equations, from the per-relation ones. */
  lemma {:induction false} FiguresReconcile(selection: seq<Selected>, scan: Scan, e: Emission, ingested: Ingested,
                                            databaseKeys: nat)
    requires FrozenSelection(selection) && forall i | 0 <= i < |selection| :: SideBySide(selection[i], scan, e)
    requires |e.records| == SumOver(selection, |selection|, e.emittedKeys)
      && ValuesSum(e.records, |e.records|) == SumOver(selection, |selection|, e.emittedEdges)
    requires scan.groupedKeys == databaseKeys == scan.missingSubject + scan.missingObject
      + SumOver(selection, |selection|, scan.eligibleKeys)
    requires scan.groupedEdges == |ingested.edges| <= ingested.selected
      && ingested.source == ingested.selected + ingested.unselected
    ensures Reconciles(MakeCounts(ingested, scan, selection, e), selection, scan.groupedEdges, databaseKeys,
      e.emittedKeys) && |e.records| == KEY_COUNT
  {
    TotalsBalance(selection, |selection|, scan, e);
    QuotasSum(selection, 32);
    forall i | 0 <= i < |selection|
      ensures Of(e.emittedKeys, selection[i].relation) == selection[i].quota
    {
      assert SideBySide(selection[i], scan, e);
    }
  }

  lemma {:induction false} AllGrouped(db: Database, rows: seq<Key>)
    requires SetOf(rows) == Keys(db)
    ensures EdgesIn(db, SetOf(rows[..|rows|])) == db.edges
  {
    assert rows[..|rows|] == rows;
  }

  lemma {:induction false} AllSideBySide(db: Database, selection: seq<Selected>, rows: seq<Key>, digest: Key -> nat,
                                         scan: Scan,
                                         e: Emission, labels: map<nat, string>, retained: seq<Key>)
    requires ValidSelection(selection) && Scanned(scan, db, rows, |rows|, selection, digest)
      && Retains(retained, scan, selection, digest)
    requires SetOf(rows) == Keys(db) && Emitted(e, db, labels, retained, |retained|)
    requires forall i | 0 <= i < |selection| ::
      selection[i].relation in labels && Of(scan.eligibleKeys, selection[i].relation) >= selection[i].quota
    ensures forall i | 0 <= i < |selection| :: SideBySide(selection[i], scan, e)
  {
    forall i | 0 <= i < |selection|
      ensures SideBySide(selection[i], scan, e)
    {
      assert RelationScanned(scan, db, rows, |rows|, selection[i], digest);
      RelationSideBySide(db, selection, rows, digest, scan, e, labels, retained, i);
    }
  }

  lemma {:induction false} EmissionTotals(db: Database, selection: seq<Selected>, rows: seq<Key>, digest: Key -> nat,
                                          scan: Scan,
                                          e: Emission, labels: map<nat, string>, retained: seq<Key>)
    requires ValidSelection(selection) && Scanned(scan, db, rows, |rows|, selection, digest)
      && Retains(retained, scan, selection, digest)
    requires Emitted(e, db, labels, retained, |retained|) && forall i | 0 <= i < |selection| ::
      selection[i].relation in labels
    ensures |e.records| == SumOver(selection, |selection|, e.emittedKeys)
      && ValuesSum(e.records, |e.records|) == SumOver(selection, |selection|, e.emittedEdges)
  {
    EmittedSums(db, selection, |selection|, e, labels, retained);
    SortedDistinct(retained, digest);
    forall k | k in retained
      ensures k.relation in Relations(selection)
    {
      RetainedRelation(db, selection, rows, digest, scan, retained, k);
    }
    AmongTotals(db, selection, e, labels, retained, |retained|);
  }

  function MakeCounts(ingested: Ingested, scan: Scan, selection: seq<Selected>, e: Emission): Counts {
    var eligible := SumOver(selection, |selection|, scan.eligibleKeys);
    Counts(ingested.source, ingested.selected, ingested.unselected, |ingested.edges|,
      ingested.selected - |ingested.edges|,
           scan.groupedKeys, scan.missingSubject, scan.missingObject, eligible,
             SumOver(selection, |selection|, scan.eligibleEdges),
           eligible - |e.records|, |e.records|, ValuesSum(e.records, |e.records|))
  }

  lemma {:induction false} RelationSideBySide(db: Database, selection: seq<Selected>, rows: seq<Key>,
                                              digest: Key -> nat, scan: Scan,
                                              e: Emission, labels: map<nat, string>, retained: seq<Key>, i: nat)
    requires i < |selection| && ValidSelection(selection) && Scanned(scan, db, rows, |rows|, selection, digest)
      && Retains(retained, scan, selection, digest)
    requires SetOf(rows) == Keys(db) && Emitted(e, db, labels, retained, |retained|) && selection[i].relation in labels
    requires Of(scan.eligibleKeys, selection[i].relation) >= selection[i].quota
    ensures SideBySide(selection[i], scan, e)
  {
    var s := selection[i];
    assert RelationScanned(scan, db, rows, |rows|, s, digest);
    RetainedIsHeap(retained, scan, db, rows, selection, digest, i);
    var eligible := EligibleAmong(db, rows, |rows|, s.relation);
    forall k | k in eligible
      ensures k in Keys(db)
    {
      EligibleAmongAre(db, rows, |rows|, s.relation, k);
      assert rows[..|rows|] == rows;
    }
    RelationBalances(db, scan.heaps[s.relation], eligible, s.quota, digest);
  }

  lemma {:induction false} RetainedRelation(db: Database, selection: seq<Selected>, rows: seq<Key>, digest: Key -> nat,
                                            scan: Scan, retained: seq<Key>, k: Key)
    requires Scanned(scan, db, rows, |rows|, selection, digest) && Retains(retained, scan, selection, digest)
      && k in retained
    ensures k.relation in Relations(selection) && k in rows && Eligible(db, k)
  {
    var i :| 0 <= i < |selection| && selection[i].relation in scan.heaps && k in scan.heaps[selection[i].relation];
    assert RelationScanned(scan, db, rows, |rows|, selection[i], digest);
    HeapKey(scan, db, rows, selection[i], digest, k);
    assert selection[i] in selection;
  }

  /** The keys of all heaps. */
  function AllHeaps(selection: seq<Selected>, m: nat, heaps: map<nat, set<Key>>): set<Key>
    requires m <= |selection|
  {
    if m == 0 then {}
    else
      AllHeaps(selection, m - 1, heaps)
      + if selection[m - 1].relation in heaps then heaps[selection[m - 1].relation] else {}
  }

  lemma {:induction false} InAllHeaps(selection: seq<Selected>, m: nat, heaps: map<nat, set<Key>>, k: Key)
    requires m <= |selection|
    ensures k in AllHeaps(selection, m, heaps) <==>
      exists i :: 0 <= i < m && selection[i].relation in heaps && k in heaps[selection[i].relation]
  {
    if m > 0 {
      InAllHeaps(selection, m - 1, heaps, k);
    }
  }

  /** The first relation with fewer eligible keys than its quota. */
  method FirstShort(scan: Scan, selection: seq<Selected>) returns (short: Option<nat>)
    ensures short.None? <==>
      forall i | 0 <= i < |selection| :: Of(scan.eligibleKeys, selection[i].relation) >= selection[i].quota
  {
    for i := 0 to |selection|
      invariant forall j | 0 <= j < i :: Of(scan.eligibleKeys, selection[j].relation) >= selection[j].quota
    {
      if Of(scan.eligibleKeys, selection[i].relation) < selection[i].quota {
        return Some(selection[i].relation);
      }
    }
    short := None;
  }

  /** Sorts what the heaps retained and emits it. */
  method EmitBest(db: Database, selection: seq<Selected>, rows: seq<Key>, digest: Key -> nat, scan: Scan,
                  labels: map<nat, string>)
    returns (e: Option<Emission>, ghost retained: seq<Key>)
    requires ValidSelection(selection) && Scanned(scan, db, rows, |rows|, selection, digest) && SetOf(rows) == Keys(db)
    requires forall s | s in selection :: s.relation in labels
    ensures Retains(retained, scan, selection, digest) && e.Some? && Emitted(e.value, db, labels, retained, |retained|)
  {
    var sorted := SortKeys(AllHeaps(selection, |selection|, scan.heaps), digest);
    RetainsAll(selection, scan, sorted, digest);
    SortedDistinct(sorted, digest);
    forall k | k in sorted
      ensures k in Keys(db) && Eligible(db, k) && k.relation in labels
    {
      RetainedRelation(db, selection, rows, digest, scan, sorted, k);
      assert k in SetOf(rows);
    }
    retained := sorted;
    e := EmitRecords(db, labels, sorted);
  }

  lemma {:induction false} EligibleCounted(scan: Scan, db: Database, rows: seq<Key>, selection: seq<Selected>,
                                           digest: Key -> nat)
    requires Scanned(scan, db, rows, |rows|, selection, digest)
    ensures forall i | 0 <= i < |selection| ::
      Of(scan.eligibleKeys, selection[i].relation) == |EligibleAmong(db, rows, |rows|, selection[i].relation)|
  {
    forall i | 0 <= i < |selection|
      ensures Of(scan.eligibleKeys, selection[i].relation) == |EligibleAmong(db, rows, |rows|, selection[i].relation)|
    {
      assert RelationScanned(scan, db, rows, |rows|, selection[i], digest);
    }
  }

  /** The edges of the selected relations, and the labels. */
  ghost function DatabaseOf(triples: seq<Edge>, entityLabels: map<nat, string>, selection: seq<Selected>): Database {
    Database(SelectedEdges(triples, Relations(selection)), entityLabels)
  }

  ghost function QuotaMap(selection: seq<Selected>): map<nat, nat>
    requires ValidSelection(selection)
  {
    map i | 0 <= i < |selection| :: selection[i].relation := selection[i].quota
  }

  /** The records, in rank order, are those of each selected relation's smallest-ranked eligible
      keys, as many as its quota, with their labels and all their objects. */
  ghost predicate HoldsBest(records: seq<Record>, retained: seq<Key>, db: Database, labels: map<nat, string>,
                            selection: seq<Selected>,
                            rows: seq<Key>, digest: Key -> nat)
  {
    && Sorted(retained, digest) && |records| == |retained|
    && (forall k | k in retained :: k.relation in Relations(selection))
    && (forall i | 0 <= i < |selection| ::
          IsBest(RetainedAmong(retained, |retained|, selection[i].relation),
            EligibleAmong(db, rows, |rows|, selection[i].relation), selection[i].quota, digest))
    && forall i | 0 <= i < |retained| :: IsRecord(records[i], db, labels, retained[i])
  }

  lemma {:induction false} RetainedAreBest(retained: seq<Key>, scan: Scan, db: Database, rows: seq<Key>,
                                           selection: seq<Selected>, digest: Key -> nat,
                                           e: Emission, labels: map<nat, string>)
    requires ValidSelection(selection) && Scanned(scan, db, rows, |rows|, selection, digest)
      && Retains(retained, scan, selection, digest)
    requires Emitted(e, db, labels, retained, |retained|)
    ensures HoldsBest(e.records, retained, db, labels, selection, rows, digest)
  {
    forall i | 0 <= i < |selection|
      ensures IsBest(RetainedAmong(retained, |retained|, selection[i].relation),
        EligibleAmong(db, rows, |rows|, selection[i].relation),
                     selection[i].quota, digest)
    {
      assert RelationScanned(scan, db, rows, |rows|, selection[i], digest);
      RetainedIsHeap(retained, scan, db, rows, selection, digest, i);
    }
    forall k | k in retained
      ensures k.relation in Relations(selection)
    {
      RetainedRelation(db, selection, rows, digest, scan, retained, k);
    }
  }

  /** The equations, read off the database and the quotas. */
  lemma {:induction false} ReconciledFigures(counts: Counts, selection: seq<Selected>, scan: Scan, db: Database,
                                             rows: seq<Key>, digest: Key -> nat, emitted: map<nat, nat>)
    requires ValidSelection(selection) && Scanned(scan, db, rows, |rows|, selection, digest) && SetOf(rows) == Keys(db)
    requires Reconciles(counts, selection, scan.groupedEdges, |rows|, emitted)
    ensures Reconciles(counts, selection, |db.edges|, |rows|, QuotaMap(selection))
  {
    AllGrouped(db, rows);
    forall i | 0 <= i < |selection|
      ensures Of(QuotaMap(selection), selection[i].relation) == selection[i].quota
    {
      assert selection[i].relation in QuotaMap(selection);
    }
  }

  /** Each selected relation's records are of its smallest-ranked labelled keys, and all records
      are in rank order. */
  ghost predicate KeepsSmallest(retained: seq<Key>, db: Database, selection: seq<Selected>, rows: seq<Key>,
                                digest: Key -> nat) {
    && RisesByDigest(retained, digest) && (forall k | k in retained :: k.relation in Relations(selection))
    && forall s | s in selection ::
         |KeptFor(retained, s.relation)| == s.quota && SmallestKept(KeptFor(retained, s.relation), db, rows, s, digest)
  }

  ghost function KeptFor(retained: seq<Key>, relation: nat): set<Key> {
    set k | k in retained && k.relation == relation
  }

  lemma {:induction false} HeldAreSmallest(records: seq<Record>, retained: seq<Key>, db: Database,
                                           labels: map<nat, string>, selection: seq<Selected>, rows: seq<Key>,
                                           digest: Key -> nat)
    requires HoldsBest(records, retained, db, labels, selection, rows, digest)
    requires forall i | 0 <= i < |selection| ::
      |EligibleAmong(db, rows, |rows|, selection[i].relation)| >= selection[i].quota
    ensures KeepsSmallest(retained, db, selection, rows, digest)
  {
    SortedRises(retained, digest);
    forall s | s in selection
      ensures |KeptFor(retained, s.relation)| == s.quota
      ensures SmallestKept(KeptFor(retained, s.relation), db, rows, s, digest)
    {
      var i :| 0 <= i < |selection| && selection[i] == s;
      forall k: Key
        ensures k in KeptFor(retained, s.relation) <==> k in RetainedAmong(retained, |retained|, s.relation)
      {
        RetainedAmongAre(retained, |retained|, s.relation, k);
        assert retained[..|retained|] == retained;
      }
      assert KeptFor(retained, s.relation) == RetainedAmong(retained, |retained|, s.relation);
      BestIsSmallest(KeptFor(retained, s.relation), db, rows, s, digest);
    }
  }

  /** Ingests, scans, emits and reconciles: the dataset is built exactly when every selected
      relation has its quota of eligible keys; then its 3000 records are those of the
      smallest-ranked ones, and every reconciliation equation holds. */
  method BuildDataset(triples: seq<Edge>, entityLabels: map<nat, string>, relationLabels: map<nat, string>,
                      selection: seq<Selected>,
                      rows: seq<Key>, digest: Key -> nat) returns (r: Built, ghost retained: seq<Key>)
    requires FrozenSelection(selection) && forall s | s in selection :: s.relation in relationLabels
    requires Distinct(rows) && SetOf(rows) == Keys(DatabaseOf(triples, entityLabels, selection))
    ensures !r.Refused?
    ensures r.Built? <==> forall i | 0 <= i < |selection| ::
      |EligibleAmong(DatabaseOf(triples, entityLabels, selection), rows, |rows|,
        selection[i].relation)| >= selection[i].quota
    ensures r.Built? ==> |r.dataset.records| == KEY_COUNT
    ensures r.Built? ==>
      HoldsBest(r.dataset.records, retained, DatabaseOf(triples, entityLabels, selection), relationLabels, selection,
        rows, digest)
    ensures r.Built? ==>
      Reconciles(r.dataset.counts, selection, |DatabaseOf(triples, entityLabels, selection).edges|, |rows|,
        QuotaMap(selection))
    ensures r.Built? ==>
      KeepsSmallest(retained, DatabaseOf(triples, entityLabels, selection), selection, rows, digest)
    ensures r.Built? ==>
      Accounts(r.dataset.counts, triples, DatabaseOf(triples, entityLabels, selection), Relations(selection), rows)
  {
    retained := [];
    var ingested := IngestEdges(triples, Relations(selection));
    var db := Database(ingested.edges, entityLabels);
    forall k | k in rows
      ensures k.relation in Relations(selection)
    {
      assert k in SetOf(rows);
    }
    var scan := ScanCandidates(db, rows, selection, digest);
    EligibleCounted(scan, db, rows, selection, digest);
    var short := FirstShort(scan, selection);
    if short.Some? {
      return TooFew(short.value), [];
    }
    var emission;
    emission, retained := EmitBest(db, selection, rows, digest, scan, relationLabels);
    if emission.None? {
      return Refused, [];
    }
    var counts := MakeCounts(ingested, scan, selection, emission.value);
    assert forall i | 0 <= i < |selection| :: selection[i] in selection;
    CountsReconcile(db, selection, rows, digest, scan, emission.value, relationLabels, retained, ingested, counts);
    if !Reconciles(counts, selection, scan.groupedEdges, |rows|, emission.value.emittedKeys) {
      return Refused, [];
    }
    RetainedAreBest(retained, scan, db, rows, selection, digest, emission.value, relationLabels);
    ReconciledFigures(counts, selection, scan, db, rows, digest, emission.value.emittedKeys);
    HeldAreSmallest(emission.value.records, retained, db, relationLabels, selection, rows, digest);
    MissingAre(db, rows, |rows|);
    r := Built(Dataset(emission.value.records, counts));
  }

  lemma {:induction false} RetainsAll(selection: seq<Selected>, scan: Scan, retained: seq<Key>, digest: Key -> nat)
    requires Sorted(retained, digest) && SetOf(retained) == AllHeaps(selection, |selection|, scan.heaps)
    ensures Retains(retained, scan, selection, digest)
  {
    forall k
      ensures k in retained <==>
        exists i ::
          0 <= i < |selection| && selection[i].relation in scan.heaps && k in scan.heaps[selection[i].relation]
    {
      InAllHeaps(selection, |selection|, scan.heaps, k);
      assert k in retained <==> k in SetOf(retained);
    }
  }
}
