/** What becomes of a path root at each hop, and which end its counterfactual gets, read off the
    selected triples alone (wikidata_paths.py, _write_paths). */
module WikidataOutcomes {
  import opened Wrappers
  import opened WikidataPaths

  /** The one triple of its address. */
  ghost predicate Only(selected: set<Triple>, t: Triple) {
    t in selected && forall u | u in selected && u.subject == t.subject && u.relation == t.relation :: u.obj == t.obj
  }

  ghost function After(order: seq<string>, i: nat): string
    requires i < |order|
  {
    if i + 1 == |order| then order[0] else order[i + 1]
  }

  /** The frozen order, read cyclically, goes on from one relation to the other. */
  ghost predicate GoesOn(order: seq<string>, from: string, to: string) {
    exists i :: 0 <= i < |order| && order[i] == from && to == After(order, i)
  }

  ghost predicate SameAddress(t: Triple, u: Triple) {
    t.subject == u.subject && t.relation == u.relation
  }

  /** Each row is the only one of its address and starts where the row before it ends, the
      relations follow the order, and no address comes twice. */
  ghost predicate SolePath(selected: set<Triple>, order: seq<string>, rows: seq<Triple>) {
    && rows != [] && (forall i | 0 <= i < |rows| :: Only(selected, rows[i]))
    && (forall i | 0 < i < |rows| ::
         rows[i].subject == rows[i - 1].obj && GoesOn(order, rows[i - 1].relation, rows[i].relation))
    && forall i, j | 0 <= i < j < |rows| :: !SameAddress(rows[i], rows[j])
  }

  /** Why the next relation gives no row. */
  ghost predicate NoRow(selected: set<Triple>, rows: seq<Triple>, relation: string, reason: Reason)
    requires rows != []
  {
    var last := rows[|rows| - 1];
    match reason
    case MissingHop => forall t | t in selected :: t.subject != last.obj || t.relation != relation
    case AmbiguousAddress =>
      exists t, u :: t in selected && u in selected && t.subject == u.subject == last.obj
        && t.relation == u.relation == relation && t.obj != u.obj
    case RepeatedAddress =>
      && (exists t :: Only(selected, t) && t.subject == last.obj && t.relation == relation)
      && exists i :: 0 <= i < |rows| && rows[i].subject == last.obj && rows[i].relation == relation
    case _ => false
  }

  /** A path has no next row. */
  ghost predicate Blocked(selected: set<Triple>, order: seq<string>, rows: seq<Triple>, reason: Reason)
    requires rows != []
  {
    exists relation :: GoesOn(order, rows[|rows| - 1].relation, relation) && NoRow(selected, rows, relation, reason)
  }

  /** An object that some unique address of the relation has. */
  ghost predicate Reached(selected: set<Triple>, relation: string, o: nat) {
    exists t :: Only(selected, t) && t.relation == relation && t.obj == o
  }

  /** The relation reaches nothing else. */
  ghost predicate OnlyEnd(selected: set<Triple>, last: Triple) {
    forall o: nat | Reached(selected, last.relation, o) :: o == last.obj
  }

  /** The outcome of a root at a hop: a whole path whose relation reaches something else, a whole
      path whose relation does not, or a shorter one that is blocked. */
  ghost predicate Ends(selected: set<Triple>, order: seq<string>, root: Triple, h: nat, outcome: Outcome) {
    match outcome
    case Survivor =>
      exists rows: seq<Triple> :: PathOf(selected, order, root, h, rows) && !OnlyEnd(selected, rows[h - 1])
    case Excluded(NoAlternative) =>
      exists rows: seq<Triple> :: PathOf(selected, order, root, h, rows)
        && OnlyEnd(selected, rows[h - 1])
    case Excluded(reason) =>
      exists rows: seq<Triple>, n: nat ::
        n < h && PathOf(selected, order, root, n, rows) && Blocked(selected, order, rows, reason)
  }

  ghost predicate PathOf(selected: set<Triple>, order: seq<string>, root: Triple, n: nat, rows: seq<Triple>) {
    n > 0 && SolePath(selected, order, rows) && rows[0] == root && |rows| == n
  }

  /** The other end: the next larger object that the relation reaches, or the least one of all
      when the original end is the largest. */
  ghost predicate NextReached(selected: set<Triple>, last: Triple, other: nat) {
    && Reached(selected, last.relation, other) && other != last.obj
    && if other > last.obj then forall o: nat | Reached(selected, last.relation, o) && o > last.obj :: other <= o
       else forall o: nat | Reached(selected, last.relation, o) :: other <= o <= last.obj
  }

  // ----- the tables say the same -----

  lemma {:induction false} ObjectAt(selected: set<Triple>, a: Key, o: nat)
    ensures o in ObjectsAt(selected, a) <==> Triple(a.subject, a.relation, o) in selected
  {
    if o in ObjectsAt(selected, a) {
      var t :| t in selected && t.subject == a.subject && t.relation == a.relation && t.obj == o;
      assert t == Triple(a.subject, a.relation, o);
    }
  }

  lemma {:induction false} OnlyObject(selected: set<Triple>, t: Triple)
    ensures Only(selected, t) <==> ObjectsAt(selected, KeyOf(t)) == {t.obj}
  {
    ObjectAt(selected, KeyOf(t), t.obj);
    if ObjectsAt(selected, KeyOf(t)) == {t.obj} {
      forall u | u in selected && u.subject == t.subject && u.relation == t.relation
        ensures u.obj == t.obj
      {
        assert u.obj in ObjectsAt(selected, KeyOf(t));
      }
    }
  }

  lemma {:induction false} UniqueIsOnly(tables: Tables, selected: set<Triple>, t: Triple)
    requires Finalized(tables, selected)
    ensures KeyOf(t) in tables.unique && tables.unique[KeyOf(t)] == t.obj <==> Only(selected, t)
  {
    var a := KeyOf(t);
    OnlyObject(selected, t);
    if a in tables.unique && tables.unique[a] == t.obj {
      assert Sole(tables.stats[a]) == t.obj;
    }
  }

  lemma {:induction false} RangeIsReached(tables: Tables, selected: set<Triple>, relation: string, o: nat)
    requires Finalized(tables, selected)
    ensures o in RangeOf(tables, relation) <==> Reached(selected, relation, o)
  {
    if o in RangeOf(tables, relation) {
      var d :| d in tables.domain && d.relation == relation && d.obj == o;
      assert Entry(relation, o) in tables.domain;
      var a :| a in tables.unique && a.relation == relation && tables.unique[a] == o;
      UniqueIsOnly(tables, selected, Triple(a.subject, relation, o));
    }
    if Reached(selected, relation, o) {
      var t :| Only(selected, t) && t.relation == relation && t.obj == o;
      UniqueIsOnly(tables, selected, t);
      assert Entry(relation, o) in tables.domain;
    }
  }

  lemma {:induction false} RangeOfLast(tables: Tables, selected: set<Triple>, last: Triple)
    requires Finalized(tables, selected)
    ensures RangeOf(tables, last.relation) <= {last.obj} <==> OnlyEnd(selected, last)
    ensures forall other: nat | IsSuccessor(RangeOf(tables, last.relation), last.obj, other) ::
      NextReached(selected, last, other)
  {
    forall o: nat
      ensures o in RangeOf(tables, last.relation) <==> Reached(selected, last.relation, o)
    {
      RangeIsReached(tables, selected, last.relation, o);
    }
  }

  lemma {:induction false} FoundMeans(tables: Tables, selected: set<Triple>, from: nat, relation: string)
    requires Finalized(tables, selected) && LookupNext(tables, from, relation).Found?
    ensures var t := LookupNext(tables, from, relation).row;
      Only(selected, t) && t.subject == from && t.relation == relation
  {
    FoundIsUnique(tables, selected, from, relation);
    UniqueIsOnly(tables, selected, LookupNext(tables, from, relation).row);
  }

  lemma {:induction false} FailedMeans(tables: Tables, selected: set<Triple>, from: nat, relation: string)
    requires Finalized(tables, selected) && LookupNext(tables, from, relation).Failed?
    ensures match LookupNext(tables, from, relation).reason
      case MissingHop => forall t | t in selected :: t.subject != from || t.relation != relation
      case AmbiguousAddress =>
        exists t, u :: t in selected && u in selected && t.subject == u.subject == from
          && t.relation == u.relation == relation && t.obj != u.obj
      case _ => false
  {
    var a := Key(from, relation);
    if a in tables.stats {
      var objects := ObjectsAt(selected, a);
      var x :| x in objects;
      var y := Another(objects, x);
      ObjectAt(selected, a, x);
      ObjectAt(selected, a, y);
      assert Triple(from, relation, x).obj != Triple(from, relation, y).obj;
    } else {
      forall t | t in selected
        ensures t.subject != from || t.relation != relation
      {
        ObjectAt(selected, a, t.obj);
      }
    }
  }

  lemma {:induction false} Another(s: set<nat>, x: nat) returns (y: nat)
    requires x in s && |s| != 1
    ensures y in s && y != x
  {
    assert |s - {x}| == |s| - 1;
    assert s - {x} != {};
    y :| y in s - {x};
  }

  lemma {:induction false} RelationGoesOn(order: seq<string>, first: string, h: nat, next: nat)
    requires first in order && h >= 1 && next == h + 1
    ensures GoesOn(order, RelationAt(order, first, h), RelationAt(order, first, next))
  {
    var n, k := |order|, IndexIn(order, first) + h - 1;
    OneFurther(k, n, k + 1);
    var i := k % n;
    assert order[i] == RelationAt(order, first, h);
    assert RelationAt(order, first, next) == After(order, i);
  }

  lemma {:induction false} OneFurther(k: nat, n: nat, next: nat)
    requires n > 0 && next == k + 1
    ensures next % n == if k % n + 1 == n then 0 else k % n + 1
  {
    var q, r := k / n, k % n;
    assert k == q * n + r;
    if r + 1 == n {
      assert next == (q + 1) * n + 0;
      RemainderIs(next, n, q + 1, 0);
    } else {
      RemainderIs(next, n, q, r + 1);
    }
  }

  lemma {:induction false} RemainderIs(a: nat, n: nat, q: int, r: nat)
    requires n > 0 && r < n && a == q * n + r
    ensures a % n == r
  {
    var p := a / n;
    assert a == p * n + a % n;
    AtLeastOnce(p, q, n);
    AtLeastOnce(q, p, n);
  }

  lemma {:induction false} TimesAtLeast(m: nat, k: int, n: int)
    requires k <= n
    ensures m * k <= m * n
    decreases n - k
  {
    if k < n {
      TimesAtLeast(m, k, n - 1);
      assert m * n == m * (n - 1) + m;
    }
  }

  lemma {:induction false} AtLeastOnce(a: int, b: int, n: nat)
    ensures a < b ==> a * n + n <= b * n
  {
    if a < b {
      TimesAtLeast(n, a + 1, b);
      assert n * (a + 1) == a * n + n && n * b == b * n;
    }
  }

  // ----- the walk -----

  /** What a walk has come to after h hops. */
  ghost predicate Standing(selected: set<Triple>, order: seq<string>, root: Triple, h: nat, walk: Walk) {
    match walk
    case Going(rows) => PathOf(selected, order, root, h, rows)
    case Stopped(reason) =>
      exists rows: seq<Triple>, n: nat ::
        n < h && PathOf(selected, order, root, n, rows) && Blocked(selected, order, rows, reason)
  }

  lemma {:induction false} PathGrows(selected: set<Triple>, order: seq<string>, root: Triple, h: nat, rows: seq<Triple>,
                                     row: Triple)
    requires PathOf(selected, order, root, h, rows) && Only(selected, row) && row.subject == rows[h - 1].obj
    requires GoesOn(order, rows[h - 1].relation, row.relation)
    requires forall i | 0 <= i < |rows| :: !SameAddress(rows[i], row)
    ensures PathOf(selected, order, root, h + 1, rows + [row])
  {
    var more := rows + [row];
    forall i | 0 < i < |more|
      ensures more[i].subject == more[i - 1].obj && GoesOn(order, more[i - 1].relation, more[i].relation)
    {
      assert more[i - 1] == rows[i - 1];
    }
    forall i, j | 0 <= i < j < |more|
      ensures !SameAddress(more[i], more[j])
    {
      assert more[i] == rows[i];
    }
  }

  /** A going walk has the relation whose turn it is, and any walk stands where the triples say. */
  ghost predicate OnTrack(source: Source, selected: set<Triple>, root: Triple, h: nat)
    requires root.relation in source.order && h >= 1
  {
    && Standing(selected, source.order, root, h, WalkTo(source, root, h))
    && (WalkTo(source, root, h).Going? ==>
         WalkTo(source, root, h).rows[h - 1].relation == RelationAt(source.order, root.relation, h))
  }

  lemma {:induction false} WalkBegins(source: Source, selected: set<Triple>, root: Triple)
    requires Finalized(source.tables, selected) && IsRoot(source, root) && DistinctOrder(source.order)
    ensures OnTrack(source, selected, root, 1)
  {
    UniqueIsOnly(source.tables, selected, root);
    FirstRelation(source.order, root.relation);
    assert PathOf(selected, source.order, root, 1, [root]);
  }

  lemma {:induction false} WalkStands(source: Source, selected: set<Triple>, root: Triple, h: nat)
    requires Finalized(source.tables, selected) && IsRoot(source, root) && h >= 1 && DistinctOrder(source.order)
    ensures OnTrack(source, selected, root, h)
  {
    if h == 1 {
      WalkBegins(source, selected, root);
    } else {
      WalkStands(source, selected, root, h - 1);
      WalkGoesOn(source, selected, root, h - 1, h);
    }
  }

  lemma {:induction false} WalkGoesOn(source: Source, selected: set<Triple>, root: Triple, h: nat, next: nat)
    requires Finalized(source.tables, selected) && IsRoot(source, root) && h >= 1 && next == h + 1
    requires OnTrack(source, selected, root, h)
    ensures OnTrack(source, selected, root, next)
  {
    if WalkTo(source, root, h).Going? {
      StillGoing(source, selected, root, h, next);
    } else {
      StillStopped(selected, source.order, root, h, next, WalkTo(source, root, h));
    }
  }

  lemma {:induction false} StillStopped(selected: set<Triple>, order: seq<string>, root: Triple, h: nat, next: nat,
                                        walk: Walk)
    requires Standing(selected, order, root, h, walk) && walk.Stopped? && h <= next
    ensures Standing(selected, order, root, next, walk)
  {
    var rows: seq<Triple>, n: nat :| n < h && PathOf(selected, order, root, n, rows)
      && Blocked(selected, order, rows, walk.reason);
    assert n < next;
  }

  lemma {:induction false} StillGoing(source: Source, selected: set<Triple>, root: Triple, h: nat, next: nat)
    requires Finalized(source.tables, selected) && IsRoot(source, root) && h >= 1 && next == h + 1
    requires OnTrack(source, selected, root, h) && WalkTo(source, root, h).Going?
    ensures OnTrack(source, selected, root, next)
  {
    var rows, relation := WalkTo(source, root, h).rows, RelationAt(source.order, root.relation, next);
    RelationGoesOn(source.order, root.relation, h, next);
    assert WalkTo(source, root, next) == Continued(source.tables, rows, relation);
    Continues(source.tables, selected, source.order, root, h, rows, relation);
  }

  /** A walk's next hop. */
  ghost function Continued(tables: Tables, rows: seq<Triple>, relation: string): Walk
    requires rows != []
  {
    match LookupNext(tables, rows[|rows| - 1].obj, relation)
    case Failed(reason) => Stopped(reason)
    case Found(row) =>
      if exists i :: 0 <= i < |rows| && KeyOf(rows[i]) == KeyOf(row) then Stopped(RepeatedAddress)
      else Going(rows + [row])
  }

  lemma {:induction false} Continues(tables: Tables, selected: set<Triple>, order: seq<string>, root: Triple, h: nat,
                                     rows: seq<Triple>, relation: string)
    requires Finalized(tables, selected) && PathOf(selected, order, root, h, rows)
    requires GoesOn(order, rows[h - 1].relation, relation)
    ensures Standing(selected, order, root, h + 1, Continued(tables, rows, relation))
    ensures Continued(tables, rows, relation).Going? ==> Continued(tables, rows, relation).rows[h].relation == relation
  {
    var found := LookupNext(tables, rows[h - 1].obj, relation);
    if found.Failed? {
      FailedMeans(tables, selected, rows[h - 1].obj, relation);
      NoNextRow(selected, order, root, h, rows, relation, found.reason);
    } else {
      FoundMeans(tables, selected, rows[h - 1].obj, relation);
      if exists i :: 0 <= i < |rows| && KeyOf(rows[i]) == KeyOf(found.row) {
        NoNextRow(selected, order, root, h, rows, relation, RepeatedAddress);
      } else {
        NextRow(selected, order, root, h, rows, found.row);
      }
    }
  }

  lemma {:induction false} NextRow(selected: set<Triple>, order: seq<string>, root: Triple, h: nat, rows: seq<Triple>,
                                   row: Triple)
    requires PathOf(selected, order, root, h, rows) && Only(selected, row) && row.subject == rows[h - 1].obj
    requires GoesOn(order, rows[h - 1].relation, row.relation)
    requires forall i | 0 <= i < |rows| :: KeyOf(rows[i]) != KeyOf(row)
    ensures PathOf(selected, order, root, h + 1, rows + [row])
  {
    PathGrows(selected, order, root, h, rows, row);
  }

  lemma {:induction false} NoNextRow(selected: set<Triple>, order: seq<string>, root: Triple, h: nat, rows: seq<Triple>,
                                     relation: string, reason: Reason)
    requires PathOf(selected, order, root, h, rows) && GoesOn(order, rows[h - 1].relation, relation)
    requires NoRow(selected, rows, relation, reason)
    ensures Standing(selected, order, root, h + 1, Stopped(reason))
  {
    assert Blocked(selected, order, rows, reason);
  }

  /** Each root has at each hop the outcome that the loop gives it ... */
  lemma {:induction false} OutcomeEnds(source: Source, selected: set<Triple>, root: Triple, h: nat)
    requires Finalized(source.tables, selected) && IsRoot(source, root) && h >= 1 && DistinctOrder(source.order)
    ensures Ends(selected, source.order, root, h, OutcomeAt(source, root, h))
  {
    WalkStands(source, selected, root, h);
    match WalkTo(source, root, h)
    case Stopped(reason) =>
    case Going(rows) =>
      RangeOfLast(source.tables, selected, rows[h - 1]);
  }

  // ----- and no other -----

  lemma {:induction false} OneNext(order: seq<string>, from: string, a: string, b: string)
    requires DistinctOrder(order) && GoesOn(order, from, a) && GoesOn(order, from, b)
    ensures a == b
  {
    var i :| 0 <= i < |order| && order[i] == from && a == After(order, i);
    var j :| 0 <= j < |order| && order[j] == from && b == After(order, j);
    assert i == j;
  }

  /** Two paths of a root agree as far as both go. */
  lemma {:induction false} OnePath(selected: set<Triple>, order: seq<string>, root: Triple, m: nat, p: seq<Triple>,
                                   n: nat, q: seq<Triple>, k: nat)
    requires DistinctOrder(order) && PathOf(selected, order, root, m, p) && PathOf(selected, order, root, n, q)
    requires k < m && k < n
    ensures p[k] == q[k]
  {
    if k > 0 {
      OnePath(selected, order, root, m, p, n, q, k - 1);
      OneNext(order, p[k - 1].relation, p[k].relation, q[k].relation);
      assert Only(selected, p[k]) && Only(selected, q[k]);
    }
  }

  lemma {:induction false} SamePath(selected: set<Triple>, order: seq<string>, root: Triple, n: nat, p: seq<Triple>,
                                    q: seq<Triple>)
    requires DistinctOrder(order) && PathOf(selected, order, root, n, p) && PathOf(selected, order, root, n, q)
    ensures p == q
  {
    forall k | 0 <= k < n
      ensures p[k] == q[k]
    {
      OnePath(selected, order, root, n, p, n, q, k);
    }
  }

  /** A blocked path is not part of a longer one. */
  lemma {:induction false} BlockedEnds(selected: set<Triple>, order: seq<string>, root: Triple, m: nat, p: seq<Triple>,
                                       reason: Reason, n: nat, q: seq<Triple>)
    requires DistinctOrder(order) && PathOf(selected, order, root, m, p) && PathOf(selected, order, root, n, q)
    requires Blocked(selected, order, p, reason)
    ensures n <= m
  {
    if n > m {
      forall k | 0 <= k < m
        ensures p[k] == q[k]
      {
        OnePath(selected, order, root, m, p, n, q, k);
      }
      NextIsOpen(selected, order, p, q[..m + 1], reason);
    }
  }

  lemma {:induction false} NextIsOpen(selected: set<Triple>, order: seq<string>, p: seq<Triple>, q: seq<Triple>,
                                      reason: Reason)
    requires DistinctOrder(order) && p != [] && |q| == |p| + 1 && q[..|p|] == p
    requires SolePath(selected, order, q)
    ensures !Blocked(selected, order, p, reason)
  {
    var last, next := p[|p| - 1], q[|p|];
    assert q[|p| - 1] == last && next.subject == last.obj && Only(selected, next);
    forall relation | GoesOn(order, last.relation, relation)
      ensures relation == next.relation
    {
      OneNext(order, last.relation, relation, next.relation);
    }
    forall i | 0 <= i < |p|
      ensures p[i].subject != last.obj || p[i].relation != next.relation
    {
      assert q[i] == p[i] && !SameAddress(q[i], q[|p|]);
    }
  }

  lemma {:induction false} OneReason(selected: set<Triple>, order: seq<string>, p: seq<Triple>, a: Reason, b: Reason)
    requires DistinctOrder(order) && p != [] && Blocked(selected, order, p, a) && Blocked(selected, order, p, b)
    ensures a == b
  {
    var last := p[|p| - 1];
    forall r, s | GoesOn(order, last.relation, r) && GoesOn(order, last.relation, s)
      ensures r == s
    {
      OneNext(order, last.relation, r, s);
    }
  }

  /** ... and no other. */
  lemma {:induction false} OneOutcome(selected: set<Triple>, order: seq<string>, root: Triple, h: nat, a: Outcome,
                                      b: Outcome)
    requires DistinctOrder(order) && Ends(selected, order, root, h, a) && Ends(selected, order, root, h, b)
    ensures a == b
  {
    var p, m := PathFor(selected, order, root, h, a);
    var q, n := PathFor(selected, order, root, h, b);
    if m < n {
      BlockedEnds(selected, order, root, m, p, a.reason, n, q);
    } else if n < m {
      BlockedEnds(selected, order, root, n, q, b.reason, m, p);
    } else {
      SamePath(selected, order, root, n, p, q);
      if n < h {
        OneReason(selected, order, p, a.reason, b.reason);
      }
    }
  }

  /** The path an outcome speaks of. */
  lemma {:induction false} PathFor(selected: set<Triple>, order: seq<string>, root: Triple, h: nat, outcome: Outcome)
    returns (rows: seq<Triple>, n: nat)
    requires Ends(selected, order, root, h, outcome)
    ensures n <= h && PathOf(selected, order, root, n, rows)
    ensures n < h ==> outcome.Excluded? && Blocked(selected, order, rows, outcome.reason)
    ensures n == h ==>
      outcome == if OnlyEnd(selected, rows[h - 1]) then Excluded(NoAlternative) else Survivor
  {
    if outcome == Survivor {
      n := h;
      rows :| PathOf(selected, order, root, h, rows) && !OnlyEnd(selected, rows[h - 1]);
    } else if outcome == Excluded(NoAlternative) {
      n := h;
      rows :| PathOf(selected, order, root, h, rows) && OnlyEnd(selected, rows[h - 1]);
    } else {
      rows, n :| n < h && PathOf(selected, order, root, n, rows) && Blocked(selected, order, rows, outcome.reason);
    }
  }
}
