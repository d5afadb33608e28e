/** The address tables, the lookups on them, and the six-hop walk of one root
    (wikidata_paths.py, _finalize_addresses to _alternative_target, and _write_paths). */
module WikidataPaths {
  import opened Wrappers
  import opened GraphRows

  const MAX_HOPS := 6

  datatype Triple = Triple(subject: nat, relation: string, obj: nat)

  datatype Key = Key(subject: nat, relation: string)

  datatype Entry = Entry(relation: string, obj: nat)

  function ObjectsAt(selected: set<Triple>, a: Key): set<nat> {
    set t | t in selected && t.subject == a.subject && t.relation == a.relation :: t.obj
  }

  /** address_stats, unique_addresses, ambiguous_addresses and relation_domain. */
  datatype Tables = Tables(stats: map<Key, set<nat>>, unique: map<Key, nat>, ambiguous: set<Key>, domain: set<Entry>)

  /** The objects that unique addresses of a relation reach. */
  function RangeOf(tables: Tables, relation: string): set<nat> {
    set d | d in tables.domain && d.relation == relation :: d.obj
  }

  ghost predicate Finalized(tables: Tables, selected: set<Triple>) {
    && (forall a :: a in tables.stats <==> ObjectsAt(selected, a) != {})
    && (forall a | a in tables.stats :: tables.stats[a] == ObjectsAt(selected, a))
    && (forall a :: a in tables.unique <==> a in tables.stats && |tables.stats[a]| == 1)
    && (forall a | a in tables.unique :: tables.unique[a] in tables.stats[a])
    && (forall a :: a in tables.ambiguous <==> a in tables.stats && |tables.stats[a]| > 1)
    && forall r, o ::
         Entry(r, o) in tables.domain <==> exists a :: a in tables.unique && a.relation == r && tables.unique[a] == o
  }

  lemma SoleElement(s: set<nat>, x: nat, y: nat)
    requires |s| == 1 && x in s && y in s
    ensures x == y
  {
    assert {x, y} <= s;
    assert |s - {x, y}| == |s| - |{x, y}|;
  }

  function Sole(s: set<nat>): (x: nat)
    requires |s| == 1
    ensures s == {x}
  {
    var x: nat :| x in s;
    assert s == {x} by {
      forall y | y in s ensures y == x {
        SoleElement(s, x, y);
      }
    }
    x
  }

  method FinalizeAddresses(selected: set<Triple>) returns (tables: Tables)
    ensures Finalized(tables, selected)
  {
    var addresses := set t | t in selected :: Key(t.subject, t.relation);
    var stats: map<Key, set<nat>> := map a | a in addresses :: ObjectsAt(selected, a);
    forall a
      ensures a in stats <==> ObjectsAt(selected, a) != {}
    {
      if a in stats {
        var t :| t in selected && Key(t.subject, t.relation) == a;
        assert t.obj in ObjectsAt(selected, a);
      }
      if ObjectsAt(selected, a) != {} {
        var o :| o in ObjectsAt(selected, a);
        var t :| t in selected && t.subject == a.subject && t.relation == a.relation && t.obj == o;
        assert Key(t.subject, t.relation) == a;
      }
    }
    var ambiguous := set a | a in stats && |stats[a]| > 1;
    var unique: map<Key, nat> := map a | a in stats && |stats[a]| == 1 :: Sole(stats[a]);
    var domain := set a | a in unique :: Entry(a.relation, unique[a]);
    tables := Tables(stats, unique, ambiguous, domain);
  }

  lemma SelectedAddress(selected: set<Triple>, a: Key)
    requires ObjectsAt(selected, a) != {}
    ensures exists t :: t in selected && Key(t.subject, t.relation) == a
  {
    var o :| o in ObjectsAt(selected, a);
    var t :| t in selected && t.subject == a.subject && t.relation == a.relation && t.obj == o;
    assert Key(t.subject, t.relation) == a;
  }

  lemma StatsSplit(stats: map<Key, set<nat>>, unique: set<Key>, ambiguous: set<Key>)
    requires forall a | a in stats :: stats[a] != {}
    requires forall a :: a in unique <==> a in stats && |stats[a]| == 1
    requires forall a :: a in ambiguous <==> a in stats && |stats[a]| > 1
    ensures |stats.Keys| == |unique| + |ambiguous|
  {
    assert unique !! ambiguous && stats.Keys == unique + ambiguous;
  }

  lemma SourceSplit(source: set<Key>, selected: set<Triple>, relations: set<string>, keys: set<Key>)
    requires forall a :: a in keys <==> ObjectsAt(selected, a) != {}
    requires forall a | a in source && a.relation in relations :: ObjectsAt(selected, a) != {}
    requires forall t | t in selected :: Key(t.subject, t.relation) in source && t.relation in relations
    ensures |source| == |keys| + |set a | a in source && a.relation !in relations|
  {
    var unselected := set a | a in source && a.relation !in relations;
    forall a | a in keys
      ensures a in source && a.relation in relations
    {
      SelectedAddress(selected, a);
    }
    assert keys !! unselected && source == keys + unselected;
  }

  /** Every source address is of an unselected relation, ambiguous or unique, and only one of them. */
  lemma AddressesBalance(source: set<Key>, selected: set<Triple>, relations: set<string>, tables: Tables)
    requires Finalized(tables, selected)
    requires forall a | a in source && a.relation in relations :: ObjectsAt(selected, a) != {}
    requires forall t | t in selected :: Key(t.subject, t.relation) in source && t.relation in relations
    ensures |source| == |tables.unique| + |tables.ambiguous| + |set a | a in source && a.relation !in relations|
  {
    SourceSplit(source, selected, relations, tables.stats.Keys);
    StatsSplit(tables.stats, tables.unique.Keys, tables.ambiguous);
  }

  // ----- lookups -----

  datatype Reason = UnselectedRelation | AmbiguousAddress | MissingHop | RepeatedAddress | NoAlternative
    | SelectionBound

  datatype Lookup = Failed(reason: Reason) | Found(row: Triple)

  function LookupNext(tables: Tables, source: nat, relation: string): Lookup {
    if Key(source, relation) !in tables.stats then Failed(MissingHop)
    else if |tables.stats[Key(source, relation)]| != 1 then Failed(AmbiguousAddress)
    else Found(Triple(source, relation, Sole(tables.stats[Key(source, relation)])))
  }

  /** The next larger element of the range, or the least one when there is none. */
  ghost predicate IsSuccessor(range: set<nat>, target: nat, alternative: nat) {
    && alternative in range && alternative != target
    && if alternative > target then forall o | o in range && o > target :: alternative <= o
       else forall o | o in range :: o <= target && alternative <= o
  }

  method Least(s: set<nat>) returns (least: Option<nat>)
    ensures least.None? <==> s == {}
    ensures least.Some? ==> least.value in s && forall o | o in s :: least.value <= o
  {
    least := None;
    var left := s;
    while left != {}
      invariant left <= s && (least.None? <==> left == s)
      invariant least.Some? ==> least.value in s && forall o | o in s && o !in left :: least.value <= o
    {
      var o: nat :| o in left;
      left := left - {o};
      if least.None? || o < least.value {
        least := Some(o);
      }
    }
  }

  /** The cyclic successor of the target in the relation's range; none exactly when nothing
      but the target is there. */
  method AlternativeTarget(tables: Tables, relation: string, target: nat) returns (alternative: Option<nat>)
    ensures alternative.None? <==> RangeOf(tables, relation) <= {target}
    ensures alternative.Some? ==> IsSuccessor(RangeOf(tables, relation), target, alternative.value)
  {
    var range := RangeOf(tables, relation);
    var above := set o | o in range && o > target;
    var below := set o | o in range && o < target;
    assert forall o | o in range :: o in above || o in below || o == target;
    alternative := Least(above);
    if alternative.None? {
      alternative := Least(below);
    }
  }

  /** No two targets of a range share an alternative, and each target has at most one. */
  lemma SuccessorsDiffer(range: set<nat>, s: nat, t: nat, a: nat, b: nat)
    requires s in range && t in range && IsSuccessor(range, s, a) && IsSuccessor(range, t, b)
    ensures a == b <==> s == t
  {
  }

  // ----- the walk of one root -----

  datatype Source = Source(tables: Tables, order: seq<string>)

  datatype Walk = Going(rows: seq<Triple>) | Stopped(reason: Reason)

  ghost predicate DistinctOrder(order: seq<string>) {
    forall i, j {:trigger order[i], order[j]} | 0 <= i < j < |order| :: order[i] != order[j]
  }

  ghost function IndexIn(order: seq<string>, relation: string): (i: nat)
    requires relation in order
    ensures i < |order| && order[i] == relation
  {
    var i: nat :| i < |order| && order[i] == relation;
    i
  }

  /** The relation of a path's h-th row: the frozen order, cyclically from the root's. */
  ghost function RelationAt(order: seq<string>, first: string, h: nat): string
    requires first in order && h >= 1
  {
    order[(IndexIn(order, first) + h - 1) % |order|]
  }

  function KeyOf(t: Triple): Key { Key(t.subject, t.relation) }

  /** The rows after h hops, or why there are none. */
  ghost function WalkTo(source: Source, root: Triple, h: nat): Walk
    requires root.relation in source.order && h >= 1
    ensures WalkTo(source, root, h).Going? ==> |WalkTo(source, root, h).rows| == h
  {
    if h == 1 then Going([root])
    else
      match WalkTo(source, root, h - 1)
      case Stopped(reason) => Stopped(reason)
      case Going(rows) =>
        match LookupNext(source.tables, rows[h - 2].obj, RelationAt(source.order, root.relation, h))
        case Failed(reason) => Stopped(reason)
        case Found(row) =>
          if exists i ::
            0 <= i < |rows| && KeyOf(rows[i]) == KeyOf(row) then Stopped(RepeatedAddress) else Going(rows + [row])
  }

  /** A path from a unique address: contiguous, on unique addresses, none twice, the relations
      in cyclic order. */
  ghost predicate PathShape(source: Source, rows: seq<Triple>) {
    && 1 <= |rows| <= MAX_HOPS && rows[0].relation in source.order
    && (forall i | 0 <= i < |rows| ::
         KeyOf(rows[i]) in source.tables.unique && rows[i].obj == source.tables.unique[KeyOf(rows[i])])
    && (forall i | 0 < i < |rows| :: rows[i].subject == rows[i - 1].obj)
    && (forall i | 0 <= i < |rows| :: rows[i].relation == RelationAt(source.order, rows[0].relation, i + 1))
    && forall i, j {:trigger rows[i], rows[j]} | 0 <= i < j < |rows| :: KeyOf(rows[i]) != KeyOf(rows[j])
  }

  ghost predicate IsRoot(source: Source, root: Triple) {
    KeyOf(root) in source.tables.unique && root.obj == source.tables.unique[KeyOf(root)]
      && root.relation in source.order
  }

  lemma FoundIsUnique(tables: Tables, selected: set<Triple>, from: nat, relation: string)
    requires Finalized(tables, selected) && LookupNext(tables, from, relation).Found?
    ensures var row := LookupNext(tables, from, relation).row;
            row.subject == from && row.relation == relation && KeyOf(row) in tables.unique
              && row.obj == tables.unique[KeyOf(row)]
  {
  }

  lemma LongerPath(source: Source, rows: seq<Triple>, row: Triple)
    requires PathShape(source, rows) && |rows| < MAX_HOPS
    requires KeyOf(row) in source.tables.unique && row.obj == source.tables.unique[KeyOf(row)]
    requires row.subject == rows[|rows| - 1].obj && row.relation
      == RelationAt(source.order, rows[0].relation, |rows| + 1)
    requires forall i | 0 <= i < |rows| :: KeyOf(rows[i]) != KeyOf(row)
    ensures PathShape(source, rows + [row])
  {
  }

  lemma FirstRelation(order: seq<string>, relation: string)
    requires relation in order && DistinctOrder(order)
    ensures RelationAt(order, relation, 1) == relation
  {
  }

  lemma {:induction false} WalksHaveShape(source: Source, selected: set<Triple>, root: Triple, h: nat)
    requires Finalized(source.tables, selected) && IsRoot(source, root) && 1 <= h <= MAX_HOPS
      && DistinctOrder(source.order)
    requires WalkTo(source, root, h).Going?
    ensures PathShape(source, WalkTo(source, root, h).rows) && WalkTo(source, root, h).rows[0] == root
  {
    if h == 1 {
      FirstRelation(source.order, root.relation);
    } else {
      WalksHaveShape(source, selected, root, h - 1);
      var rows := WalkTo(source, root, h - 1).rows;
      var relation := RelationAt(source.order, root.relation, h);
      FoundIsUnique(source.tables, selected, rows[h - 2].obj, relation);
      LongerPath(source, rows, LookupNext(source.tables, rows[h - 2].obj, relation).row);
    }
  }

  /** A stopped walk stays stopped, for the same reason. */
  lemma {:induction false} StaysStopped(source: Source, root: Triple, h: nat, k: nat)
    requires root.relation in source.order && 1 <= h <= k && WalkTo(source, root, h).Stopped?
    ensures WalkTo(source, root, k) == WalkTo(source, root, h)
  {
    if h < k {
      StaysStopped(source, root, h, k - 1);
    }
  }

  // ----- outcomes -----

  datatype Outcome = Survivor | Excluded(reason: Reason)

  /** What a root contributes at hop h. */
  ghost function OutcomeAt(source: Source, root: Triple, h: nat): Outcome
    requires root.relation in source.order && h >= 1
  {
    match WalkTo(source, root, h)
    case Stopped(reason) => Excluded(reason)
    case Going(rows) =>
      if RangeOf(source.tables, rows[h - 1].relation) <= {rows[h - 1].obj} then Excluded(NoAlternative) else Survivor
  }
}
