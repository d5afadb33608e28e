/** The independent checks of emitted path twins: row replay before they are written, and a
    store-plus-overlay audit of what was written (wikidata_path_replay.py). */
module PathReplay {
  import opened Wrappers
  import opened GraphRows

  const TRAVERSAL := "endpoint_traversal"
  const EQUALITY := "endpoint_equality"

  datatype Meta = Meta(pairId: string, variant: string, task: string, rootSlot: nat,
                       addresses: seq<Address>, factIds: seq<FactId>, changed: Option<GraphRow>, changedRows: nat,
                       oracle: string, originalEnd: string, counterfactualEnd: string, comparison: Option<string>)

  datatype Item = Item(task: string, prompt: string, answer: string, meta: Meta)

  // ----- replaying rows -----

  ghost predicate Plain(row: GraphRow) {
    row.outgoing && row.kind == Entity && row.qualifiers == []
  }

  /** Each row starts where the one before it ends, and each end is a canonical entity number. */
  ghost predicate IsChain(rows: seq<GraphRow>) {
    && rows != []
    && (forall i | 0 <= i < |rows| :: Plain(rows[i]) && Number(rows[i].target).Some?)
    && forall i | 0 < i < |rows| :: Number(rows[i - 1].target) == Some(rows[i].source)
  }

  function EndOf(rows: seq<GraphRow>): Option<nat>
    requires rows != []
  {
    Number(rows[|rows| - 1].target)
  }

  method Replay(rows: seq<GraphRow>) returns (end: Option<nat>)
    ensures end.Some? <==> IsChain(rows)
    ensures end.Some? ==> end == EndOf(rows)
  {
    if rows == [] {
      return None;
    }
    var endpoint := rows[0].source;
    for i := 0 to |rows|
      invariant forall k | 0 <= k < i :: Plain(rows[k]) && Number(rows[k].target).Some?
      invariant forall k | 0 < k < i :: Number(rows[k - 1].target) == Some(rows[k].source)
      invariant if i == 0 then endpoint == rows[0].source else Number(rows[i - 1].target) == Some(endpoint)
    {
      if rows[i].source != endpoint || !rows[i].outgoing || rows[i].kind != Entity || rows[i].qualifiers != [] {
        return None;
      }
      var next := Number(rows[i].target);
      if next.None? {
        return None;
      }
      endpoint := next.value;
    }
    end := Some(endpoint);
  }

  /** The item declares the addresses and facts of these rows in order, and this overlay. */
  ghost predicate DeclaresRows(item: Item, rows: seq<GraphRow>, changed: Option<GraphRow>, factId: GraphRow -> FactId) {
    && |item.meta.addresses| == |item.meta.factIds| == |rows|
    && (forall i | 0 <= i < |rows| :: item.meta.addresses[i] == rows[i].Addr())
    && (forall i | 0 <= i < |rows| :: item.meta.factIds[i] == factId(rows[i]))
    && item.meta.changed == changed
    && item.meta.changedRows == if changed.Some? then 1 else 0
  }

  /** _assert_item_rows. */
  method CheckItemRows(item: Item, rows: seq<GraphRow>, changed: Option<GraphRow>, factId: GraphRow -> FactId)
    returns (ok: bool)
    ensures ok <==> DeclaresRows(item, rows, changed, factId)
  {
    var facts := seq(|rows|, i requires 0 <= i < |rows| => factId(rows[i]));
    ok := item.meta.addresses == Addresses(rows) && item.meta.factIds == facts && item.meta.changed == changed
          && item.meta.changedRows == (if changed.Some? then 1 else 0);
  }

  function Addresses(rows: seq<GraphRow>): seq<Address> {
    seq(|rows|, i requires 0 <= i < |rows| => rows[i].Addr())
  }

  ghost predicate NoRepeats<T>(s: seq<T>) {
    forall i, j {:trigger s[i], s[j]} | 0 <= i < j < |s| :: s[i] != s[j]
  }

  /** A list repeats nothing exactly when it has as many members as places. */
  lemma {:induction false} RepeatsShrink(s: seq<Address>)
    ensures |set a | a in s| <= |s|
    ensures |set a | a in s| == |s| <==> NoRepeats(s)
    decreases |s|
  {
    var members := set a | a in s;
    if s == [] {
      assert members == {};
    } else {
      var front, last := s[..|s| - 1], s[|s| - 1];
      RepeatsShrink(front);
      assert s == front + [last];
      if last in front {
        assert members == set a | a in front;
        var i :| 0 <= i < |front| && front[i] == last;
        assert s[i] == s[|s| - 1];
      } else {
        assert members == (set a | a in front) + {last};
        assert NoRepeats(s) ==> forall i, j | 0 <= i < j < |front| :: s[i] != s[j];
      }
    }
  }

  // ----- the twin check -----

  function YesNo(b: bool): string { if b then "yes" else "no" }

  /** What a task's answer is, given where the path ends. */
  ghost function ExpectedAnswer(item: Item, end: nat): Option<string> {
    if item.task == "endpoint_traversal" then Some("Q" + Print(end))
    else if item.task != "endpoint_equality" || item.meta.comparison.None? then None
    else
      match QNumber(item.meta.comparison.value)
      case None => None
      case Some(n) => Some(if end == n then "yes" else "no")
  }

  method AnswerOf(item: Item, end: nat) returns (answer: Option<string>)
    ensures answer == ExpectedAnswer(item, end)
  {
    if item.task == TRAVERSAL {
      return Some(QId(end));
    }
    if item.task != EQUALITY || item.meta.comparison.None? {
      return None;
    }
    var comparison := QNumber(item.meta.comparison.value);
    if comparison.None? {
      return None;
    }
    return Some(YesNo(end == comparison.value));
  }

  ghost predicate DeclaresEnds(meta: Meta, oracle: nat, originalEnd: nat, counterfactualEnd: nat) {
    && QNumber(meta.oracle) == Some(oracle)
    && QNumber(meta.originalEnd) == Some(originalEnd)
    && QNumber(meta.counterfactualEnd) == Some(counterfactualEnd)
  }

  /** The replaced last row. */
  function WithLast(rows: seq<GraphRow>, changed: GraphRow): seq<GraphRow>
    requires rows != []
  {
    rows[..|rows| - 1] + [changed]
  }

  ghost predicate TwinPair(o: Item, c: Item, rows: seq<GraphRow>, changed: GraphRow, originalEnd: nat,
                           counterfactualEnd: nat,
                           factId: GraphRow -> FactId)
    requires rows != []
  {
    && o.task in {"endpoint_traversal", "endpoint_equality"} && c.task == o.meta.task == c.meta.task == o.task
    && o.meta.variant == "original" && c.meta.variant == "counterfactual" && o.prompt == c.prompt
    && DeclaresRows(o, rows, None, factId) && DeclaresRows(c, WithLast(rows, changed), Some(changed), factId)
    && DeclaresEnds(o.meta, originalEnd, originalEnd, counterfactualEnd)
    && DeclaresEnds(c.meta, counterfactualEnd, originalEnd, counterfactualEnd)
    && (o.task == EQUALITY ==> c.meta.comparison == o.meta.comparison)
    && Some(o.answer) == ExpectedAnswer(o, originalEnd) && Some(c.answer) == ExpectedAnswer(c, counterfactualEnd)
    && o.answer != c.answer
  }

  /** The task of a pair that checks out. */
  ghost function Judge(o: Item, c: Item, rows: seq<GraphRow>, changed: GraphRow, originalEnd: nat,
                       counterfactualEnd: nat, factId: GraphRow -> FactId): Option<string>
    requires rows != []
  {
    if TwinPair(o, c, rows, changed, originalEnd, counterfactualEnd, factId) then Some(o.task) else None
  }

  method CheckEnds(meta: Meta, oracle: nat, originalEnd: nat, counterfactualEnd: nat) returns (ok: bool)
    ensures ok <==> DeclaresEnds(meta, oracle, originalEnd, counterfactualEnd)
  {
    ok := QNumber(meta.oracle) == Some(oracle) && QNumber(meta.originalEnd) == Some(originalEnd)
          && QNumber(meta.counterfactualEnd) == Some(counterfactualEnd);
  }

  /** The rows and endpoints both items declare. */
  method CheckDeclared(o: Item, c: Item, rows: seq<GraphRow>, changed: GraphRow, originalEnd: nat,
                       counterfactualEnd: nat, factId: GraphRow -> FactId)
    returns (ok: bool)
    requires rows != []
    ensures ok <==>
      && DeclaresRows(o, rows, None, factId) && DeclaresRows(c, WithLast(rows, changed), Some(changed), factId)
      && DeclaresEnds(o.meta, originalEnd, originalEnd, counterfactualEnd)
      && DeclaresEnds(c.meta, counterfactualEnd, originalEnd, counterfactualEnd)
  {
    var originalRows := CheckItemRows(o, rows, None, factId);
    var changedRows := CheckItemRows(c, WithLast(rows, changed), Some(changed), factId);
    var originalEnds := CheckEnds(o.meta, originalEnd, originalEnd, counterfactualEnd);
    var changedEnds := CheckEnds(c.meta, counterfactualEnd, originalEnd, counterfactualEnd);
    ok := originalRows && changedRows && originalEnds && changedEnds;
  }

  method JudgePair(o: Item, c: Item, rows: seq<GraphRow>, changed: GraphRow, originalEnd: nat, counterfactualEnd: nat,
                   factId: GraphRow -> FactId)
    returns (task: Option<string>)
    requires rows != []
    ensures task == Judge(o, c, rows, changed, originalEnd, counterfactualEnd, factId)
  {
    if o.task !in {TRAVERSAL, EQUALITY} || c.task != o.task || o.meta.task != o.task || c.meta.task != o.task {
      return None;
    }
    if o.meta.variant != "original" || c.meta.variant != "counterfactual" || o.prompt != c.prompt {
      return None;
    }
    var declared := CheckDeclared(o, c, rows, changed, originalEnd, counterfactualEnd, factId);
    if !declared || (o.task == EQUALITY && c.meta.comparison != o.meta.comparison) {
      return None;
    }
    var expected := AnswerOf(o, originalEnd);
    var flipped := AnswerOf(c, counterfactualEnd);
    if Some(o.answer) != expected || Some(c.answer) != flipped || expected == flipped {
      return None;
    }
    return Some(o.task);
  }

  /** The overlay changes exactly the last row's target. */
  ghost predicate ChangesLast(rows: seq<GraphRow>, changed: GraphRow)
    requires rows != []
  {
    var last := rows[|rows| - 1];
    changed.Addr() == last.Addr() && changed.kind == last.kind && changed.qualifiers == last.qualifiers
      && changed.target != last.target
  }

  ghost predicate PathRows(rows: seq<GraphRow>) {
    1 <= |rows| <= 6 && NoRepeats(Addresses(rows)) && IsChain(rows)
  }

  ghost function Pairing(items: seq<Item>): set<string> {
    set i | i in items :: i.meta.pairId
  }

  /** Both task pairs, each with its twin. */
  ghost predicate TwinSet(rows: seq<GraphRow>, originals: seq<Item>, counterfactuals: seq<Item>,
                          factId: GraphRow -> FactId) {
    && PathRows(rows) && |originals| == |counterfactuals| == 2
    && originals[0].meta.pairId != originals[1].meta.pairId
    && Pairing(originals) == Pairing(counterfactuals)
    && (var changed := counterfactuals[0].meta.changed;
        && changed.Some? && counterfactuals[1].meta.changed == changed && ChangesLast(rows, changed.value)
        && IsChain(WithLast(rows, changed.value)) && EndOf(WithLast(rows, changed.value)) != EndOf(rows)
        && TwinPairs(originals, counterfactuals, rows, changed.value, EndOf(rows).value,
             EndOf(WithLast(rows, changed.value)).value, factId))
    && originals[0].task != originals[1].task
  }

  /** Items with the same pair id are twins. */
  ghost predicate TwinPairs(originals: seq<Item>, counterfactuals: seq<Item>, rows: seq<GraphRow>, changed: GraphRow,
                            originalEnd: nat, counterfactualEnd: nat, factId: GraphRow -> FactId)
    requires rows != []
  {
    forall o, c | o in originals && c in counterfactuals && o.meta.pairId == c.meta.pairId ::
      TwinPair(o, c, rows, changed, originalEnd, counterfactualEnd, factId)
  }

  method ByPair(items: seq<Item>) returns (byPair: map<string, Item>)
    ensures byPair.Keys == Pairing(items)
    ensures forall id | id in byPair :: byPair[id] in items && byPair[id].meta.pairId == id
  {
    byPair := map[];
    for i := 0 to |items|
      invariant byPair.Keys == set k | 0 <= k < i :: items[k].meta.pairId
      invariant forall id | id in byPair :: byPair[id] in items && byPair[id].meta.pairId == id
    {
      byPair := byPair[items[i].meta.pairId := items[i]];
    }
  }

  lemma PairingOfTwo(items: seq<Item>)
    requires |items| == 2
    ensures Pairing(items) == {items[0].meta.pairId, items[1].meta.pairId}
    ensures |Pairing(items)| == 2 <==> items[0].meta.pairId != items[1].meta.pairId
  {
    assert Pairing(items) == {items[0].meta.pairId, items[1].meta.pairId};
    if items[0].meta.pairId == items[1].meta.pairId {
      assert Pairing(items) == {items[0].meta.pairId};
    }
  }

  /** With distinct pair ids, the dictionary holds each item under its own id. */
  lemma OwnEntry(items: seq<Item>, byPair: map<string, Item>)
    requires |items| == 2 && items[0].meta.pairId != items[1].meta.pairId
    requires byPair.Keys == Pairing(items) && forall id | id in byPair ::
      byPair[id] in items && byPair[id].meta.pairId == id
    ensures forall i | i in items :: i.meta.pairId in byPair && byPair[i.meta.pairId] == i
  {
  }

  /** The end of a path of one to six rows, none of whose addresses repeats. */
  method RequirePath(rows: seq<GraphRow>) returns (end: Option<nat>)
    ensures end.Some? <==> PathRows(rows)
    ensures end.Some? ==> end == EndOf(rows)
  {
    var addresses := Addresses(rows);
    RepeatsShrink(addresses);
    if |rows| !in {1, 2, 3, 4, 5, 6} || |set a | a in addresses| != |addresses| {
      return None;
    }
    end := Replay(rows);
  }

  /** The end of the path once its last row is replaced by one with another target. */
  method RequireChange(rows: seq<GraphRow>, changed: GraphRow) returns (end: Option<nat>)
    requires rows != []
    ensures end.Some? <==> ChangesLast(rows, changed) && IsChain(WithLast(rows, changed))
    ensures end.Some? ==> end == EndOf(WithLast(rows, changed))
  {
    var last := rows[|rows| - 1];
    if changed.Addr() != last.Addr() || changed.kind != last.kind || changed.qualifiers != last.qualifiers
      || changed.target == last.target {
      return None;
    }
    end := Replay(WithLast(rows, changed));
  }

  /** Accepts exactly the twin sets. */
  method ReplayAndValidate(rows: seq<GraphRow>, originals: seq<Item>, counterfactuals: seq<Item>,
                           factId: GraphRow -> FactId)
    returns (ok: bool)
    ensures ok <==> TwinSet(rows, originals, counterfactuals, factId)
  {
    var originalEnd := RequirePath(rows);
    if originalEnd.None? || |originals| != 2 || |counterfactuals| != 2 {
      return false;
    }
    var originalBy := ByPair(originals);
    var counterfactualBy := ByPair(counterfactuals);
    PairingOfTwo(originals);
    PairingOfTwo(counterfactuals);
    if |originalBy.Keys| != 2 || originalBy.Keys != counterfactualBy.Keys {
      return false;
    }
    var raw := counterfactuals[0].meta.changed;
    if raw.None? || counterfactuals[1].meta.changed != raw {
      return false;
    }
    var counterfactualEnd := RequireChange(rows, raw.value);
    if counterfactualEnd.None? || originalEnd == counterfactualEnd {
      return false;
    }
    OwnEntry(originals, originalBy);
    OwnEntry(counterfactuals, counterfactualBy);
    ok := CheckPairs(originals, counterfactuals, originalBy, counterfactualBy, rows, raw.value, originalEnd.value,
      counterfactualEnd.value, factId);
  }

  /** The tasks of all pairs, unless one does not check out. */
  method JudgeAll(originalBy: map<string, Item>, counterfactualBy: map<string, Item>, rows: seq<GraphRow>,
                  changed: GraphRow,
                  originalEnd: nat, counterfactualEnd: nat, factId: GraphRow -> FactId)
                    returns (tasks: Option<set<string>>)
    requires rows != [] && originalBy.Keys == counterfactualBy.Keys
    ensures tasks.Some? ==> tasks.value == set id | id in originalBy :: originalBy[id].task
    ensures tasks.Some? ==> forall id | id in originalBy ::
      Judge(originalBy[id], counterfactualBy[id], rows, changed, originalEnd, counterfactualEnd, factId)
        == Some(originalBy[id].task)
    ensures tasks.None? ==>
      exists id ::
      id in originalBy
      && Judge(originalBy[id], counterfactualBy[id], rows, changed, originalEnd, counterfactualEnd, factId).None?
  {
    var left, seen := originalBy.Keys, {};
    while left != {}
      invariant left <= originalBy.Keys
      invariant forall id | id in originalBy && id !in left ::
        Judge(originalBy[id], counterfactualBy[id], rows, changed, originalEnd, counterfactualEnd, factId)
          == Some(originalBy[id].task)
      invariant seen == set id | id in originalBy && id !in left :: originalBy[id].task
    {
      var id :| id in left;
      var task := JudgePair(originalBy[id], counterfactualBy[id], rows, changed, originalEnd, counterfactualEnd,
        factId);
      if task.None? {
        return None;
      }
      seen := seen + {task.value};
      left := left - {id};
    }
    tasks := Some(seen);
  }

  method CheckPairs(ghost originals: seq<Item>, ghost counterfactuals: seq<Item>, originalBy: map<string, Item>,
                    counterfactualBy: map<string, Item>,
                    rows: seq<GraphRow>, changed: GraphRow, originalEnd: nat, counterfactualEnd: nat,
                    factId: GraphRow -> FactId) returns (ok: bool)
    requires rows != [] && |originals| == |counterfactuals| == 2
    requires originalBy.Keys == Pairing(originals) == Pairing(counterfactuals) == counterfactualBy.Keys
    requires forall i | i in originals :: originalBy[i.meta.pairId] == i
    requires forall i | i in counterfactuals :: counterfactualBy[i.meta.pairId] == i
    ensures ok <==>
      TwinPairs(originals, counterfactuals, rows, changed, originalEnd, counterfactualEnd, factId)
      && originals[0].task != originals[1].task
  {
    var tasks := JudgeAll(originalBy, counterfactualBy, rows, changed, originalEnd, counterfactualEnd, factId);
    if tasks.None? {
      ghost var id :| id in originalBy
        && Judge(originalBy[id], counterfactualBy[id], rows, changed, originalEnd, counterfactualEnd, factId).None?;
      NotTwins(originals, counterfactuals, originalBy, counterfactualBy, id);
      return false;
    }
    assert AllJudged(originals, counterfactuals, rows, changed, originalEnd, counterfactualEnd, factId);
    JudgedAreTwins(originals, counterfactuals, rows, changed, originalEnd, counterfactualEnd, factId);
    BothTasks(originals, originalBy, tasks.value);
    ok := tasks.value == {TRAVERSAL, EQUALITY};
  }

  ghost predicate AllJudged(originals: seq<Item>, counterfactuals: seq<Item>, rows: seq<GraphRow>, changed: GraphRow,
                            originalEnd: nat, counterfactualEnd: nat, factId: GraphRow -> FactId)
    requires rows != []
  {
    forall o, c | o in originals && c in counterfactuals && o.meta.pairId == c.meta.pairId ::
      Judge(o, c, rows, changed, originalEnd, counterfactualEnd, factId) == Some(o.task)
  }

  lemma JudgedAreTwins(originals: seq<Item>, counterfactuals: seq<Item>, rows: seq<GraphRow>, changed: GraphRow,
                       originalEnd: nat, counterfactualEnd: nat, factId: GraphRow -> FactId)
    requires rows != [] && AllJudged(originals, counterfactuals, rows, changed, originalEnd, counterfactualEnd, factId)
    requires Pairing(originals) == Pairing(counterfactuals)
    ensures TwinPairs(originals, counterfactuals, rows, changed, originalEnd, counterfactualEnd, factId)
    ensures forall o | o in originals :: o.task in {TRAVERSAL, EQUALITY}
  {
    forall o, c | o in originals && c in counterfactuals && o.meta.pairId == c.meta.pairId
      ensures TwinPair(o, c, rows, changed, originalEnd, counterfactualEnd, factId)
    {
      assert Judge(o, c, rows, changed, originalEnd, counterfactualEnd, factId).Some?;
    }
    forall o | o in originals
      ensures o.task in {TRAVERSAL, EQUALITY}
    {
      assert o.meta.pairId in Pairing(counterfactuals);
      var c :| c in counterfactuals && c.meta.pairId == o.meta.pairId;
      assert TwinPair(o, c, rows, changed, originalEnd, counterfactualEnd, factId);
    }
  }

  lemma NotTwins(originals: seq<Item>, counterfactuals: seq<Item>, originalBy: map<string, Item>,
                 counterfactualBy: map<string, Item>, id: string)
    requires originalBy.Keys == Pairing(originals) == Pairing(counterfactuals) == counterfactualBy.Keys
      && id in originalBy
    requires forall i | i in originals :: originalBy[i.meta.pairId] == i
    requires forall i | i in counterfactuals :: counterfactualBy[i.meta.pairId] == i
    ensures originalBy[id] in originals && counterfactualBy[id] in counterfactuals
    ensures originalBy[id].meta.pairId == id == counterfactualBy[id].meta.pairId
  {
    var o :| o in originals && o.meta.pairId == id;
    var c :| c in counterfactuals && c.meta.pairId == id;
  }

  lemma BothTasks(items: seq<Item>, byPair: map<string, Item>, tasks: set<string>)
    requires |items| == 2 && byPair.Keys == Pairing(items) && forall i | i in items :: byPair[i.meta.pairId] == i
    requires tasks == set id | id in byPair :: byPair[id].task
    requires forall id | id in byPair :: byPair[id].task in {TRAVERSAL, EQUALITY}
    ensures tasks == {TRAVERSAL, EQUALITY} <==> items[0].task != items[1].task
  {
    PairingOfTwo(items);
    assert items[0] in items && items[1] in items;
    assert tasks == {items[0].task, items[1].task};
  }

  // ----- the materialized audit -----

  /** The base store with one row replaced; None where the overlay is refused. */
  function Overlay(store: map<Address, GraphRow>, changed: GraphRow): Option<map<Address, GraphRow>> {
    if changed.Addr() !in store || store[changed.Addr()] == changed then None
      else Some(store[changed.Addr() := changed])
  }

  /** What the store returns along an item's declared addresses, starting at its root slot. */
  ghost predicate Walks(store: map<Address, GraphRow>, item: Item, rows: seq<GraphRow>) {
    && 1 <= |item.meta.addresses| <= 6 && |rows| == |item.meta.addresses|
    && item.meta.rootSlot == item.meta.addresses[0].source
    && (forall i | 0 <= i < |rows| ::
         item.meta.addresses[i] in store && rows[i] == store[item.meta.addresses[i]]
         && rows[i].Addr() == item.meta.addresses[i])
    && (forall i | 0 <= i < |rows| ::
         rows[i].kind == Entity && rows[i].qualifiers == [] && Number(rows[i].target).Some?)
    && forall i | 0 < i < |rows| :: Number(rows[i - 1].target) == Some(rows[i].source)
  }

  /** The store confirms everything the item declares. */
  ghost predicate Confirmed(store: map<Address, GraphRow>, item: Item, changed: Option<GraphRow>, rows: seq<GraphRow>,
                            factId: GraphRow -> FactId) {
    && Walks(store, item, rows) && DeclaresRows(item, rows, changed, factId)
    && QNumber(item.meta.oracle) == EndOf(rows)
    && Some(item.answer) == ExpectedAnswer(item, EndOf(rows).value)
  }

  /** The first n lookups of Walks. */
  ghost predicate WalksTo(store: map<Address, GraphRow>, item: Item, rows: seq<GraphRow>, n: nat) {
    && n <= |item.meta.addresses| && |rows| == n
    && (n > 0 ==> item.meta.rootSlot == item.meta.addresses[0].source)
    && (forall i | 0 <= i < n ::
         item.meta.addresses[i] in store && rows[i] == store[item.meta.addresses[i]]
         && rows[i].Addr() == item.meta.addresses[i])
    && (forall i | 0 <= i < n :: rows[i].kind == Entity && rows[i].qualifiers == [] && Number(rows[i].target).Some?)
    && forall i | 0 < i < n :: Number(rows[i - 1].target) == Some(rows[i].source)
  }

  lemma WalkStep(store: map<Address, GraphRow>, item: Item, rows: seq<GraphRow>, n: nat, row: GraphRow)
    requires WalksTo(store, item, rows, n) && n < |item.meta.addresses|
    requires item.meta.addresses[n] in store && row == store[item.meta.addresses[n]]
      && row.Addr() == item.meta.addresses[n]
    requires row.kind == Entity && row.qualifiers == [] && Number(row.target).Some?
    requires if n == 0 then item.meta.rootSlot == row.source else Number(rows[n - 1].target) == Some(row.source)
    ensures WalksTo(store, item, rows + [row], n + 1)
  {
  }

  /** The walk is the only one. */
  lemma WalkUnique(store: map<Address, GraphRow>, item: Item, rows: seq<GraphRow>, other: seq<GraphRow>, n: nat)
    requires WalksTo(store, item, rows, n) && Walks(store, item, other)
    ensures other[..n] == rows
  {
  }

  method Lookup(store: map<Address, GraphRow>, item: Item) returns (found: Option<seq<GraphRow>>)
    ensures forall rows :: Walks(store, item, rows) <==> found == Some(rows)
  {
    var addresses := item.meta.addresses;
    if !(1 <= |addresses| <= 6) {
      return None;
    }
    var endpoint := item.meta.rootSlot;
    var rows: seq<GraphRow> := [];
    for i := 0 to |addresses|
      invariant WalksTo(store, item, rows, i)
      invariant if i == 0 then endpoint == item.meta.rootSlot else Number(rows[i - 1].target) == Some(endpoint)
    {
      forall other | Walks(store, item, other)
        ensures other[..i] == rows
      {
        WalkUnique(store, item, rows, other, i);
      }
      assert i > 0 ==> forall other | Walks(store, item, other) :: other[i - 1] == other[..i][i - 1];
      var declared := addresses[i];
      var actual := Address(endpoint, declared.relation, declared.outgoing);
      if actual != declared {
        return None;
      }
      if actual !in store || store[actual].Addr() != actual {
        return None;
      }
      var row := store[actual];
      if row.kind != Entity || row.qualifiers != [] || Number(row.target).None? {
        return None;
      }
      WalkStep(store, item, rows, i, row);
      rows := rows + [row];
      endpoint := Number(row.target).value;
    }
    forall other | Walks(store, item, other)
      ensures other == rows
    {
      WalkUnique(store, item, rows, other, |addresses|);
      assert other[..|addresses|] == other;
    }
    found := Some(rows);
  }

  method LookupMaterialized(store: map<Address, GraphRow>, item: Item, changed: Option<GraphRow>,
                            factId: GraphRow -> FactId)
    returns (found: Option<seq<GraphRow>>)
    ensures forall rows :: Confirmed(store, item, changed, rows, factId) <==> found == Some(rows)
  {
    found := Lookup(store, item);
    if found.Some? {
      assert Walks(store, item, found.value);
      var end := EndOf(found.value);
      var declared := CheckItemRows(item, found.value, changed, factId);
      var expected := AnswerOf(item, end.value);
      if !declared || QNumber(item.meta.oracle) != end || Some(item.answer) != expected {
        found := None;
      }
    }
  }

  ghost predicate TwinMeta(o: Item, c: Item) {
    && o.meta.variant == "original" && c.meta.variant == "counterfactual"
    && o.meta.pairId == c.meta.pairId && o.task == c.task && o.prompt == c.prompt
  }

  ghost predicate EndsDeclared(meta: Meta, rows: seq<GraphRow>, changedRows: seq<GraphRow>)
    requires rows != [] && changedRows != []
  {
    QNumber(meta.originalEnd) == EndOf(rows) && QNumber(meta.counterfactualEnd) == EndOf(changedRows)
  }

  /** The base store walks the original over `rows`; with one row overlaid it walks the
      counterfactual over the same rows but the last, to another end and another answer. */
  ghost predicate PairConfirmed(store: map<Address, GraphRow>, o: Item, c: Item, rows: seq<GraphRow>,
                                factId: GraphRow -> FactId) {
    && TwinMeta(o, c) && Confirmed(store, o, None, rows, factId) && c.meta.changed.Some?
    && var changed := c.meta.changed.value;
    && changed.Addr() == rows[|rows| - 1].Addr() && Overlay(store, changed).Some?
    && Confirmed(Overlay(store, changed).value, c, Some(changed), WithLast(rows, changed), factId)
    && EndOf(rows) != EndOf(WithLast(rows, changed)) && o.answer != c.answer
    && EndsDeclared(o.meta, rows, WithLast(rows, changed)) && EndsDeclared(c.meta, rows, WithLast(rows, changed))
  }

  ghost predicate Confirms(store: map<Address, GraphRow>, o: Item, c: Item, factId: GraphRow -> FactId) {
    exists rows :: PairConfirmed(store, o, c, rows, factId)
  }

  /** One pair of the audit. The base store is a value here, so the overlay cannot alter it. */
  method AuditPair(store: map<Address, GraphRow>, o: Item, c: Item, factId: GraphRow -> FactId) returns (ok: bool)
    ensures ok <==> Confirms(store, o, c, factId)
  {
    if o.meta.variant != "original" || c.meta.variant != "counterfactual" || o.meta.pairId != c.meta.pairId
      || o.task != c.task || o.prompt != c.prompt {
      return false;
    }
    var originalRows := LookupMaterialized(store, o, None, factId);
    if originalRows.None? || c.meta.changed.None? {
      return false;
    }
    var rows, changed := originalRows.value, c.meta.changed.value;
    assert Confirmed(store, o, None, rows, factId);
    if changed.Addr() != rows[|rows| - 1].Addr() || store[changed.Addr()] != rows[|rows| - 1] {
      return false;
    }
    var overlay := Overlay(store, changed);
    if overlay.None? {
      return false;
    }
    var counterfactualRows := LookupMaterialized(overlay.value, c, Some(changed), factId);
    if counterfactualRows.None? || counterfactualRows.value != WithLast(rows, changed) {
      return false;
    }
    var end, changedEnd := EndOf(rows), EndOf(WithLast(rows, changed));
    ok := && end != changedEnd && o.answer != c.answer
          && QNumber(o.meta.originalEnd) == end && QNumber(o.meta.counterfactualEnd) == changedEnd
          && QNumber(c.meta.originalEnd) == end && QNumber(c.meta.counterfactualEnd) == changedEnd;
    assert ok <==> PairConfirmed(store, o, c, rows, factId);
  }

  /** The verdicts are those of the pairs. */
  ghost predicate Decides(verdicts: seq<bool>, store: map<Address, GraphRow>, originals: seq<Item>,
                          counterfactuals: seq<Item>, factId: GraphRow -> FactId) {
    && |verdicts| == |originals|
    && forall k {:trigger Confirms(store, originals[k], counterfactuals[k], factId)} |
         0 <= k < |originals| && k < |counterfactuals| ::
         Confirms(store, originals[k], counterfactuals[k], factId) == verdicts[k]
  }

  method AuditNext(store: map<Address, GraphRow>, originals: seq<Item>, counterfactuals: seq<Item>,
                   factId: GraphRow -> FactId, k: nat, ghost verdicts: seq<bool>)
    returns (ok: bool)
    requires Decides(verdicts, store, originals, counterfactuals, factId)
    requires k < |originals| && k < |counterfactuals|
    ensures ok == verdicts[k]
  {
    ok := AuditPair(store, originals[k], counterfactuals[k], factId);
  }

  /** Streams both artifacts in step; `verdicts` are those of the pairs. */
  method AuditStreams(store: map<Address, GraphRow>, originals: seq<Item>, counterfactuals: seq<Item>,
                      factId: GraphRow -> FactId, ghost verdicts: seq<bool>)
    returns (audited: Option<nat>)
    requires Decides(verdicts, store, originals, counterfactuals, factId)
    ensures audited.Some? <==> |originals| == |counterfactuals| && forall k | 0 <= k < |verdicts| :: verdicts[k]
    ensures audited.Some? ==> audited.value == 2 * |originals|
  {
    var items := 0;
    var k := 0;
    while k < |originals| || k < |counterfactuals|
      invariant 0 <= k <= |originals| && k <= |counterfactuals| && items == 2 * k
      invariant forall i | 0 <= i < k :: verdicts[i]
      decreases |originals| - k
    {
      if k >= |originals| || k >= |counterfactuals| {
        return None;
      }
      var ok := AuditNext(store, originals, counterfactuals, factId, k, verdicts);
      if !ok {
        return None;
      }
      items := items + 2;
      k := k + 1;
    }
    audited := Some(items);
  }

  /** The count is of items, two a pair. */
  method AuditMaterialized(store: map<Address, GraphRow>, originals: seq<Item>, counterfactuals: seq<Item>,
                           factId: GraphRow -> FactId)
    returns (audited: Option<nat>)
    ensures audited.Some? <==>
      |originals| == |counterfactuals| && forall k | 0 <= k < |originals| ::
      Confirms(store, originals[k], counterfactuals[k], factId)
    ensures audited.Some? ==> audited.value == 2 * |originals|
  {
    ghost var verdicts := seq(|originals|, k requires 0 <= k < |originals| =>
      k < |counterfactuals| && Confirms(store, originals[k], counterfactuals[k], factId));
    audited := AuditStreams(store, originals, counterfactuals, factId, verdicts);
  }
}
