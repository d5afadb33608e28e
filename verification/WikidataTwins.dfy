/** The original and counterfactual items emitted for one path, and why the independent
    checks always accept them (wikidata_paths.py, _emit_path_pairs). */
module WikidataTwins {
  import opened Wrappers
  import opened GraphRows
  import opened PathReplay
  import opened WikidataPaths

  /** The split's name, the digest that keys a path, its parity, the prompt text and the fact
      digest: whatever these functions are, the checks below pass. */
  datatype Names = Names(split: string, keyOf: (Triple, nat) -> string, even: string -> bool,
                         phrase: (seq<Triple>, string) -> string, factId: GraphRow -> FactId)

  function Provenance(names: Names): string { "wikidata5m-inductive-" + names.split }

  function BaseRow(t: Triple, provenance: string): GraphRow {
    GraphRow(t.subject, t.relation, true, Entity, Print(t.obj), [], provenance)
  }

  function BaseRows(rows: seq<Triple>, provenance: string): seq<GraphRow> {
    seq(|rows|, i requires 0 <= i < |rows| => BaseRow(rows[i], provenance))
  }

  function ChangedRow(last: Triple, alternative: nat, provenance: string): GraphRow {
    BaseRow(Triple(last.subject, last.relation, alternative), provenance + ":counterfactual")
  }

  function CommonMeta(pairId: string, variant: string, task: string, rows: seq<Triple>, facts: seq<GraphRow>,
                      changed: Option<GraphRow>,
                      end: nat, originalEnd: nat, counterfactualEnd: nat, comparison: Option<nat>,
                      factId: GraphRow -> FactId): Meta
    requires rows != []
  {
    Meta(pairId, variant, task, rows[0].subject,
         seq(|rows|, i requires 0 <= i < |rows| => Address(rows[i].subject, rows[i].relation, true)),
         seq(|facts|, i requires 0 <= i < |facts| => factId(facts[i])),
         changed, if changed.Some? then 1 else 0,
         QId(end), QId(originalEnd), QId(counterfactualEnd), if comparison.None? then None
           else Some(QId(comparison.value)))
  }

  /** Traversal, then equality; the equality pair compares with the original or the
      counterfactual endpoint as the key's parity says. */
  method EmitPathPairs(rows: seq<Triple>, alternative: nat, key: string, names: Names)
    returns (originals: seq<Item>, counterfactuals: seq<Item>)
    requires rows != []
    ensures originals
      == [TraversalItem(rows, alternative, key, names, false), EqualityItem(rows, alternative, key, names, false)]
    ensures counterfactuals
      == [TraversalItem(rows, alternative, key, names, true), EqualityItem(rows, alternative, key, names, true)]
  {
    originals, counterfactuals := [], [];
    originals := originals + [TraversalItem(rows, alternative, key, names, false)];
    counterfactuals := counterfactuals + [TraversalItem(rows, alternative, key, names, true)];
    originals := originals + [EqualityItem(rows, alternative, key, names, false)];
    counterfactuals := counterfactuals + [EqualityItem(rows, alternative, key, names, true)];
  }

  /** The rows of a variant. */
  function VariantRows(rows: seq<Triple>, alternative: nat, names: Names, changed: bool): seq<GraphRow>
    requires rows != []
  {
    var base := BaseRows(rows, Provenance(names));
    if changed then WithLast(base, ChangedRow(rows[|rows| - 1], alternative, Provenance(names))) else base
  }

  function Change(rows: seq<Triple>, alternative: nat, names: Names, changed: bool): Option<GraphRow>
    requires rows != []
  {
    if changed then Some(ChangedRow(rows[|rows| - 1], alternative, Provenance(names))) else None
  }

  function PairStem(key: string, names: Names): string { "wd-" + names.split + "-" + key }

  function TraversalItem(rows: seq<Triple>, alternative: nat, key: string, names: Names, changed: bool): Item
    requires rows != []
  {
    var last := rows[|rows| - 1].obj;
    var end := if changed then alternative else last;
    Item(TRAVERSAL, names.phrase(rows, key) + "Return the exact endpoint Q ID.", QId(end),
         CommonMeta(PairStem(key, names) + "-traversal", if changed then "counterfactual"
           else "original", TRAVERSAL, rows,
                    VariantRows(rows, alternative, names, changed), Change(rows, alternative, names, changed), end,
                      last, alternative, None, names.factId))
  }

  function EqualityItem(rows: seq<Triple>, alternative: nat, key: string, names: Names, changed: bool): Item
    requires rows != []
  {
    var last := rows[|rows| - 1].obj;
    var end := if changed then alternative else last;
    var originalEqual := names.even(key);
    var comparison := if originalEqual then last else alternative;
    Item(EQUALITY, names.phrase(rows, key) + "Does the endpoint equal " + QId(comparison) + "? Answer yes or no.",
      YesNo(originalEqual != changed),
         CommonMeta(PairStem(key, names) + "-equality", if changed then "counterfactual"
           else "original", EQUALITY, rows,
                    VariantRows(rows, alternative, names, changed), Change(rows, alternative, names, changed), end,
                      last, alternative, Some(comparison), names.factId))
  }

  // ----- the rows replay -----

  lemma BaseRowsChain(rows: seq<Triple>, provenance: string)
    requires rows != [] && forall i | 0 < i < |rows| :: rows[i].subject == rows[i - 1].obj
    ensures IsChain(BaseRows(rows, provenance)) && EndOf(BaseRows(rows, provenance)) == Some(rows[|rows| - 1].obj)
  {
    forall i | 0 <= i < |rows|
      ensures Number(BaseRows(rows, provenance)[i].target) == Some(rows[i].obj)
    {
      NumberPrints(rows[i].obj, Print(rows[i].obj));
    }
  }

  lemma ChangedChain(rows: seq<GraphRow>, changed: GraphRow, alternative: nat)
    requires IsChain(rows) && changed.Addr() == rows[|rows| - 1].Addr() && changed.kind == Entity
      && changed.qualifiers == [] && changed.target == Print(alternative)
    ensures IsChain(WithLast(rows, changed)) && EndOf(WithLast(rows, changed)) == Some(alternative)
  {
    NumberPrints(alternative, Print(alternative));
    var next := WithLast(rows, changed);
    assert forall i | 0 <= i < |rows| - 1 :: next[i] == rows[i];
  }

  lemma DistinctAddresses(source: Source, rows: seq<Triple>, provenance: string)
    requires PathShape(source, rows)
    ensures NoRepeats(Addresses(BaseRows(rows, provenance)))
  {
    var addresses := Addresses(BaseRows(rows, provenance));
    forall i, j | 0 <= i < j < |rows|
      ensures addresses[i] != addresses[j]
    {
      assert KeyOf(rows[i]) != KeyOf(rows[j]);
    }
  }

  /** The overlaid rows of a path: a chain to the alternative, at the same addresses. */
  lemma Changes(source: Source, rows: seq<Triple>, alternative: nat, names: Names)
    requires PathShape(source, rows) && alternative != rows[|rows| - 1].obj
    ensures var base := VariantRows(rows, alternative, names, false);
            var changed := Change(rows, alternative, names, true).value;
            && PathRows(base) && EndOf(base) == Some(rows[|rows| - 1].obj)
            && ChangesLast(base, changed) && IsChain(WithLast(base, changed))
            && EndOf(WithLast(base, changed)) == Some(alternative)
  {
    var base := VariantRows(rows, alternative, names, false);
    var changed := Change(rows, alternative, names, true).value;
    BaseRowsChain(rows, Provenance(names));
    DistinctAddresses(source, rows, Provenance(names));
    ChangedChain(base, changed, alternative);
    NumberPrints(alternative, changed.target);
    NumberPrints(rows[|rows| - 1].obj, base[|rows| - 1].target);
  }

  lemma DeclaresVariant(rows: seq<Triple>, alternative: nat, key: string, names: Names, changed: bool)
    requires rows != []
    ensures DeclaresRows(TraversalItem(rows, alternative, key, names, changed),
      VariantRows(rows, alternative, names, changed), Change(rows, alternative, names, changed), names.factId)
    ensures DeclaresRows(EqualityItem(rows, alternative, key, names, changed),
      VariantRows(rows, alternative, names, changed), Change(rows, alternative, names, changed), names.factId)
  {
    var variant := VariantRows(rows, alternative, names, changed);
    assert Addresses(variant)
      == seq(|rows|, i requires 0 <= i < |rows| => Address(rows[i].subject, rows[i].relation, true));
  }

  lemma DeclaresVariantEnds(rows: seq<Triple>, alternative: nat, key: string, names: Names, changed: bool)
    requires rows != []
    ensures var last := rows[|rows| - 1].obj; var end := if changed then alternative else last;
            && DeclaresEnds(TraversalItem(rows, alternative, key, names, changed).meta, end, last, alternative)
            && DeclaresEnds(EqualityItem(rows, alternative, key, names, changed).meta, end, last, alternative)
  {
    QIdReads(rows[|rows| - 1].obj);
    QIdReads(alternative);
  }

  lemma AnswersFlip(rows: seq<Triple>, alternative: nat, key: string, names: Names)
    requires rows != [] && alternative != rows[|rows| - 1].obj
    ensures var last := rows[|rows| - 1].obj;
      var o, c := TraversalItem(rows, alternative, key, names, false),
      TraversalItem(rows, alternative, key, names, true);
            Some(o.answer) == ExpectedAnswer(o, last) && Some(c.answer) == ExpectedAnswer(c, alternative)
              && o.answer != c.answer
    ensures var last := rows[|rows| - 1].obj;
      var o, c := EqualityItem(rows, alternative, key, names, false), EqualityItem(rows, alternative, key, names, true);
            Some(o.answer) == ExpectedAnswer(o, last) && Some(c.answer) == ExpectedAnswer(c, alternative)
              && o.answer != c.answer
  {
    QIdReads(rows[|rows| - 1].obj);
    QIdReads(alternative);
    QIdInjective(rows[|rows| - 1].obj, alternative);
  }

  // ----- acceptance -----

  ghost function Originals(rows: seq<Triple>, alternative: nat, key: string, names: Names): seq<Item>
    requires rows != []
  {
    [TraversalItem(rows, alternative, key, names, false), EqualityItem(rows, alternative, key, names, false)]
  }

  ghost function Counterfactuals(rows: seq<Triple>, alternative: nat, key: string, names: Names): seq<Item>
    requires rows != []
  {
    [TraversalItem(rows, alternative, key, names, true), EqualityItem(rows, alternative, key, names, true)]
  }

  lemma PairIdsDiffer(stem: string)
    ensures stem + "-traversal" != stem + "-equality"
  {
    assert |stem + "-traversal"| != |stem + "-equality"|;
  }

  lemma EmittedPair(source: Source, rows: seq<Triple>, alternative: nat, key: string, names: Names, traversal: bool)
    requires PathShape(source, rows) && alternative != rows[|rows| - 1].obj
    ensures var base := VariantRows(rows, alternative, names, false);
            var changed := Change(rows, alternative, names, true).value;
            var k := if traversal then 0 else 1;
            TwinPair(Originals(rows, alternative, key, names)[k], Counterfactuals(rows, alternative, key, names)[k],
              base, changed, rows[|rows| - 1].obj, alternative, names.factId)
  {
    DeclaresVariant(rows, alternative, key, names, false);
    DeclaresVariant(rows, alternative, key, names, true);
    DeclaresVariantEnds(rows, alternative, key, names, false);
    DeclaresVariantEnds(rows, alternative, key, names, true);
    AnswersFlip(rows, alternative, key, names);
  }

  lemma EmittedTwinPairs(source: Source, rows: seq<Triple>, alternative: nat, key: string, names: Names)
    requires PathShape(source, rows) && alternative != rows[|rows| - 1].obj
    ensures TwinPairs(Originals(rows, alternative, key, names), Counterfactuals(rows, alternative, key, names),
      VariantRows(rows, alternative, names, false),
                      Change(rows, alternative, names, true).value, rows[|rows| - 1].obj, alternative, names.factId)
  {
    var os, cs := Originals(rows, alternative, key, names), Counterfactuals(rows, alternative, key, names);
    PairIdsDiffer(PairStem(key, names));
    EmittedPair(source, rows, alternative, key, names, true);
    EmittedPair(source, rows, alternative, key, names, false);
    forall o, c | o in os && c in cs && o.meta.pairId == c.meta.pairId
      ensures (o == os[0] && c == cs[0]) || (o == os[1] && c == cs[1])
    {
    }
  }

  lemma EmittedIds(rows: seq<Triple>, alternative: nat, key: string, names: Names)
    requires rows != []
    ensures var os, cs := Originals(rows, alternative, key, names), Counterfactuals(rows, alternative, key, names);
            os[0].meta.pairId != os[1].meta.pairId && Pairing(os) == Pairing(cs) && os[0].task != os[1].task
  {
    PairIdsDiffer(PairStem(key, names));
    PairingOfTwo(Originals(rows, alternative, key, names));
    PairingOfTwo(Counterfactuals(rows, alternative, key, names));
  }

  /** The row replay accepts whatever is emitted for a path and another object of its last
      relation's range. */
  lemma EmittedTwins(source: Source, rows: seq<Triple>, alternative: nat, key: string, names: Names)
    requires PathShape(source, rows) && alternative != rows[|rows| - 1].obj
    ensures TwinSet(VariantRows(rows, alternative, names, false), Originals(rows, alternative, key, names),
      Counterfactuals(rows, alternative, key, names), names.factId)
  {
    Changes(source, rows, alternative, names);
    EmittedIds(rows, alternative, key, names);
    EmittedTwinPairs(source, rows, alternative, key, names);
  }

  /** A store that returns every row of the path. */
  predicate Holds(store: map<Address, GraphRow>, base: seq<GraphRow>) {
    forall i | 0 <= i < |base| :: base[i].Addr() in store && store[base[i].Addr()] == base[i]
  }

  lemma BaseWalks(source: Source, rows: seq<Triple>, names: Names, store: map<Address, GraphRow>, item: Item,
                  alternative: nat)
    requires PathShape(source, rows) && Holds(store, VariantRows(rows, alternative, names, false))
    requires item.meta.addresses == Addresses(VariantRows(rows, alternative, names, false))
      && item.meta.rootSlot == rows[0].subject
    ensures Walks(store, item, VariantRows(rows, alternative, names, false))
  {
    BaseRowsChain(rows, Provenance(names));
  }

  /** One row overlaid at the last address: every other address still returns its base row. */
  lemma OverlayWalks(source: Source, rows: seq<Triple>, names: Names, store: map<Address, GraphRow>, item: Item,
                     alternative: nat)
    requires PathShape(source, rows) && Holds(store, VariantRows(rows, alternative, names, false))
      && alternative != rows[|rows| - 1].obj
    requires item.meta.addresses == Addresses(VariantRows(rows, alternative, names, true))
      && item.meta.rootSlot == rows[0].subject
    ensures Overlay(store, Change(rows, alternative, names, true).value).Some?
    ensures Walks(Overlay(store, Change(rows, alternative, names, true).value).value, item,
      VariantRows(rows, alternative, names, true))
  {
    var base := VariantRows(rows, alternative, names, false);
    var changed := Change(rows, alternative, names, true).value;
    Changes(source, rows, alternative, names);
    DistinctAddresses(source, rows, Provenance(names));
    var after := VariantRows(rows, alternative, names, true);
    assert after == WithLast(base, changed);
    var overlay := Overlay(store, changed).value;
    forall i | 0 <= i < |after|
      ensures after[i].Addr() in overlay && overlay[after[i].Addr()] == after[i]
    {
      if i < |rows| - 1 {
        assert after[i] == base[i];
        assert Addresses(base)[i] != Addresses(base)[|rows| - 1];
      }
    }
  }

  /** The audit confirms each emitted pair on any store that holds the path's rows. */
  lemma EmittedConfirmed(source: Source, rows: seq<Triple>, alternative: nat, key: string, names: Names,
                         store: map<Address, GraphRow>, traversal: bool)
    requires PathShape(source, rows) && alternative != rows[|rows| - 1].obj
      && Holds(store, VariantRows(rows, alternative, names, false))
    ensures var k := if traversal then 0 else 1;
            Confirms(store, Originals(rows, alternative, key, names)[k],
              Counterfactuals(rows, alternative, key, names)[k], names.factId)
  {
    var k := if traversal then 0 else 1;
    var o, c := Originals(rows, alternative, key, names)[k], Counterfactuals(rows, alternative, key, names)[k];
    EmittedPair(source, rows, alternative, key, names, traversal);
    Changes(source, rows, alternative, names);
    BaseWalks(source, rows, names, store, o, alternative);
    OverlayWalks(source, rows, names, store, c, alternative);
    assert PairConfirmed(store, o, c, VariantRows(rows, alternative, names, false), names.factId);
  }
}
