/** The date-ordering and balanced-equality pairs: which rows are drawn, and why their edits
    always flip the answer (srgm_worlds.py, _date_pair, _category_groups, _category_pair,
    _different_category and the literal branches of _generate_eval_pairs). */
module LiteralPairs {
  import opened Wrappers
  import opened GraphRows

  /** Entities' literal targets for one relation. */
  type Values = map<nat, string>

  // ----- string order -----

  /** The comparison of two strings from position i on, code point by code point. */
  predicate LessFrom(s: string, t: string, i: nat)
    requires i <= |s| && i <= |t|
    decreases |s| - i
  {
    if i == |t| then false
    else if i == |s| then true
    else s[i] < t[i] || (s[i] == t[i] && LessFrom(s, t, i + 1))
  }

  predicate Less(s: string, t: string) { LessFrom(s, t, 0) }

  /** The order of a dictionary: a proper beginning comes first, and otherwise the first difference
      decides. */
  ghost predicate ComesFirst(s: string, t: string) {
    s < t || exists i :: 0 <= i < |s| && i < |t| && s[..i] == t[..i] && s[i] < t[i]
  }

  lemma {:induction false} LessFromMeans(s: string, t: string, i: nat)
    requires i <= |s| && i <= |t| && s[..i] == t[..i]
    ensures LessFrom(s, t, i) <==> ComesFirst(s, t)
    decreases |s| - i
  {
    if i < |s| && i < |t| {
      if s[i] == t[i] {
        assert s[..i + 1] == s[..i] + [s[i]] && t[..i + 1] == t[..i] + [t[i]];
        LessFromMeans(s, t, i + 1);
      } else {
        DifferAt(s, t, i);
      }
    } else {
      OneEnds(s, t, i);
    }
  }

  lemma {:induction false} DifferAt(s: string, t: string, i: nat)
    requires i < |s| && i < |t| && s[..i] == t[..i] && s[i] != t[i]
    ensures ComesFirst(s, t) <==> s[i] < t[i]
  {
    forall j | 0 <= j < |s| && j < |t|
      ensures j < i ==> s[j] == t[j]
      ensures j > i ==> s[..j] != t[..j]
    {
      if j < i {
        assert s[j] == s[..i][j] && t[j] == t[..i][j];
      } else if j > i {
        assert s[..j][i] == s[i] && t[..j][i] == t[i];
      }
    }
  }

  lemma {:induction false} OneEnds(s: string, t: string, i: nat)
    requires (i == |s| <= |t| || i == |t| <= |s|) && s[..i] == t[..i]
    ensures ComesFirst(s, t) <==> i == |s| && i < |t|
  {
    forall j | 0 <= j < |s| && j < |t|
      ensures s[j] == t[j]
    {
      assert s[..i][j] == t[..i][j];
    }
    if i == |s| < |t| {
      assert s == s[..i] && t[..i] <= t;
    }
  }

  lemma {:induction false} LessMeans(s: string, t: string)
    ensures Less(s, t) <==> ComesFirst(s, t)
  {
    LessFromMeans(s, t, 0);
  }

  lemma {:induction false} LessTotal(s: string, t: string, i: nat)
    requires i <= |s| && i <= |t| && s[..i] == t[..i]
    ensures LessFrom(s, t, i) || LessFrom(t, s, i) || s == t
    ensures !(LessFrom(s, t, i) && LessFrom(t, s, i))
    decreases |s| - i
  {
    if i < |s| && i < |t| && s[i] == t[i] {
      assert s[..i + 1] == s[..i] + [s[i]] && t[..i + 1] == t[..i] + [t[i]];
      LessTotal(s, t, i + 1);
    } else {
      assert i == |s| == |t| ==> s == s[..i] && t == t[..i];
    }
  }

  lemma {:induction false} LessShifted(p: string, s: string, t: string, i: nat)
    requires i <= |s| && i <= |t|
    ensures LessFrom(p + s, p + t, |p| + i) == LessFrom(s, t, i)
    decreases |s| - i
  {
    if i < |s| && i < |t| {
      LessShifted(p, s, t, i + 1);
    }
  }

  /** A common prefix does not matter. */
  lemma {:induction false} LessAfterPrefix(p: string, s: string, t: string, i: nat)
    requires i <= |p|
    ensures LessFrom(p + s, p + t, i) == Less(s, t)
    decreases |p| - i
  {
    if i == |p| {
      LessShifted(p, s, t, 0);
    } else {
      LessAfterPrefix(p, s, t, i + 1);
    }
  }

  // ----- dates -----

  const LATEST := "9999-12-31"
  const EARLIEST := "0001-01-01"

  /** A date both world generators write: ten characters, no colon, a year from 1000 to 8999. */
  ghost predicate IsDate(d: string) {
    |d| == 10 && ':' !in d && '1' <= d[0] <= '8'
  }

  /** A date with the namespace schema-shaped worlds put before it. */
  function DateText(prefix: Option<string>, date: string): string {
    if prefix.None? then date else prefix.value + ":" + date
  }

  /** Where rpartition(':') splits. */
  function LastColon(s: string, n: nat): (i: Option<nat>)
    requires n <= |s|
    ensures i.Some? ==> i.value < n && s[i.value] == ':'
  {
    if n == 0 then None else if s[n - 1] == ':' then Some(n - 1) else LastColon(s, n - 1)
  }

  lemma {:induction false} ColonFound(head: string, tail: string, n: nat)
    requires ':' !in tail && |head| + 1 <= n <= |head| + 1 + |tail|
    ensures LastColon(head + ":" + tail, n) == Some(|head|)
  {
    var s := head + ":" + tail;
    if n > |head| + 1 {
      assert s[n - 1] == tail[n - 2 - |head|];
      ColonFound(head, tail, n - 1);
    } else {
      assert s[|head|] == ':';
    }
  }

  lemma {:induction false} NoColonFound(s: string, n: nat)
    requires n <= |s| && ':' !in s
    ensures LastColon(s, n) == None
  {
    if n > 0 {
      NoColonFound(s, n - 1);
    }
  }

  /** The edited target: the same namespace, another date. */
  function Redated(value: string, date: string): string {
    var colon := LastColon(value, |value|);
    if colon.None? then date else value[..colon.value] + ":" + date
  }

  lemma RedatedKeepsPrefix(prefix: Option<string>, old_: string, date: string)
    requires IsDate(old_)
    ensures Redated(DateText(prefix, old_), date) == DateText(prefix, date)
  {
    if prefix.None? {
      NoColonFound(old_, |old_|);
    } else {
      var value := DateText(prefix, old_);
      ColonFound(prefix.value, old_, |value|);
      assert value[..|prefix.value|] == prefix.value;
    }
  }

  lemma DatesCompare(prefix: Option<string>, s: string, t: string)
    ensures Less(DateText(prefix, s), DateText(prefix, t)) == Less(s, t)
  {
    if prefix.Some? {
      var p := prefix.value + ":";
      assert p + s == DateText(prefix, s) && p + t == DateText(prefix, t);
      LessAfterPrefix(p, s, t, 0);
    }
  }

  lemma ExtremeDates(d: string)
    requires IsDate(d)
    ensures Less(EARLIEST, d) && !Less(d, EARLIEST) && Less(d, LATEST) && !Less(LATEST, d)
  {
    assert EARLIEST[0] == '0' && LATEST[0] == '9';
  }

  datatype Orders = Orders(a: nat, b: nat)

  /** Up to 1000 draws: the first whose targets differ, put in the wanted order. */
  method DatePair(values: Values, draws: seq<Orders>, earlierFirst: bool) returns (pair: Option<Orders>)
    requires |draws| == 1000 && forall k | 0 <= k < |draws| :: draws[k].a in values && draws[k].b in values
    ensures pair.None? <==> forall k | 0 <= k < |draws| :: values[draws[k].a] == values[draws[k].b]
    ensures pair.Some? ==>
      pair.value.a in values && pair.value.b in values && values[pair.value.a] != values[pair.value.b]
    ensures pair.Some? ==> Less(values[pair.value.a], values[pair.value.b]) == earlierFirst
    ensures pair.Some? ==> exists k | 0 <= k < |draws| ::
      && (forall j | 0 <= j < k :: values[draws[j].a] == values[draws[j].b])
      && (pair.value == draws[k] || pair.value == Orders(draws[k].b, draws[k].a))
  {
    for k := 0 to |draws|
      invariant forall j | 0 <= j < k :: values[draws[j].a] == values[draws[j].b]
    {
      var a, b := draws[k].a, draws[k].b;
      if values[a] != values[b] {
        LessTotal(values[a], values[b], 0);
        if Less(values[a], values[b]) != earlierFirst {
          a, b := b, a;
        }
        return Some(Orders(a, b));
      }
    }
    pair := None;
  }

  datatype Twin = Twin(answer: string, flipped: string, changed: string)

  function EarlierSlot(a: string, b: string): string { if Less(a, b) then "<|slot_0|>" else "<|slot_1|>" }

  /** The far end to which slot zero's date is moved. */
  ghost function FarDate(a: string, b: string): string {
    if EarlierSlot(a, b) == "<|slot_0|>" then LATEST else EARLIEST
  }

  /** The answer once slot zero's date is at the far end. */
  ghost function FarAnswer(a: string, b: string): string { EarlierSlot(Redated(a, FarDate(a, b)), b) }

  /** The date-ordering twin: the answer is the earlier slot, and slot zero's date is moved to the
      far end. None is the source's assertion that the answer has flipped. */
  method MakeDateTwin(a: string, b: string) returns (twin: Option<Twin>)
    ensures twin.None? <==> FarAnswer(a, b) == EarlierSlot(a, b)
    ensures twin.Some? ==> twin.value.answer == EarlierSlot(a, b) && twin.value.changed == Redated(a, FarDate(a, b))
    ensures twin.Some? ==>
      twin.value.flipped == EarlierSlot(twin.value.changed, b) && twin.value.flipped != twin.value.answer
  {
    var answer := EarlierSlot(a, b);
    var changed := Redated(a, if answer == "<|slot_0|>" then LATEST else EARLIEST);
    var flipped := EarlierSlot(changed, b);
    twin := if flipped == answer then None else Some(Twin(answer, flipped, changed));
  }

  /** Of two dates of one relation the far end always flips which is earlier. */
  lemma {:induction false} FarDateFlips(a: string, b: string, prefix: Option<string>, dateA: string, dateB: string)
    requires a == DateText(prefix, dateA) && b == DateText(prefix, dateB) && IsDate(dateA) && IsDate(dateB) && a != b
    ensures FarAnswer(a, b) != EarlierSlot(a, b) && Redated(a, FarDate(a, b)) == DateText(prefix, FarDate(a, b))
  {
    var date := FarDate(a, b);
    RedatedKeepsPrefix(prefix, dateA, date);
    DatesCompare(prefix, date, dateB);
    ExtremeDates(dateB);
    assert "<|slot_0|>"[7] != "<|slot_1|>"[7];
  }

  // ----- categories -----

  const CATEGORY := "category-"

  /** Another category than the given one. `number` is int() on strings. */
  function DifferentCategory(value: string, number: string -> Option<int>): string {
    if |CATEGORY| <= |value| && value[..|CATEGORY|] == CATEGORY && number(value[|CATEGORY|..]).Some?
    then CATEGORY + Print((number(value[|CATEGORY|..]).value + 1) % 64)
    else value + "-counterfactual"
  }

  /** It is another one for every string whatsoever, as long as int() reads decimals back. */
  lemma CategoriesDiffer(value: string, number: string -> Option<int>)
    requires forall n: nat :: number(Print(n)) == Some(n)
    ensures DifferentCategory(value, number) != value
  {
    if |CATEGORY| <= |value| && value[..|CATEGORY|] == CATEGORY && number(value[|CATEGORY|..]).Some? {
      var n := number(value[|CATEGORY|..]).value;
      var next := (n + 1) % 64;
      assert number(Print(next)) == Some(next);
      assert next != n;
      assert (CATEGORY + Print(next))[|CATEGORY|..] == Print(next);
    } else {
      assert |value + "-counterfactual"| > |value|;
    }
  }

  /** After a numbered category comes the next of sixty-four, after the last the first. */
  lemma {:induction false} NextCategory(n: nat, number: string -> Option<int>)
    requires n < 64 && forall m: nat :: number(Print(m)) == Some(m)
    ensures DifferentCategory("category-" + Print(n), number)
      == "category-" + Print(if n == 63 then 0 else n + 1)
  {
    var value := "category-" + Print(n);
    assert value[..|CATEGORY|] == CATEGORY && value[|CATEGORY|..] == Print(n);
  }

  ghost predicate AmongFirst(ids: seq<nat>, n: nat, e: nat)
    requires n <= |ids|
  {
    exists k :: 0 <= k < n && ids[k] == e
  }

  /** The entities of each category. */
  ghost predicate Grouped(groups: map<string, seq<nat>>, values: Values, ids: seq<nat>, n: nat) {
    && n <= |ids|
    && (forall v, e | v in groups && e in groups[v] :: e in values && values[e] == v && AmongFirst(ids, n, e))
    && (forall v | v in groups :: groups[v] != [])
    && (forall k | 0 <= k < n :: ids[k] in values && values[ids[k]] in groups && ids[k] in groups[values[ids[k]]])
    && forall v, i, j {:trigger groups[v][i], groups[v][j]} | v in groups && 0 <= i < j < |groups[v]| ::
         groups[v][i] != groups[v][j]
  }

  /** The groups, and their categories in the order in which they first appear. */
  method CategoryGroups(values: Values, ids: seq<nat>) returns (groups: map<string, seq<nat>>, categories: seq<string>)
    requires forall k | 0 <= k < |ids| :: ids[k] in values
    requires forall i, j {:trigger ids[i], ids[j]} | 0 <= i < j < |ids| :: ids[i] != ids[j]
    ensures Grouped(groups, values, ids, |ids|) && (forall v :: v in categories <==> v in groups)
      && NoRepeat(categories)
  {
    groups, categories := map[], [];
    for k := 0 to |ids|
      invariant Grouped(groups, values, ids, k) && (forall v :: v in categories <==> v in groups)
        && NoRepeat(categories)
    {
      var v, e := values[ids[k]], ids[k];
      GroupedGrows(groups, values, ids, k, v);
      if v !in groups {
        categories := categories + [v];
      }
      groups := groups[v := (if v in groups then groups[v] else []) + [e]];
    }
  }

  lemma {:induction false} GroupedGrows(groups: map<string, seq<nat>>, values: Values, ids: seq<nat>, k: nat, v: string)
    requires Grouped(groups, values, ids, k) && k < |ids| && ids[k] in values && v == values[ids[k]]
    requires forall i, j {:trigger ids[i], ids[j]} | 0 <= i < j < |ids| :: ids[i] != ids[j]
    ensures Grouped(groups[v := (if v in groups then groups[v] else []) + [ids[k]]], values, ids, k + 1)
  {
    var group := (if v in groups then groups[v] else []) + [ids[k]];
    var next := groups[v := group];
    assert !AmongFirst(ids, k, ids[k]) && AmongFirst(ids, k + 1, ids[k]);
    assert group[|group| - 1] == ids[k];
    forall w, e | w in next && e in next[w]
      ensures e in values && values[e] == w && AmongFirst(ids, k + 1, e)
    {
      if e != ids[k] {
        assert w in groups && e in groups[w];
        assert AmongFirst(ids, k, e);
      }
    }
    forall j | 0 <= j < k + 1
      ensures ids[j] in values && values[ids[j]] in next && ids[j] in next[values[ids[j]]]
    {
      if j < k {
        assert ids[j] in groups[values[ids[j]]];
      }
    }
    forall w | w in next
      ensures next[w] != []
    {
      assert w != v ==> w in groups;
    }
    forall w, i, j | w in next && 0 <= i < j < |next[w]|
      ensures next[w][i] != next[w][j]
    {
      if w == v && j == |group| - 1 {
        assert group[i] in groups[v];
      }
    }
  }

  function Pick(draw: nat, n: nat): (i: nat)
    requires n > 0
    ensures i < n
  {
    draw % n
  }

  /** A second, different choice. */
  function PickOther(draw: nat, i: nat, n: nat): (j: nat)
    requires i < n && n >= 2
    ensures j < n && j != i
  {
    if Pick(draw, n) != i then Pick(draw, n) else if i + 1 < n then i + 1 else 0
  }

  /** Two entities of one category. */
  method SameCategoryPair(groups: map<string, seq<nat>>, categories: seq<string>, ghost values: Values,
                          ghost ids: seq<nat>, first: nat, draw: Orders)
    returns (pair: Option<Orders>)
    requires Grouped(groups, values, ids, |ids|) && (forall v :: v in categories <==> v in groups)
    ensures pair.None? <==> forall v | v in groups :: |groups[v]| < 2
    ensures pair.Some? ==>
      pair.value.a in values && pair.value.b in values && pair.value.a != pair.value.b
      && values[pair.value.a] == values[pair.value.b]
  {
    var choices := Repeated(groups, categories, |categories|);
    assert categories[..|categories|] == categories;
    if choices == [] {
      assert forall v | v in groups :: v !in choices;
      return None;
    }
    var chosen := choices[Pick(first, |choices|)];
    assert chosen in choices;
    var group := groups[chosen];
    var i := Pick(draw.a, |group|);
    var j := PickOther(draw.b, i, |group|);
    assert group[i] in group && group[j] in group;
    pair := Some(Orders(group[i], group[j]));
  }

  /** One entity each of two categories. */
  method TwoCategoryPair(groups: map<string, seq<nat>>, categories: seq<string>, ghost values: Values,
                         ghost ids: seq<nat>, first: nat, second: nat, draw: Orders)
    returns (pair: Option<Orders>)
    requires Grouped(groups, values, ids, |ids|) && (forall v :: v in categories <==> v in groups)
      && NoRepeat(categories)
    ensures pair.None? <==> |categories| < 2
    ensures pair.Some? ==>
      pair.value.a in values && pair.value.b in values && values[pair.value.a] != values[pair.value.b]
  {
    if |categories| < 2 {
      return None;
    }
    var i := Pick(first, |categories|);
    var j := PickOther(second, i, |categories|);
    assert categories[i] in categories && categories[j] in categories && categories[i] != categories[j];
    var groupA, groupB := groups[categories[i]], groups[categories[j]];
    var a, b := groupA[Pick(draw.a, |groupA|)], groupB[Pick(draw.b, |groupB|)];
    assert a in groupA && b in groupB;
    pair := Some(Orders(a, b));
  }

  /** Two entities that agree, or two that do not: `first` and `second` choose the categories. */
  method CategoryPair(groups: map<string, seq<nat>>, categories: seq<string>, ghost values: Values, ghost ids: seq<nat>,
                      equal: bool,
                      first: nat, second: nat, draw: Orders) returns (pair: Option<Orders>)
    requires Grouped(groups, values, ids, |ids|) && (forall v :: v in categories <==> v in groups)
      && NoRepeat(categories)
    ensures pair.None? <==> if equal then forall v | v in groups :: |groups[v]| < 2 else |categories| < 2
    ensures pair.Some? ==> pair.value.a in values && pair.value.b in values && pair.value.a != pair.value.b
    ensures pair.Some? ==> (values[pair.value.a] == values[pair.value.b] <==> equal)
  {
    if equal {
      pair := SameCategoryPair(groups, categories, values, ids, first, draw);
    } else {
      pair := TwoCategoryPair(groups, categories, values, ids, first, second, draw);
    }
  }

  ghost predicate NoRepeat(s: seq<string>) {
    forall i, j {:trigger s[i], s[j]} | 0 <= i < j < |s| :: s[i] != s[j]
  }

  /** The categories with at least two entities. */
  function Repeated(groups: map<string, seq<nat>>, categories: seq<string>, n: nat): (choices: seq<string>)
    requires n <= |categories| && forall v | v in categories :: v in groups
    ensures forall v :: v in choices <==> v in categories[..n] && |groups[v]| >= 2
  {
    if n == 0 then []
    else
      Repeated(groups, categories, n - 1)
      + if |groups[categories[n - 1]]| >= 2 then [categories[n - 1]] else []
  }

  function SameAnswer(a: string, b: string): string { if a == b then "yes" else "no" }

  /** The balanced-equality twin: the answer says whether the two categories agree, and the
      edit makes them disagree or agree. */
  method MakeEqualityTwin(a: string, b: string, wantEqual: bool, number: string -> Option<int>) returns (twin: Twin)
    requires (a == b <==> wantEqual) && forall n: nat :: number(Print(n)) == Some(n)
    ensures twin.answer == SameAnswer(a, b) && twin.flipped == SameAnswer(twin.changed, b)
      && twin.flipped != twin.answer
  {
    CategoriesDiffer(b, number);
    var changed := if wantEqual then DifferentCategory(b, number) else b;
    twin := Twin(if wantEqual then "yes" else "no", SameAnswer(changed, b), changed);
  }

  /** How many categories a world of n entities cycles through. */
  function CategoryCount(n: nat): (count: nat)
    ensures 2 <= count <= 64 && (n >= 16 ==> count < n)
    ensures (count > 2 ==> 2 * count <= n) && (count < 64 ==> n <= 2 * count + 1)
  {
    var half := if n / 2 < 2 then 2 else n / 2;
    if half < 64 then half else 64
  }

  ghost predicate Gives(values: Values, e: nat, value: string) { e in values && values[e] == value }

  /** Sixteen entities suffice for both kinds of category pair: when local id i gets the
      (i mod count)-th of distinct categories, two share one and two do not. */
  lemma {:induction false} CategoriesSuffice(n: nat, category: nat -> string, values: Values, offset: nat)
    requires n >= 16 && forall i: nat, j: nat | i < CategoryCount(n) && j < CategoryCount(n)
      && category(i) == category(j) :: i == j
    requires forall i: nat | i < n :: Gives(values, offset + i, category(Pick(i, CategoryCount(n))))
    ensures 1 < CategoryCount(n) < n && offset in values && offset + CategoryCount(n) in values && offset + 1 in values
    ensures values[offset] == values[offset + CategoryCount(n)] && values[offset] != values[offset + 1]
  {
    var count := CategoryCount(n);
    FirstAndLast(count);
    assert Gives(values, offset + 0, category(Pick(0, count)));
    assert Gives(values, offset + count, category(Pick(count, count)))
      && Gives(values, offset + 1, category(Pick(1, count)));
  }

  /** Entities that agree make a repeated category, entities that do not two categories. */
  lemma {:induction false} GroupsSuffice(groups: map<string, seq<nat>>, values: Values, ids: seq<nat>, i: nat, j: nat)
    requires Grouped(groups, values, ids, |ids|) && i < |ids| && j < |ids| && ids[i] != ids[j]
    ensures values[ids[i]] in groups && values[ids[j]] in groups
    ensures values[ids[i]] == values[ids[j]] ==> |groups[values[ids[i]]]| >= 2
  {
    if values[ids[i]] == values[ids[j]] {
      var group := groups[values[ids[i]]];
      assert ids[i] in group && ids[j] in group;
    }
  }

  lemma FirstAndLast(count: nat)
    requires count >= 2
    ensures Pick(count, count) == 0 == Pick(0, count) && Pick(1, count) == 1
  {
  }
}
