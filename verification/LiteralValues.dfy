/** The literal values of generated worlds: zero-padded decimals, dates and categories
    (srgm_worlds.py, _literal_value, _random_date, _category_values and the literals of
    _generate_legacy_world). */
module LiteralValues {
  import opened Wrappers
  import opened GraphRows
  import opened LiteralPairs

  datatype LiteralKind = Date | Quantity | Category | Text

  datatype LiteralSpec = LiteralSpec(relation: string, kind: LiteralKind)

  // ----- zero-padded decimals -----

  /** At least `width` digits, filled up with zeros on the left. */
  function Padded(n: nat, width: nat): (s: string)
    ensures |s| >= width
  {
    if width <= 1 then Print(n) else Padded(n / 10, width - 1) + [Digit(n % 10)]
  }

  lemma {:induction false} DigitsAppend(s: string, d: nat)
    requires d < 10 && Digits(s).Some?
    ensures Digits(s + [Digit(d)]) == Some(10 * Digits(s).value + d)
  {
    assert (s + [Digit(d)])[..|s|] == s;
  }

  lemma {:induction false} PaddedReads(n: nat, width: nat)
    ensures Digits(Padded(n, width)) == Some(n)
  {
    if width <= 1 {
      PrintReads(n);
    } else {
      PaddedReads(n / 10, width - 1);
      DigitsAppend(Padded(n / 10, width - 1), n % 10);
    }
  }

  lemma {:induction false} PaddedDiffer(m: nat, n: nat, width: nat)
    ensures Padded(m, width) == Padded(n, width) <==> m == n
  {
    PaddedReads(m, width);
    PaddedReads(n, width);
  }

  predicate IsDigit(c: char) { '0' <= c <= '9' }

  lemma {:induction false} PrintIsDigits(n: nat)
    ensures forall i | 0 <= i < |Print(n)| :: IsDigit(Print(n)[i])
  {
    if n >= 10 {
      PrintIsDigits(n / 10);
    }
  }

  lemma {:induction false} PaddedIsDigits(n: nat, width: nat)
    ensures forall i | 0 <= i < |Padded(n, width)| :: IsDigit(Padded(n, width)[i])
  {
    if width <= 1 {
      PrintIsDigits(n);
    } else {
      PaddedIsDigits(n / 10, width - 1);
    }
  }

  /** Two digits. */
  lemma {:induction false} PaddedTwo(n: nat)
    requires n < 100
    ensures Padded(n, 2) == [Digit(n / 10), Digit(n % 10)]
  {
  }

  /** Four digits. */
  lemma {:induction false} PaddedFour(n: nat)
    requires n < 10000
    ensures |Padded(n, 4)| == 4 && Padded(n, 4)[0] == Digit(n / 1000)
  {
    assert Padded(n, 4) == Padded(n / 10, 3) + [Digit(n % 10)];
    assert Padded(n / 10, 3) == Padded(n / 10 / 10, 2) + [Digit(n / 10 % 10)];
    PaddedTwo(n / 10 / 10);
    assert n / 10 / 10 / 10 == n / 1000;
  }

  // ----- dates -----

  /** The date of a year, a month and a day. */
  function DateString(year: nat, month: nat, day: nat): string {
    Padded(year, 4) + "-" + Padded(month, 2) + "-" + Padded(day, 2)
  }

  lemma {:induction false} DateStringIsDate(year: nat, month: nat, day: nat)
    requires 1000 <= year < 9000 && month < 100 && day < 100
    ensures IsDate(DateString(year, month, day))
  {
    PaddedFour(year);
    PaddedTwo(month);
    PaddedTwo(day);
    PaddedIsDigits(year, 4);
    PaddedIsDigits(month, 2);
    PaddedIsDigits(day, 2);
    var d := DateString(year, month, day);
    forall i | 0 <= i < |d|
      ensures d[i] != ':'
    {
    }
  }

  /** A date string determines its year, month and day. */
  lemma {:induction false} DatesDiffer(year: nat, month: nat, day: nat, year2: nat, month2: nat, day2: nat)
    requires year < 10000 && year2 < 10000 && month < 100 && month2 < 100 && day < 100 && day2 < 100
    ensures DateString(year, month, day) == DateString(year2, month2, day2) <==>
      year == year2 && month == month2 && day == day2
  {
    var d, e := DateString(year, month, day), DateString(year2, month2, day2);
    PaddedFour(year);
    PaddedFour(year2);
    PaddedTwo(month);
    PaddedTwo(month2);
    assert d[..4] == Padded(year, 4) && e[..4] == Padded(year2, 4);
    assert d[5..7] == Padded(month, 2) && e[5..7] == Padded(month2, 2);
    assert d[8..] == Padded(day, 2) && e[8..] == Padded(day2, 2);
    PaddedDiffer(year, year2, 4);
    PaddedDiffer(month, month2, 2);
    PaddedDiffer(day, day2, 2);
  }

  /** Where a date relation of a schema-shaped world puts a local id. */
  function YearOf(local: nat, index: nat): nat { 1000 + (local * 37 + index * 101) % 8000 }

  function MonthOf(local: nat, index: nat): nat { 1 + (local * 7 + index) % 12 }

  function DayOf(local: nat, index: nat): nat { 1 + (local * 11 + index) % 28 }

  function DateOf(local: nat, index: nat): (d: string)
    ensures IsDate(d)
  {
    DateStringIsDate(YearOf(local, index), MonthOf(local, index), DayOf(local, index));
    DateString(YearOf(local, index), MonthOf(local, index), DayOf(local, index))
  }

  /** After how many local ids the dates of a relation start over. */
  const DATE_PERIOD := 168000

  ghost predicate WholePeriods(d: int) { d % DATE_PERIOD == 0 }

  lemma {:induction false} YearsCoincide(i: nat, j: nat, index: nat)
    ensures YearOf(i, index) == YearOf(j, index) <==> (i - j) % 8000 == 0
  {
    var x, y := i * 37 + index * 101, j * 37 + index * 101;
    var q := x / 8000 - y / 8000;
    if x % 8000 == y % 8000 {
      assert 37 * (i - j) == 8000 * q;
      assert i - j == 8000 * (4973 * q - 23 * (i - j));
    }
    if (i - j) % 8000 == 0 {
      YearsRepeat(x, y, (i - j) / 8000);
    }
  }

  lemma {:induction false} YearsRepeat(x: nat, y: nat, k: int)
    requires x - y == 37 * 8000 * k
    ensures x % 8000 == y % 8000
  {
    assert x == 8000 * (y / 8000 + 37 * k) + y % 8000;
  }

  lemma {:induction false} MonthsCoincide(i: nat, j: nat, index: nat)
    ensures MonthOf(i, index) == MonthOf(j, index) <==> (i - j) % 12 == 0
  {
    var x, y := i * 7 + index, j * 7 + index;
    var q := x / 12 - y / 12;
    if x % 12 == y % 12 {
      assert 7 * (i - j) == 12 * q;
      assert i - j == 12 * (7 * q - 4 * (i - j));
    }
    if (i - j) % 12 == 0 {
      var k := (i - j) / 12;
      assert x == 12 * (y / 12 + 7 * k) + y % 12;
    }
  }

  lemma {:induction false} DaysCoincide(i: nat, j: nat, index: nat)
    ensures DayOf(i, index) == DayOf(j, index) <==> (i - j) % 28 == 0
  {
    var x, y := i * 11 + index, j * 11 + index;
    var q := x / 28 - y / 28;
    if x % 28 == y % 28 {
      assert 11 * (i - j) == 28 * q;
      assert i - j == 28 * (23 * q - 9 * (i - j));
    }
    if (i - j) % 28 == 0 {
      var k := (i - j) / 28;
      assert x == 28 * (y / 28 + 11 * k) + y % 28;
    }
  }

  /** 168000 is the least common multiple of 8000, 12 and 28. */
  lemma {:induction false} CommonMultiple(d: int)
    ensures d % DATE_PERIOD == 0 <==> d % 8000 == 0 && d % 12 == 0 && d % 28 == 0
  {
    if d % DATE_PERIOD == 0 {
      Split(d, d / DATE_PERIOD);
    } else if d % 8000 == 0 && d % 12 == 0 && d % 28 == 0 {
      Combine(d, d / 8000, d / 12, d / 28);
    }
  }

  lemma {:induction false} Split(d: int, k: int)
    requires d == DATE_PERIOD * k
    ensures d % 8000 == 0 && d % 12 == 0 && d % 28 == 0
  {
    Whole(21 * k);
    Whole(14000 * k);
    Whole(6000 * k);
  }

  lemma {:induction false} Whole(k: int)
    ensures (8000 * k) % 8000 == (12 * k) % 12 == (28 * k) % 28 == 0
  {
  }

  lemma {:induction false} Combine(d: int, a: int, b: int, c: int)
    requires d == 8000 * a == 12 * b == 28 * c
    ensures d % DATE_PERIOD == 0
  {
    assert d == DATE_PERIOD * (381 * a + (-4) * b + 8 * c);
  }

  /** Two local ids have the same date exactly when they agree modulo the period. */
  lemma {:induction false} DatesCoincide(i: nat, j: nat, index: nat)
    ensures DateOf(i, index) == DateOf(j, index) <==> WholePeriods(i - j)
  {
    DatesDiffer(YearOf(i, index), MonthOf(i, index), DayOf(i, index), YearOf(j, index), MonthOf(j, index),
      DayOf(j, index));
    YearsCoincide(i, j, index);
    MonthsCoincide(i, j, index);
    DaysCoincide(i, j, index);
    CommonMultiple(i - j);
  }

  // ----- the literals of a schema-shaped world -----

  function Prefix(payload: string, relation: string): string { payload + ":" + relation }

  /** The k-th of a relation's categories. */
  function CategoryOf(payload: string, relation: string,
                      k: nat): string { Prefix(payload, relation) + ":" + Padded(k, 4) }

  lemma {:induction false} CategoriesOfDiffer(payload: string, relation: string, k: nat, l: nat)
    ensures CategoryOf(payload, relation, k) == CategoryOf(payload, relation, l) <==> k == l
  {
    var head := Prefix(payload, relation) + ":";
    assert CategoryOf(payload, relation, k) == head + Padded(k, 4)
      && CategoryOf(payload, relation, l) == head + Padded(l, 4);
    assert (head + Padded(k, 4))[|head|..] == Padded(k, 4) && (head + Padded(l, 4))[|head|..] == Padded(l, 4);
    PaddedDiffer(k, l, 4);
  }

  /** What the index-th literal relation of a world of n entities says of a local id. */
  function LiteralValue(spec: LiteralSpec, payload: string, local: nat, index: nat, n: nat): string {
    match spec.kind
    case Date => DateText(Some(Prefix(payload, spec.relation)), DateOf(local, index))
    case Quantity => Prefix(payload, spec.relation) + ":" + Padded(local * 104729 + index * 10007, 20)
    case Category => CategoryOf(payload, spec.relation, Pick(local, CategoryCount(n)))
    case Text => Prefix(payload, spec.relation) + ":value-" + Padded(local, 12)
  }

  /** A decimal of at least so many digits. */
  ghost predicate Writes(s: string, n: nat, width: nat) {
    |s| >= width && Digits(s) == Some(n)
  }

  /** What stands behind the namespace and the relation: the date that the local id and the place of
      the relation give, their number, one of the categories in turn, or the local id. */
  ghost predicate Says(rest: string, kind: LiteralKind, local: nat, index: nat, n: nat) {
    match kind
    case Date =>
      |rest| == 10 && rest[4] == rest[7] == '-' && Writes(rest[..4], 1000 + (local * 37 + index * 101) % 8000, 4)
      && Writes(rest[5..7], 1 + (local * 7 + index) % 12, 2) && Writes(rest[8..], 1 + (local * 11 + index) % 28, 2)
    case Quantity => Writes(rest, 104_729 * local + 10_007 * index, 20)
    case Category => Writes(rest, local % CategoryCount(n), 4)
    case Text => |rest| >= 6 && rest[..6] == "value-" && Writes(rest[6..], local, 12)
  }

  lemma {:induction false} DateSays(local: nat, index: nat, n: nat)
    ensures Says(DateOf(local, index), Date, local, index, n)
  {
    var year, month, day := YearOf(local, index), MonthOf(local, index), DayOf(local, index);
    PaddedReads(year, 4);
    PaddedReads(month, 2);
    PaddedReads(day, 2);
    PaddedFour(year);
    PaddedTwo(month);
    PaddedTwo(day);
    var rest := DateString(year, month, day);
    assert rest[..4] == Padded(year, 4) && rest[5..7] == Padded(month, 2) && rest[8..] == Padded(day, 2);
  }

  lemma {:induction false} TextSplits(head: string, t: string)
    ensures head + ":value-" + t == head + ":" + ("value-" + t)
    ensures ("value-" + t)[..6] == "value-" && ("value-" + t)[6..] == t
  {
    assert ":value-" == ":" + "value-";
  }

  /** A literal's text: the namespace, the relation, and what is said of the local id. */
  lemma {:induction false} ValueSays(spec: LiteralSpec, payload: string, local: nat, index: nat, n: nat)
    returns (rest: string)
    ensures LiteralValue(spec, payload, local, index, n) == payload + ":" + spec.relation + ":" + rest
    ensures Says(rest, spec.kind, local, index, n)
  {
    match spec.kind
    case Date =>
      rest := DateOf(local, index);
      DateSays(local, index, n);
    case Quantity =>
      rest := Padded(local * 104729 + index * 10007, 20);
      PaddedReads(local * 104729 + index * 10007, 20);
    case Category =>
      rest := Padded(Pick(local, CategoryCount(n)), 4);
      PaddedReads(Pick(local, CategoryCount(n)), 4);
    case Text =>
      rest := "value-" + Padded(local, 12);
      PaddedReads(local, 12);
      TextSplits(Prefix(payload, spec.relation), Padded(local, 12));
  }

  // ----- the literals of a legacy world -----

  datatype DateDraw = DateDraw(year: nat, month: nat, day: nat)

  ghost predicate InRange(d: DateDraw) { d.year < 76 && d.month < 12 && d.day < 28 }

  function RandomDate(d: DateDraw): (date: string)
    requires InRange(d)
    ensures IsDate(date)
  {
    DateStringIsDate(1930 + d.year, 1 + d.month, 1 + d.day);
    DateString(1930 + d.year, 1 + d.month, 1 + d.day)
  }

  const SPARE_DATE := "2099-12-31"

  lemma {:induction false} SpareDateDiffers(d: DateDraw)
    requires InRange(d)
    ensures RandomDate(d) != SPARE_DATE && IsDate(SPARE_DATE)
  {
    PaddedFour(1930 + d.year);
    PaddedTwo(1 + d.month);
    PaddedTwo(1 + d.day);
    assert RandomDate(d)[8] == Digit((1 + d.day) / 10) && SPARE_DATE[8] == '3';
  }

  /** The dates of a legacy world: in a world of two entities or more they are not all the same,
      whatever is drawn. */
  method LegacyDates(draws: seq<DateDraw>) returns (dates: seq<string>)
    requires forall i | 0 <= i < |draws| :: InRange(draws[i])
    ensures |dates| == |draws| && forall i | 0 <= i < |dates| :: IsDate(dates[i])
    ensures |draws| > 1 ==> exists i :: 0 <= i < |dates| && dates[i] != dates[0]
    ensures forall i | 0 <= i < |draws| - 1 :: dates[i] == RandomDate(draws[i])
    ensures (exists i :: 0 <= i < |draws| && RandomDate(draws[i]) != RandomDate(draws[0])) ==>
      dates[|draws| - 1] == RandomDate(draws[|draws| - 1])
  {
    dates := seq(|draws|, i requires 0 <= i < |draws| => RandomDate(draws[i]));
    var last := |dates| - 1;
    var uniform := forall i | 0 <= i < |dates| :: dates[i] == dates[0];
    if !uniform {
      var i :| 0 <= i < |dates| && dates[i] != dates[0];
    } else if |draws| > 1 {
      SpareDateDiffers(draws[0]);
      dates := dates[last := SPARE_DATE];
      assert dates[last] != dates[0];
    }
  }

  /** The categories of a legacy world before they are shuffled. */
  ghost function LegacyCategories(labels: seq<nat>, n: nat): (values: seq<string>)
    requires labels != []
    ensures |values| == n
  {
    seq(n, i requires 0 <= i < n => CATEGORY + Print(labels[i % |labels|]))
  }

  lemma {:induction false} TwicePresent(s: seq<string>, x: string)
    requires multiset(s)[x] >= 2
    ensures exists i, j :: 0 <= i < j < |s| && s[i] == s[j] == x
  {
    var i :| 0 <= i < |s| && s[i] == x;
    var rest := s[..i] + s[i + 1..];
    assert s == s[..i] + [x] + s[i + 1..];
    assert multiset(rest)[x] >= 1;
    var j :| 0 <= j < |rest| && rest[j] == x;
    assert if j < i then s[j] == x else s[j + 1] == x;
  }

  lemma {:induction false} TwicePlaced(s: seq<string>, i: nat, j: nat)
    requires i < j < |s| && s[i] == s[j]
    ensures multiset(s)[s[i]] >= 2
  {
    assert s == s[..i] + [s[i]] + s[i + 1..j] + [s[j]] + s[j + 1..];
  }

  /** However the categories of sixteen entities or more are shuffled, two agree and two do not. */
  lemma {:induction false} ShuffledCategoriesSuffice(labels: seq<nat>, n: nat, values: seq<string>)
    requires n >= 16 && |labels| == CategoryCount(n)
    requires forall k, l | 0 <= k < l < |labels| :: labels[k] != labels[l]
    requires multiset(values) == multiset(LegacyCategories(labels, n))
    ensures exists i, j :: 0 <= i < j < |values| && values[i] == values[j]
    ensures exists i, j :: 0 <= i < |values| && 0 <= j < |values| && values[i] != values[j]
  {
    var ordered := LegacyCategories(labels, n);
    var count := CategoryCount(n);
    FirstAndLast(count);
    assert Pick(count, count) == count % count && Pick(1, count) == 1 % count;
    assert ordered[0] == ordered[count] == CATEGORY + Print(labels[0]) && ordered[1] == CATEGORY + Print(labels[1]);
    TwicePlaced(ordered, 0, count);
    TwicePresent(values, ordered[0]);
    assert ordered[0] != ordered[1] by {
      PrintReads(labels[0]);
      PrintReads(labels[1]);
      assert ordered[0][|CATEGORY|..] == Print(labels[0]) && ordered[1][|CATEGORY|..] == Print(labels[1]);
    }
    assert ordered[0] in multiset(values) && ordered[1] in multiset(values);
    assert ordered[0] in values && ordered[1] in values;
  }
}
