/** The text of a dependency problem and its parser: what is printed parses back (igsm_lite.py,
    the statements and prompt of generate_problem, and solve_from_prompt). */
module IgsmText {
  import opened Wrappers
  import opened IgsmProblems
  import opened LazyRegex
  import GraphRows

  const OF := "The number of "
  const EQUALS := " equals the number of "
  const THE := " the number of "
  const MODULO := ", modulo 23."
  const OPS := ["plus", "minus", "times"]

  function WordOf(op: Op): string {
    match op case Plus => "plus" case Minus => "minus" case Times => "times"
  }

  /** What follows the left operand's name. */
  function Tail(op: Op, right: Operand): string {
    " " + (WordOf(op) +
           match right
           case Quantity(r) => THE + (r + MODULO)
           case Constant(c) => " " + (GraphRows.Print(c) + MODULO))
  }

  function Body(def: Definition): string
    requires LeftIsQuantity(def)
  {
    match def
    case Leaf(v) => " is " + (GraphRows.Print(v) + ".")
    case Internal(op, left, right) => EQUALS + (left.name + Tail(op, right))
  }

  /** The sentence, word for word. */
  ghost predicate Says(text: string, st: Statement) {
    match st.def
    case Leaf(v) => text == "The number of " + (st.name + (" is " + (GraphRows.Print(v) + ".")))
    case Internal(op, Quantity(l), right) =>
      var word := match op case Plus => "plus" case Minus => "minus" case Times => "times";
      var rest :=
        match right
        case Quantity(r) => " the number of " + (r + ", modulo 23.")
        case Constant(c) => " " + (GraphRows.Print(c) + ", modulo 23.");
      text == "The number of " + (st.name + (" equals the number of " + (l + (" " + (word + rest)))))
    case Internal(_, Constant(_), _) => false
  }

  function Sentence(st: Statement): (text: string)
    requires LeftIsQuantity(st.def)
    ensures Says(text, st)
  {
    OF + (st.name + Body(st.def))
  }

  // ----- the expressions -----

  function TwoNames(): Pattern { Lit(OF, Lazy(Lit(EQUALS, Lazy(AfterLeft(RightName()))))) }

  function NameAndNumber(): Pattern { Lit(OF, Lazy(Lit(EQUALS, Lazy(AfterLeft(RightNumber()))))) }

  function LeafPattern(): Pattern { Lit(OF, Lazy(IsNumber())) }

  function AfterLeft(right: Pattern): Pattern { Lit(" ", OneOf(OPS, right)) }

  function RightName(): Pattern { Lit(THE, Lazy(Lit(MODULO, End))) }

  function RightNumber(): Pattern { Lit(" ", Number(Lit(MODULO, End))) }

  function IsNumber(): Pattern { Lit(" is ", Number(Lit(".", End))) }

  /** int(). */
  function IntOf(s: string): nat {
    match GraphRows.Digits(s) case Some(n) => n case None => 0
  }

  function OpOf(word: string): Op {
    if word == "plus" then Plus else if word == "minus" then Minus else Times
  }

  /** Two names, then a name and a number, then a leaf. */
  function ParseSentence(s: string): Option<Statement> {
    match Run(TwoNames(), s)
    case Some(m) => Some(Statement(m[0], Internal(OpOf(m[2]), Quantity(m[1]), Quantity(m[3]))))
    case None =>
      match Run(NameAndNumber(), s)
      case Some(m) => Some(Statement(m[0], Internal(OpOf(m[2]), Quantity(m[1]), Constant(IntOf(m[3])))))
      case None =>
        match Run(LeafPattern(), s)
        case Some(m) => Some(Statement(m[0], Leaf(IntOf(m[1]))))
        case None => None
  }

  // ----- names -----

  predicate IsLetter(c: char) { 'a' <= c <= 'z' || 'A' <= c <= 'Z' }

  ghost predicate LettersAndSpaces(s: string) { forall i | 0 <= i < |s| :: IsLetter(s[i]) || s[i] == ' ' }

  const KEYS := ["equ", "plu", "min", "tim", "is"]

  /** A name that the sentences' own words cannot be mistaken for. */
  ghost predicate NameLike(a: string) {
    a != "" && LettersAndSpaces(a) && forall k | 0 <= k < |KEYS| :: Avoids(" " + a, KEYS[k])
  }

  lemma {:induction false} NameAvoids(a: string, k: nat)
    requires NameLike(a) && k < |KEYS|
    ensures Avoids(a, KEYS[k]) && NoSpace(KEYS[k])
  {
    AvoidsTail(" " + a, KEYS[k]);
    assert (" " + a)[1..] == a;
  }

  // ----- pieces -----

  lemma {:induction false} EndTakes(text: string)
    ensures Run(Lit(text, End), text) == Some([])
  {
    LitTakes(text, End, "");
    assert text + "" == text;
  }

  /** The last name: nothing in a name looks like a comma. */
  lemma {:induction false} LastNameTakes(r: string)
    requires NameLike(r)
    ensures Run(Lazy(Lit(MODULO, End)), r + MODULO) == Some([r])
  {
    var s := r + MODULO;
    EndTakes(MODULO);
    forall m | 1 <= m < |r|
      ensures Run(Lit(MODULO, End), s[m..]) == None
    {
      assert s[m..][0] == r[m];
    }
    LazyIs(Lit(MODULO, End), r, MODULO, s);
    assert [r] + [] == [r];
  }

  lemma {:induction false} RightNameTakes(r: string)
    requires NameLike(r)
    ensures Run(RightName(), THE + (r + MODULO)) == Some([r])
  {
    LastNameTakes(r);
    LitTakes(THE, Lazy(Lit(MODULO, End)), r + MODULO);
  }

  lemma {:induction false} PrintIsDigits(n: nat)
    ensures AllDigits(GraphRows.Print(n)) && GraphRows.Print(n) != ""
  {
    if n >= 10 {
      PrintIsDigits(n / 10);
    }
  }

  lemma {:induction false} DigitsTake(n: nat, after: string)
    requires after != "" && !IsDigit(after[0])
    ensures Run(Number(Lit(after, End)), GraphRows.Print(n) + after) == Some([GraphRows.Print(n)])
  {
    PrintIsDigits(n);
    EndTakes(after);
    NumberTakes(Lit(after, End), GraphRows.Print(n), after);
    assert [GraphRows.Print(n)] + [] == [GraphRows.Print(n)];
  }

  lemma {:induction false} RightNumberTakes(n: nat)
    ensures Run(RightNumber(), " " + (GraphRows.Print(n) + MODULO)) == Some([GraphRows.Print(n)])
  {
    DigitsTake(n, MODULO);
    LitTakes(" ", Number(Lit(MODULO, End)), GraphRows.Print(n) + MODULO);
  }

  ghost function PlaceOf(op: Op): (i: nat)
    ensures i < |OPS| && OPS[i] == WordOf(op)
  {
    match op case Plus => 0 case Minus => 1 case Times => 2
  }

  /** The operator's word, and no other. */
  lemma {:induction false} OpTakes(op: Op, right: Pattern, x: string)
    requires Run(right, x).Some?
    ensures Run(AfterLeft(right), " " + (WordOf(op) + x)) == Some([WordOf(op)] + Run(right, x).value)
  {
    var i := PlaceOf(op);
    forall j | 0 <= j < i
      ensures !(OPS[j] <= OPS[i] + x)
    {
      assert OPS[j][0] != OPS[i][0] == (OPS[i] + x)[0];
    }
    WordTakes(OPS, right, i, x);
    LitTakes(" ", OneOf(OPS, right), WordOf(op) + x);
  }

  lemma {:induction false} PrefixAfter(text: string, w: string, x: string)
    ensures text + w <= text + x <==> w <= x
  {
    if w <= x {
      assert x == w + x[|w|..];
      assert text + x == (text + w) + x[|w|..];
    }
    if text + w <= text + x {
      assert forall i | 0 <= i < |w| :: w[i] == (text + w)[|text| + i] == (text + x)[|text| + i] == x[i];
    }
  }

  lemma {:induction false} NoOperatorHere(right: Pattern, s: string)
    requires forall op: Op :: !((" " + WordOf(op)) <= s)
    ensures Run(AfterLeft(right), s) == None
  {
    if " " <= s {
      var x := s[1..];
      assert s == " " + x;
      forall j | 0 <= j < |OPS|
        ensures !(OPS[j] <= x)
      {
        var op := OpOf(OPS[j]);
        assert WordOf(op) == OPS[j];
        PrefixAfter(" ", WordOf(op), x);
      }
      WordNever(OPS, right, x);
    }
  }

  function KeyOf(op: Op): (k: nat)
    ensures k < |KEYS| && KEYS[k] <= WordOf(op) && NoSpace(KEYS[k])
  {
    match op case Plus => 1 case Minus => 2 case Times => 3
  }

  lemma {:induction false} KeyInFront(op: Op)
    ensures KEYS[KeyOf(op)] <= (" " + WordOf(op))[1..]
  {
    assert (" " + WordOf(op))[1..] == WordOf(op);
  }

  lemma {:induction false} Prepend(a: string, b: string, groups: seq<string>)
    ensures [a] + ([b] + groups) == [a, b] + groups
  {
  }

  /** The left name ends at the operator, not before. */
  lemma {:induction false} LeftNameTakes(l: string, op: Op, right: Pattern, x: string)
    requires NameLike(l) && Run(right, x).Some?
    ensures Run(Lazy(AfterLeft(right)), l + (" " + (WordOf(op) + x))) == Some([l, WordOf(op)] + Run(right, x).value)
  {
    var t := " " + (WordOf(op) + x);
    OpTakes(op, right, x);
    NoOperatorsInName(l, t, l + t, right);
    LazyIs(AfterLeft(right), l, t, l + t);
    Prepend(l, WordOf(op), Run(right, x).value);
  }

  lemma {:induction false} NoOperatorsInName(l: string, t: string, s: string, right: Pattern)
    requires NameLike(l) && t != "" && t[0] == ' ' && s == l + t
    ensures forall m | 1 <= m < |l| :: Run(AfterLeft(right), s[m..]) == None
  {
    forall m | 1 <= m < |l|
      ensures Run(AfterLeft(right), s[m..]) == None
    {
      NoOperatorInName(l, t, m, right);
    }
  }

  lemma {:induction false} NoOperatorInName(l: string, t: string, m: nat, right: Pattern)
    requires NameLike(l) && t != "" && t[0] == ' ' && m < |l|
    ensures Run(AfterLeft(right), (l + t)[m..]) == None
  {
    forall op: Op
      ensures !((" " + WordOf(op)) <= (l + t)[m..])
    {
      KeyInFront(op);
      NameAvoids(l, KeyOf(op));
      MissesBefore(" " + WordOf(op), KEYS[KeyOf(op)], l, t, m);
    }
    NoOperatorHere(right, (l + t)[m..]);
  }

  lemma {:induction false} EqualsKey()
    ensures EQUALS[0] == ' ' && KEYS[0] <= EQUALS[1..] && NoSpace(KEYS[0])
  {
  }

  /** The first name ends at "equals", not before. */
  lemma {:induction false} FirstNameTakes(a: string, rest: Pattern, x: string)
    requires NameLike(a) && Run(rest, x).Some?
    ensures Run(Lit(OF, Lazy(Lit(EQUALS, rest))), OF + (a + (EQUALS + x))) == Some([a] + Run(rest, x).value)
  {
    var s := a + (EQUALS + x);
    LitTakes(OF, Lazy(Lit(EQUALS, rest)), s);
    LitTakes(EQUALS, rest, x);
    EqualsKey();
    NameAvoids(a, 0);
    forall m | 1 <= m < |a|
      ensures Run(Lit(EQUALS, rest), s[m..]) == None
    {
      MissesBefore(EQUALS, KEYS[0], a, EQUALS + x, m);
    }
    LazyIs(Lit(EQUALS, rest), a, EQUALS + x, s);
  }

  // ----- each kind of sentence -----

  lemma {:induction false} TwoNamesParse(a: string, l: string, op: Op, r: string)
    requires NameLike(a) && NameLike(l) && NameLike(r)
    ensures Run(TwoNames(), OF + (a + (EQUALS + (l + Tail(op, Quantity(r)))))) == Some([a, l, WordOf(op), r])
  {
    RightNameTakes(r);
    LeftNameTakes(l, op, RightName(), THE + (r + MODULO));
    FirstNameTakes(a, Lazy(AfterLeft(RightName())), l + Tail(op, Quantity(r)));
    assert [a] + ([l, WordOf(op)] + [r]) == [a, l, WordOf(op), r];
  }

  lemma {:induction false} NameAndNumberParse(a: string, l: string, op: Op, c: nat)
    requires NameLike(a) && NameLike(l)
    ensures Run(NameAndNumber(), OF + (a + (EQUALS + (l + Tail(op, Constant(c))))))
      == Some([a, l, WordOf(op), GraphRows.Print(c)])
  {
    RightNumberTakes(c);
    LeftNameTakes(l, op, RightNumber(), " " + (GraphRows.Print(c) + MODULO));
    FirstNameTakes(a, Lazy(AfterLeft(RightNumber())), l + Tail(op, Constant(c)));
    assert [a] + ([l, WordOf(op)] + [GraphRows.Print(c)]) == [a, l, WordOf(op), GraphRows.Print(c)];
  }

  // ----- and no other kind -----

  const OF_WORDS := "equals the number of"

  lemma {:induction false} KeyIsLetters(k: nat)
    requires k < |KEYS|
    ensures NoSpace(KEYS[k]) && KEYS[k] != "" && IsLetter(KEYS[k][0]) && ',' !in KEYS[k]
  {
  }

  lemma {:induction false} ModuloAvoids(k: nat)
    requires k < |KEYS|
    ensures Avoids(MODULO, KEYS[k])
  {
    forall p | 0 <= p < |MODULO| && MODULO[p] == ' '
      ensures !(KEYS[k] <= MODULO[p + 1..])
    {
      assert p == 1 || p == 8;
      assert KEYS[k][0] != MODULO[p + 1] || KEYS[k][1] != MODULO[p + 2];
    }
  }

  /** Neither the number nor the words after it look like a key. */
  lemma {:induction false} NumberAvoids(c: nat, k: nat, after: string)
    requires k < |KEYS| && Avoids(after, KEYS[k]) && (after == "" || (!IsLetter(after[0]) && after[0] != ' '))
    ensures Avoids(" " + (GraphRows.Print(c) + after), KEYS[k])
  {
    var d := GraphRows.Print(c);
    PrintIsDigits(c);
    KeyIsLetters(k);
    AvoidsWord(d, KEYS[k]);
    KeyCharsAreLetters(k);
    AvoidsJoin(" " + d, after, KEYS[k]);
    assert (" " + d) + after == " " + (d + after);
  }

  lemma {:induction false} KeyCharsAreLetters(k: nat)
    requires k < |KEYS|
    ensures forall i | 0 <= i < |KEYS[k]| :: IsLetter(KEYS[k][i])
  {
  }

  lemma {:induction false} NumberTailAvoids(c: nat, k: nat)
    requires k < |KEYS|
    ensures Avoids(" " + (GraphRows.Print(c) + MODULO), KEYS[k]) && NoSpace(KEYS[k])
  {
    ModuloAvoids(k);
    NumberAvoids(c, k, MODULO);
    KeyIsLetters(k);
  }

  lemma {:induction false} TailAvoids(op: Op, c: nat, k: nat)
    requires k < |KEYS|
    ensures Avoids(WordOf(op) + (" " + (GraphRows.Print(c) + MODULO)), KEYS[k])
  {
    NumberTailAvoids(c, k);
    AvoidsSolid(WordOf(op), KEYS[k]);
    AvoidsSpaced(WordOf(op), " " + (GraphRows.Print(c) + MODULO), KEYS[k]);
  }

  lemma {:induction false} OpIsOneWord(op: Op)
    ensures NoSpace(WordOf(op)) && !(KEYS[0] <= WordOf(op))
  {
    assert WordOf(op)[0] != KEYS[0][0];
    match op case Plus => case Minus => case Times =>
  }

  lemma {:induction false} TailHasNoEquals(op: Op, c: nat)
    ensures Avoids(Tail(op, Constant(c)), KEYS[0])
  {
    var y := " " + (GraphRows.Print(c) + MODULO);
    NumberTailAvoids(c, 0);
    OpIsOneWord(op);
    AvoidsWord(WordOf(op), KEYS[0]);
    AvoidsSpaced(" " + WordOf(op), y, KEYS[0]);
    Regroup(" ", WordOf(op), y);
  }

  /** After a left name, a number is not "the number of" a second name. */
  lemma {:induction false} NoSecondName(l: string, op: Op, c: nat)
    requires NameLike(l)
    ensures Run(Lazy(AfterLeft(RightName())), l + Tail(op, Constant(c))) == None
  {
    var t := Tail(op, Constant(c));
    var s := l + t;
    forall m | 1 <= m <= |s|
      ensures Run(AfterLeft(RightName()), s[m..]) == None
    {
      if m < |l| {
        NoOperatorInName(l, t, m, RightName());
      } else if m == |l| {
        assert s[m..] == t;
        NumberIsNoName(op, c);
      } else {
        assert s[m..] == (WordOf(op) + (" " + (GraphRows.Print(c) + MODULO)))[m - |l| - 1..];
        NoLaterOperator(op, c, m - |l| - 1);
      }
    }
    LazyNever(AfterLeft(RightName()), s, 1);
  }

  lemma {:induction false} NumberIsNoName(op: Op, c: nat)
    ensures Run(AfterLeft(RightName()), Tail(op, Constant(c))) == None
  {
    var y := " " + (GraphRows.Print(c) + MODULO);
    var x := WordOf(op) + y;
    PrintIsDigits(c);
    assert y[1] == GraphRows.Print(c)[0];
    assert Run(RightName(), y) == None;
    LitTakes(" ", OneOf(OPS, RightName()), x);
    forall j | 0 <= j < |OPS|
      ensures Run(Lit(OPS[j], RightName()), x) == None
    {
      if OPS[j] == WordOf(op) {
        LitTakes(OPS[j], RightName(), y);
      } else {
        assert OPS[j][0] != WordOf(op)[0] == x[0];
      }
    }
    WordNever(OPS, RightName(), x);
  }

  lemma {:induction false} NoLaterOperator(op: Op, c: nat, n: nat)
    requires n <= |WordOf(op) + (" " + (GraphRows.Print(c) + MODULO))|
    ensures Run(AfterLeft(RightName()), (WordOf(op) + (" " + (GraphRows.Print(c) + MODULO)))[n..]) == None
  {
    var s := WordOf(op) + (" " + (GraphRows.Print(c) + MODULO));
    forall other: Op
      ensures !((" " + WordOf(other)) <= s[n..])
    {
      KeyInFront(other);
      TailAvoids(op, c, KeyOf(other));
      MissesAvoided(" " + WordOf(other), KEYS[KeyOf(other)], s, n);
    }
    NoOperatorHere(RightName(), s[n..]);
  }

  /** With "equals" only where it belongs, the rest decides. */
  lemma {:induction false} FirstNameNever(a: string, rest: Pattern, y: string)
    requires NameLike(a) && Run(rest, y) == None && Avoids(OF_WORDS + (" " + y), KEYS[0])
    ensures Run(Lit(OF, Lazy(Lit(EQUALS, rest))), OF + (a + (EQUALS + y))) == None
  {
    var x := EQUALS + y;
    var s := a + x;
    LitTakes(OF, Lazy(Lit(EQUALS, rest)), s);
    EqualsKey();
    NameAvoids(a, 0);
    assert x[1..] == OF_WORDS + (" " + y);
    forall m | 1 <= m <= |s|
      ensures Run(Lit(EQUALS, rest), s[m..]) == None
    {
      if m < |a| {
        MissesBefore(EQUALS, KEYS[0], a, x, m);
      } else if m == |a| {
        assert s[m..] == x;
        LitTakes(EQUALS, rest, y);
      } else {
        assert s[m..] == x[1..][m - |a| - 1..];
        MissesAvoided(EQUALS, KEYS[0], x[1..], m - |a| - 1);
      }
    }
    LazyNever(Lit(EQUALS, rest), s, 1);
  }

  lemma {:induction false} OfWordsAvoid()
    ensures Avoids(OF_WORDS, KEYS[0])
  {
    forall p | 0 <= p < |OF_WORDS| && OF_WORDS[p] == ' '
      ensures !(KEYS[0] <= OF_WORDS[p + 1..])
    {
      assert p == 6 || p == 10 || p == 17;
      assert OF_WORDS[p + 1] != 'e';
    }
  }

  lemma {:induction false} Regroup(a: string, b: string, c: string)
    ensures a + (b + c) == (a + b) + c
  {
  }

  /** Three stretches of text without the key. */
  lemma {:induction false} AvoidsThree(a: string, b: string, t: string, key: string)
    requires Avoids(a, key) && Avoids(b, key) && Avoids(t, key) && NoSpace(key)
    requires b != "" && b[0] == ' ' && t != "" && t[0] == ' '
    ensures Avoids(a + (b + t), key)
  {
    AvoidsSpaced(b, t, key);
    AvoidsSpaced(a, b + t, key);
  }

  lemma {:induction false} RestHasNoEquals(l: string, op: Op, c: nat)
    requires NameLike(l)
    ensures Avoids(OF_WORDS + (" " + (l + Tail(op, Constant(c)))), KEYS[0])
  {
    TailHasNoEquals(op, c);
    TailBegins(op, Constant(c));
    KeyIsLetters(0);
    OfWordsAvoid();
    AvoidsThree(OF_WORDS, " " + l, Tail(op, Constant(c)), KEYS[0]);
    Regroup(" ", l, Tail(op, Constant(c)));
  }

  lemma {:induction false} TailBegins(op: Op, right: Operand)
    ensures Tail(op, right) != "" && Tail(op, right)[0] == ' '
  {
  }

  lemma {:induction false} NotTwoNames(a: string, l: string, op: Op, c: nat)
    requires NameLike(a) && NameLike(l)
    ensures Run(TwoNames(), OF + (a + (EQUALS + (l + Tail(op, Constant(c)))))) == None
  {
    NoSecondName(l, op, c);
    RestHasNoEquals(l, op, c);
    FirstNameNever(a, Lazy(AfterLeft(RightName())), l + Tail(op, Constant(c)));
  }

  /** A leaf's sentence. */
  lemma {:induction false} LeafParses(a: string, v: nat)
    requires NameLike(a)
    ensures Run(LeafPattern(), OF + (a + (" is " + (GraphRows.Print(v) + ".")))) == Some([a, GraphRows.Print(v)])
  {
    var x := " is " + (GraphRows.Print(v) + ".");
    var s := a + x;
    LitTakes(OF, Lazy(IsNumber()), s);
    DigitsTake(v, ".");
    LitTakes(" is ", Number(Lit(".", End)), GraphRows.Print(v) + ".");
    NameAvoids(a, 4);
    forall m | 1 <= m < |a|
      ensures Run(IsNumber(), s[m..]) == None
    {
      MissesBefore(" is ", KEYS[4], a, x, m);
    }
    LazyIs(IsNumber(), a, x, s);
    assert [a] + [GraphRows.Print(v)] == [a, GraphRows.Print(v)];
  }

  lemma {:induction false} LeafHasNoEquals(a: string, v: nat)
    requires NameLike(a)
    ensures Avoids(a + (" is " + (GraphRows.Print(v) + ".")), KEYS[0])
  {
    var y := " " + (GraphRows.Print(v) + ".");
    KeyIsLetters(0);
    AvoidsSolid(".", KEYS[0]);
    NumberAvoids(v, 0, ".");
    AvoidsWord("is", KEYS[0]);
    AvoidsSpaced(" " + "is", y, KEYS[0]);
    assert (" " + "is") + y == " is " + (GraphRows.Print(v) + ".");
    NameAvoids(a, 0);
    AvoidsSpaced(a, " is " + (GraphRows.Print(v) + "."), KEYS[0]);
  }

  /** "equals" is nowhere in a leaf's sentence. */
  lemma {:induction false} LeafIsNoSum(a: string, v: nat, rest: Pattern)
    requires NameLike(a)
    ensures Run(Lit(OF, Lazy(Lit(EQUALS, rest))), OF + (a + (" is " + (GraphRows.Print(v) + ".")))) == None
  {
    var x := " is " + (GraphRows.Print(v) + ".");
    var s := a + x;
    LitTakes(OF, Lazy(Lit(EQUALS, rest)), s);
    EqualsKey();
    LeafHasNoEquals(a, v);
    forall m | 1 <= m <= |s|
      ensures Run(Lit(EQUALS, rest), s[m..]) == None
    {
      MissesAvoided(EQUALS, KEYS[0], s, m);
    }
    LazyNever(Lit(EQUALS, rest), s, 1);
  }

  // ----- printing and parsing one statement -----

  /** All its names are names. */
  ghost predicate Named(st: Statement) {
    && LeftIsQuantity(st.def) && NameLike(st.name)
    && forall n | n in Operands(st.def) :: NameLike(n)
  }

  /** What a statement prints to parses back to it. */
  lemma {:induction false} SentenceParses(st: Statement)
    requires Named(st)
    ensures ParseSentence(Sentence(st)) == Some(st)
  {
    match st.def
    case Leaf(v) =>
      LeafIsNoSum(st.name, v, Lazy(AfterLeft(RightName())));
      LeafIsNoSum(st.name, v, Lazy(AfterLeft(RightNumber())));
      LeafParses(st.name, v);
      GraphRows.PrintReads(v);
    case Internal(op, left, right) =>
      assert left.name in Operands(st.def);
      assert OpOf(WordOf(op)) == op;
      match right {
        case Quantity(r) =>
          assert r in Operands(st.def);
          TwoNamesParse(st.name, left.name, op, r);
        case Constant(c) =>
          NotTwoNames(st.name, left.name, op, c);
          NameAndNumberParse(st.name, left.name, op, c);
          GraphRows.PrintReads(c);
      }
  }
}
