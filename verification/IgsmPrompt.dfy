/** The whole prompt: names, the joined statements and the question, and the parser that takes
    them apart again (igsm_lite.py, _fresh_name, the prompt of generate_problem, and
    solve_from_prompt). */
module IgsmPrompt {
  import opened Wrappers
  import opened IgsmProblems
  import opened LazyRegex
  import opened IgsmText
  import GraphRows

  const BREAK := "\nQuestion:"
  const ASK := "Question: What is the number of "
  const ASKED := ", modulo 23?"

  // ----- printing -----

  /** " ".join */
  function Join(texts: seq<string>): string {
    if texts == [] then "" else if |texts| == 1 then texts[0] else texts[0] + (" " + Join(texts[1..]))
  }

  /** Wherever a list is cut, the two parts are joined with one space between. */
  lemma {:induction false} JoinCut(texts: seq<string>, i: nat)
    requires 0 < i < |texts|
    ensures Join(texts) == Join(texts[..i]) + (" " + Join(texts[i..]))
  {
    var front, back := texts[..i], texts[i..];
    if i > 1 {
      JoinCut(texts[1..], i - 1);
      assert texts[1..][..i - 1] == front[1..] && texts[1..][i - 1..] == back;
      Reassociate(texts[0], Join(front[1..]), " " + Join(back));
    } else {
      assert back == texts[1..];
    }
  }

  lemma {:induction false} Reassociate(a: string, b: string, c: string)
    ensures a + (" " + (b + c)) == (a + (" " + b)) + c
  {
  }

  function Sentences(statements: seq<Statement>): (texts: seq<string>)
    requires forall s | s in statements :: LeftIsQuantity(s.def)
    ensures |texts| == |statements| && forall i | 0 <= i < |texts| :: texts[i] == Sentence(statements[i])
  {
    seq(|statements|, i requires 0 <= i < |statements| => Sentence(statements[i]))
  }

  function PromptOf(statements: seq<Statement>, query: string): (prompt: string)
    requires forall s | s in statements :: LeftIsQuantity(s.def)
    ensures prompt == Join(Sentences(statements))
      + ("\n" + ("Question: What is the number of " + (query + (", modulo 23?" + "\nReasoning:"))))
  {
    Join(Sentences(statements)) + ("\n" + (ASK + (query + (ASKED + "\nReasoning:"))))
  }

  // ----- taking apart -----

  predicate IsSpace(c: char): (b: bool)
    ensures b <==> c == ' ' || 9 <= c as int <= 13
  {
    c in " \t\n\r" || c == 11 as char || c == 12 as char
  }

  /** What stands before the first occurrence, or everything: split(sep)[0]. */
  function Before(s: string, sep: string): string {
    if sep <= s || s == "" then "" else [s[0]] + Before(s[1..], sep)
  }

  function StripLeft(s: string): (r: string)
    ensures |r| <= |s| && (r != "" ==> !IsSpace(r[0]))
  {
    if s != "" && IsSpace(s[0]) then StripLeft(s[1..]) else s
  }

  function StripRight(s: string): string {
    if s != "" && IsSpace(s[|s| - 1]) then StripRight(s[..|s| - 1]) else s
  }

  function Strip(s: string): string { StripRight(StripLeft(s)) }

  /** Cuts at each run of white space after a full stop; `current` is the piece so far. */
  function Split(s: string, current: string): seq<string>
    decreases |s|
  {
    if s == "" then [current]
    else if current != "" && current[|current| - 1] == '.'
      && IsSpace(s[0]) then [current] + Split(StripLeft(s[1..]), "")
    else Split(s[1..], current + [s[0]])
  }

  function Ask(): Pattern { Lit(ASK, Lazy(Lit(ASKED, Stop))) }

  datatype Parsed = Read(statements: seq<Statement>, query: string) | Unparseable(sentence: string) | NoQuestion

  /** The statements of the nonempty pieces, or the first that is none. */
  ghost function ReadAll(pieces: seq<string>, n: nat): Parsed
    requires n <= |pieces|
  {
    if n == 0 then Read([], "")
    else
      match ReadAll(pieces, n - 1)
      case Unparseable(sentence) => Unparseable(sentence)
      case NoQuestion => NoQuestion
      case Read(statements, query) =>
        var sentence := Strip(pieces[n - 1]);
        if sentence == "" then Read(statements, query)
        else if ParseSentence(sentence).None? then Unparseable(sentence)
        else Read(statements + [ParseSentence(sentence).value], query)
  }

  ghost function Parse(prompt: string): Parsed {
    var pieces := Split(Strip(Before(prompt, BREAK)), "");
    match ReadAll(pieces, |pieces|)
    case Unparseable(sentence) => Unparseable(sentence)
    case NoQuestion => NoQuestion
    case Read(statements, _) =>
      match Search(Ask(), prompt)
      case None => NoQuestion
      case Some(groups) => Read(statements, groups[0])
  }

  /** The loop over the pieces. */
  method ReadPieces(pieces: seq<string>) returns (r: Parsed)
    ensures r == ReadAll(pieces, |pieces|)
  {
    var statements: seq<Statement> := [];
    for i := 0 to |pieces|
      invariant ReadAll(pieces, i) == Read(statements, "")
    {
      var sentence := Strip(pieces[i]);
      if sentence != "" {
        var parsed := ParseSentence(sentence);
        if parsed.None? {
          UnreadableStays(pieces, i + 1, |pieces|);
          return Unparseable(sentence);
        }
        statements := statements + [parsed.value];
      }
    }
    r := Read(statements, "");
  }

  method ParsePrompt(prompt: string) returns (r: Parsed)
    ensures r == Parse(prompt)
  {
    r := ReadPieces(Split(Strip(Before(prompt, BREAK)), ""));
    if r.Read? {
      var question := Search(Ask(), prompt);
      r := if question.None? then NoQuestion else Read(r.statements, question.value[0]);
    }
  }

  lemma {:induction false} UnreadableStays(pieces: seq<string>, m: nat, n: nat)
    requires m <= n <= |pieces| && ReadAll(pieces, m).Unparseable?
    ensures ReadAll(pieces, n) == ReadAll(pieces, m)
  {
    if m < n {
      UnreadableStays(pieces, m, n - 1);
    }
  }

  // ----- the shape of a sentence -----

  predicate Plain(c: char) { IsLetter(c) || IsDigit(c) || c == ' ' || c == ',' }

  ghost predicate AllPlain(s: string) { forall i | 0 <= i < |s| :: Plain(s[i]) }

  /** Letters, digits, spaces and commas, and a full stop at the end only. */
  ghost predicate EndsInStop(s: string) {
    s != "" && s[|s| - 1] == '.' && AllPlain(s[..|s| - 1])
  }

  lemma {:induction false} StopAfter(a: string, x: string)
    requires AllPlain(a) && EndsInStop(x)
    ensures EndsInStop(a + x)
  {
    var s := a + x;
    forall i | 0 <= i < |s| - 1
      ensures Plain(s[i])
    {
      if i >= |a| {
        assert s[i] == x[..|x| - 1][i - |a|];
      }
    }
  }

  lemma {:induction false} ModuloStops()
    ensures EndsInStop(MODULO) && EndsInStop(".") && AllPlain(OF) && AllPlain(EQUALS) && AllPlain(THE)
      && AllPlain(" is ") && AllPlain(" ")
  {
    assert MODULO == ", modulo 23" + ".";
  }

  lemma {:induction false} TailStops(op: Op, right: Operand)
    requires right.Quantity? ==> NameLike(right.name)
    ensures EndsInStop(Tail(op, right))
  {
    ModuloStops();
    assert AllPlain(WordOf(op));
    match right {
      case Quantity(r) =>
        StopAfter(r, MODULO);
        StopAfter(THE, r + MODULO);
        StopAfter(WordOf(op), THE + (r + MODULO));
        StopAfter(" ", WordOf(op) + (THE + (r + MODULO)));
      case Constant(c) =>
        PrintIsDigits(c);
        StopAfter(GraphRows.Print(c), MODULO);
        StopAfter(" ", GraphRows.Print(c) + MODULO);
        StopAfter(WordOf(op), " " + (GraphRows.Print(c) + MODULO));
        StopAfter(" ", WordOf(op) + (" " + (GraphRows.Print(c) + MODULO)));
    }
  }

  lemma {:induction false} SentenceStops(st: Statement)
    requires Named(st)
    ensures EndsInStop(Sentence(st)) && Sentence(st)[0] == 'T'
  {
    ModuloStops();
    match st.def {
      case Leaf(v) =>
        PrintIsDigits(v);
        StopAfter(GraphRows.Print(v), ".");
        StopAfter(" is ", GraphRows.Print(v) + ".");
      case Internal(op, left, right) =>
        assert left.name in Operands(st.def) && (right.Quantity? ==> right.name in Operands(st.def));
        TailStops(op, right);
        StopAfter(left.name, Tail(op, right));
        StopAfter(EQUALS, left.name + Tail(op, right));
    }
    StopAfter(st.name, Body(st.def));
    StopAfter(OF, st.name + Body(st.def));
  }

  // ----- the pieces of a prompt -----

  lemma {:induction false} SplitWalks(t: string, x: string, current: string)
    requires AllPlain(t) && (current == "" || current[|current| - 1] != '.')
    ensures Split(t + x, current) == Split(x, current + t)
    decreases |t|
  {
    if t == "" {
      assert t + x == x && current + t == current;
    } else {
      assert (t + x)[1..] == t[1..] + x;
      SplitWalks(t[1..], x, current + [t[0]]);
      assert (current + [t[0]]) + t[1..] == current + t;
    }
  }

  /** A sentence is read up to its full stop. */
  lemma {:induction false} SplitSentence(t: string, x: string)
    requires EndsInStop(t)
    ensures Split(t + x, "") == Split(x, t)
  {
    var a := t[..|t| - 1];
    assert t == a + ".";
    assert t + x == a + ("." + x);
    SplitWalks(a, "." + x, "");
    assert "" + a == a && ("." + x)[1..] == x && ("." + x)[0] == '.';
  }

  ghost predicate Texts(texts: seq<string>) {
    forall i | 0 <= i < |texts| :: EndsInStop(texts[i]) && texts[i][0] == 'T'
  }

  /** Joining sentences with spaces and cutting after the full stops are inverse. */
  lemma {:induction false} SplitJoin(texts: seq<string>)
    requires Texts(texts) && texts != []
    ensures Split(Join(texts), "") == texts
    decreases |texts|
  {
    var t := texts[0];
    if |texts| == 1 {
      SplitSentence(t, "");
      assert t + "" == t;
    } else {
      var more := Join(texts[1..]);
      SplitSentence(t, " " + more);
      JoinBegins(texts[1..]);
      assert (" " + more)[0] == ' ' && (" " + more)[1..] == more;
      SplitJoin(texts[1..]);
      assert [t] + texts[1..] == texts;
    }
  }

  lemma {:induction false} JoinBegins(texts: seq<string>)
    requires Texts(texts) && texts != []
    ensures Join(texts) != "" && Join(texts)[0] == 'T' && StripLeft(Join(texts)) == Join(texts)
  {
    assert texts[0][0] == 'T';
  }

  ghost predicate Quiet(s: string) { forall i | 0 <= i < |s| :: s[i] != '\n' && s[i] != ':' }

  lemma {:induction false} JoinEnds(texts: seq<string>)
    requires Texts(texts) && texts != []
    ensures Join(texts) != "" && Join(texts)[|Join(texts)| - 1] == '.' && Quiet(Join(texts))
    decreases |texts|
  {
    SentenceIsQuiet(texts[0]);
    if |texts| > 1 {
      JoinEnds(texts[1..]);
      QuietJoin(texts[0], Join(texts[1..]));
    }
  }

  lemma {:induction false} SentenceIsQuiet(t: string)
    requires EndsInStop(t)
    ensures Quiet(t)
  {
    forall i | 0 <= i < |t|
      ensures t[i] != '\n' && t[i] != ':'
    {
      if i < |t| - 1 {
        assert Plain(t[..|t| - 1][i]);
      }
    }
  }

  lemma {:induction false} QuietJoin(a: string, b: string)
    requires Quiet(a) && Quiet(b) && b != ""
    ensures Quiet(a + (" " + b)) && (a + (" " + b))[|a + (" " + b)| - 1] == b[|b| - 1]
  {
  }

  lemma {:induction false} StripKeeps(texts: seq<string>)
    requires Texts(texts)
    ensures Strip(Join(texts)) == Join(texts)
  {
    if texts != [] {
      JoinBegins(texts);
      JoinEnds(texts);
    }
  }

  /** Everything before the question. */
  lemma {:induction false} BeforeTakes(body: string, x: string)
    requires Quiet(body) && BREAK <= x
    ensures Before(body + x, BREAK) == body
    decreases |body|
  {
    if body == "" {
      assert body + x == x;
    } else {
      assert (body + x)[0] == body[0] != BREAK[0];
      assert (body + x)[1..] == body[1..] + x;
      BeforeTakes(body[1..], x);
      assert [body[0]] + body[1..] == body;
    }
  }

  lemma {:induction false} AskIsOneLine()
    ensures |ASK| > 8 && ASK[8] == ':' && '\n' !in ASK[..9]
  {
  }

  /** The question is not found inside the statements. */
  lemma {:induction false} SearchSkips(body: string, x: string)
    requires Quiet(body) && x != "" && x[0] == '\n'
    ensures Search(Ask(), body + x) == Search(Ask(), x[1..])
    decreases |body|
  {
    var s := body + x;
    AskIsOneLine();
    assert !(ASK <= s) by {
      if |body| > 8 {
        assert s[8] == body[8];
      } else {
        assert s[|body|] == '\n' && ASK[|body|] in ASK[..9];
      }
    }
    if body == "" {
      assert s == x;
    } else {
      assert s[1..] == body[1..] + x;
      SearchSkips(body[1..], x);
    }
  }

  /** And its quantity is the query. */
  lemma {:induction false} QuestionTakes(query: string, after: string)
    requires NameLike(query)
    ensures Search(Ask(), ASK + (query + (ASKED + after))) == Some([query])
  {
    var s := query + (ASKED + after);
    LitTakes(ASK, Lazy(Lit(ASKED, Stop)), s);
    LitTakes(ASKED, Stop, after);
    forall m | 1 <= m < |query|
      ensures Run(Lit(ASKED, Stop), s[m..]) == None
    {
      assert s[m..][0] == query[m] != ',';
    }
    LazyIs(Lit(ASKED, Stop), query, ASKED + after, s);
    assert [query] + [] == [query];
  }

  ghost predicate AllNamed(statements: seq<Statement>) { forall i | 0 <= i < |statements| :: Named(statements[i]) }

  lemma {:induction false} SentencesAreTexts(statements: seq<Statement>)
    requires AllNamed(statements)
    ensures Texts(Sentences(statements))
  {
    forall i | 0 <= i < |statements|
      ensures EndsInStop(Sentences(statements)[i]) && Sentences(statements)[i][0] == 'T'
    {
      SentenceStops(statements[i]);
    }
  }

  lemma {:induction false} StripSentence(t: string)
    requires EndsInStop(t) && t[0] == 'T'
    ensures Strip(t) == t
  {
  }

  lemma {:induction false} PieceReads(st: Statement)
    requires Named(st)
    ensures Strip(Sentence(st)) == Sentence(st) != "" && ParseSentence(Sentence(st)) == Some(st)
  {
    SentenceStops(st);
    StripSentence(Sentence(st));
    SentenceParses(st);
  }

  lemma {:induction false} ReadStep(pieces: seq<string>, n: nat, next: nat, statements: seq<Statement>, piece: string,
                                    st: Statement, more: seq<Statement>)
    requires n < |pieces| && next == n + 1 && ReadAll(pieces, n) == Read(statements, "") && more == statements + [st]
    requires pieces[n] == piece && Strip(piece) == piece != "" && ParseSentence(piece) == Some(st)
    ensures ReadAll(pieces, next) == Read(more, "")
  {
  }

  lemma {:induction false} PrefixGrows(statements: seq<Statement>, n: nat, next: nat)
    requires n < |statements| && next == n + 1
    ensures statements[..next] == statements[..n] + [statements[n]]
  {
  }

  lemma {:induction false} ReadsAll(statements: seq<Statement>, pieces: seq<string>, n: nat)
    requires AllNamed(statements) && n <= |statements| == |pieces| && forall i | 0 <= i < |statements| ::
      pieces[i] == Sentence(statements[i])
    ensures ReadAll(pieces, n) == Read(statements[..n], "")
    decreases n
  {
    if n > 0 {
      var st, before := statements[n - 1], n - 1;
      ReadsAll(statements, pieces, before);
      PieceReads(st);
      PrefixGrows(statements, before, n);
      ReadStep(pieces, before, n, statements[..before], pieces[before], st, statements[..n]);
    }
  }

  /** The whole prompt parses back to its statements, in order, and its query. */
  lemma {:induction false} PromptParses(statements: seq<Statement>, query: string)
    requires AllNamed(statements) && NameLike(query) && statements != []
    ensures Parse(PromptOf(statements, query)) == Read(statements, query)
  {
    var texts := Sentences(statements);
    var body := Join(texts);
    var x := "\n" + (ASK + (query + (ASKED + "\nReasoning:")));
    SentencesAreTexts(statements);
    JoinEnds(texts);
    BreakIsThere(query);
    BeforeTakes(body, x);
    StripKeeps(texts);
    SplitJoin(texts);
    ReadsAll(statements, texts, |statements|);
    assert statements[..|statements|] == statements;
    SearchSkips(body, x);
    assert x[1..] == ASK + (query + (ASKED + "\nReasoning:"));
    QuestionTakes(query, "\nReasoning:");
  }

  lemma {:induction false} BreakIsThere(query: string)
    ensures var x := "\n" + (ASK + (query + (ASKED + "\nReasoning:"))); BREAK <= x && x[0] == '\n'
  {
    assert ASK == "Question:" + " What is the number of ";
    assert BREAK == "\n" + "Question:";
  }
}
