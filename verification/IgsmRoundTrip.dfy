/** The nonsense names of quantities, and the round trip from a generated problem through its
    shuffled text to the answer (igsm_lite.py, _fresh_name, generate_problem and
    solve_from_prompt). */
module IgsmRoundTrip {
  import opened IgsmProblems
  import opened LazyRegex
  import opened IgsmText
  import opened IgsmPrompt

  const ADJECTIVES := [
    "crimson", "amber", "dusty", "velvet", "mossy", "pewter", "cobalt", "russet", "sable", "ashen", "briny",
    "chalky", "dappled", "ochre", "umber", "sallow", "tawny", "glossy", "matte", "speckled", "striped",
    "woolly", "wiry", "lumpy", "squat", "slender", "hollow", "gilded", "frosted", "smoky", "murky", "pallid",
    "ruddy", "drab", "garish", "mottled", "burnished", "weathered", "crooked", "knotted", "threadbare",
    "brindle"
  ]

  const NOUNS := [
    "satchel", "kite", "flask", "lantern", "spool", "crate", "anvil", "ribbon", "marble", "whistle",
    "bucket", "ladle", "shovel", "plank", "barrel", "canteen", "goblet", "trinket", "gadget", "sprocket",
    "pulley", "magnet", "stencil", "easel", "chisel", "mallet", "beaker", "funnel", "tripod", "padlock",
    "thimble", "bobbin", "gasket", "grommet", "washer", "dowel", "peg", "cog", "spigot", "valve", "hinge",
    "bracket"
  ]

  const PLACES := [
    "Annex", "Loft", "Depot", "Atrium", "Cellar", "Foyer", "Gazebo", "Silo", "Wharf", "Pavilion", "Rotunda",
    "Kiosk", "Vault", "Arcade", "Terrace", "Solarium", "Grotto", "Bunker", "Hangar", "Orchard", "Quarry",
    "Mill", "Forge", "Armory", "Aviary", "Apiary", "Greenhouse", "Boathouse", "Watchtower", "Courtyard",
    "Vestibule", "Workshop"
  ]

  datatype Words = Words(adjective: string, noun: string, place: string)

  /** Letters only, at least three, and not like a word of the sentences. */
  ghost predicate IsPlain(w: string) { IsLong(w) && NoKey(w) }

  ghost predicate IsLong(w: string) { |w| >= 3 && forall i | 0 <= i < |w| :: IsLetter(w[i]) }

  ghost predicate NoKey(w: string) {
    |w| >= 3 ==>
      && !Begins(w, 'e', 'q', 'u') && !Begins(w, 'p', 'l', 'u') && !Begins(w, 'm', 'i', 'n')
      && !Begins(w, 't', 'i', 'm')
      && !(w[0] == 'i' && w[1] == 's')
  }

  ghost predicate Begins(w: string, c: char, d: char, e: char)
    requires |w| >= 3
  {
    w[0] == c && w[1] == d && w[2] == e
  }

  lemma {:induction false} FirstAdjectives(i: nat)
    requires i < 16
    ensures IsLong(ADJECTIVES[i])
  {
  }

  lemma {:induction false} LastAdjectives(i: nat)
    requires 16 <= i < |ADJECTIVES|
    ensures IsLong(ADJECTIVES[i])
  {
  }

  lemma {:induction false} AdjectivesAreLong(i: nat)
    requires i < |ADJECTIVES|
    ensures IsLong(ADJECTIVES[i])
  {
    if i < 16 {
      FirstAdjectives(i);
    } else {
      LastAdjectives(i);
    }
  }

  lemma {:induction false} AdjectivesHaveNoKey(i: nat)
    requires i < |ADJECTIVES|
    ensures NoKey(ADJECTIVES[i])
  {
  }

  lemma {:induction false} FirstNouns(i: nat)
    requires i < 16
    ensures IsLong(NOUNS[i])
  {
  }

  lemma {:induction false} LastNouns(i: nat)
    requires 16 <= i < |NOUNS|
    ensures IsLong(NOUNS[i])
  {
  }

  lemma {:induction false} NounsAreLong(i: nat)
    requires i < |NOUNS|
    ensures IsLong(NOUNS[i])
  {
    if i < 16 {
      FirstNouns(i);
    } else {
      LastNouns(i);
    }
  }

  lemma {:induction false} NounsHaveNoKey(i: nat)
    requires i < |NOUNS|
    ensures NoKey(NOUNS[i])
  {
  }

  lemma {:induction false} FirstPlaces(i: nat)
    requires i < 16
    ensures IsLong(PLACES[i])
  {
  }

  lemma {:induction false} LastPlaces(i: nat)
    requires 16 <= i < |PLACES|
    ensures IsLong(PLACES[i])
  {
  }

  lemma {:induction false} PlacesAreLong(i: nat)
    requires i < |PLACES|
    ensures IsLong(PLACES[i])
  {
    if i < 16 {
      FirstPlaces(i);
    } else {
      LastPlaces(i);
    }
  }

  lemma {:induction false} PlacesHaveNoKey(i: nat)
    requires i < |PLACES|
    ensures NoKey(PLACES[i])
  {
  }

  lemma {:induction false} PlainAvoids(w: string, more: string, k: nat)
    requires IsPlain(w) && NoSpace(more) && k < |KEYS|
    ensures Avoids(" " + (w + more), KEYS[k])
  {
    assert !(KEYS[k] <= w + more) by {
      assert (w + more)[0] == w[0] && (w + more)[1] == w[1] && (w + more)[2] == w[2];
    }
    AvoidsWord(w + more, KEYS[k]);
  }

  ghost predicate FromLists(w: Words) { w.adjective in ADJECTIVES && w.noun in NOUNS && w.place in PLACES }

  ghost predicate PlainWords(w: Words) { IsPlain(w.adjective) && IsPlain(w.noun) && IsPlain(w.place) }

  lemma {:induction false} ListsArePlain(w: Words)
    requires FromLists(w)
    ensures PlainWords(w)
  {
    var i, j, k :| 0 <= i < |ADJECTIVES| && ADJECTIVES[i] == w.adjective && 0 <= j < |NOUNS| && NOUNS[j] == w.noun
      && 0 <= k < |PLACES| && PLACES[k] == w.place;
    AdjectivesAreLong(i);
    AdjectivesHaveNoKey(i);
    NounsAreLong(j);
    NounsHaveNoKey(j);
    PlacesAreLong(k);
    PlacesHaveNoKey(k);
  }

  /** "crimson satchels in the Annex" */
  function NameOf(w: Words): string {
    w.adjective + (" " + ((w.noun + "s") + (" in the " + w.place)))
  }

  lemma {:induction false} InTheAvoid(k: nat)
    requires k < |KEYS|
    ensures Avoids(" in", KEYS[k]) && Avoids(" the", KEYS[k])
  {
    assert " in" == " " + "in" && " the" == " " + "the";
    assert KEYS[k][0] != 't' || KEYS[k][1] != 'h';
    assert KEYS[k][0] != 'i' || KEYS[k][1] != 'n';
    AvoidsWord("the", KEYS[k]);
    AvoidsWord("in", KEYS[k]);
  }

  lemma {:induction false} InThe(place: string)
    ensures " in the " + place == " in" + (" the" + (" " + place)) == " " + ("in the " + place)
  {
    Regroup(" the", " ", place);
    Regroup(" in", " the" + " ", place);
    assert " in" + (" the" + " ") == " in the " == " " + "in the ";
    Regroup(" ", "in the ", place);
  }

  lemma {:induction false} InTheAvoids(place: string, k: nat)
    requires IsPlain(place) && k < |KEYS|
    ensures Avoids(" in the " + place, KEYS[k])
  {
    KeyIsLetters(k);
    PlainAvoids(place, "", k);
    assert place + "" == place;
    InTheAvoid(k);
    AvoidsSpaced(" the", " " + place, KEYS[k]);
    AvoidsSpaced(" in", " the" + (" " + place), KEYS[k]);
    InThe(place);
  }

  lemma {:induction false} NameAvoidsKey(w: Words, k: nat)
    requires PlainWords(w) && k < |KEYS|
    ensures Avoids(" " + NameOf(w), KEYS[k])
  {
    var x := " in the " + w.place;
    KeyIsLetters(k);
    InTheAvoids(w.place, k);
    PlainAvoids(w.noun, "s", k);
    AvoidsSpaced(" " + (w.noun + "s"), x, KEYS[k]);
    Regroup(" ", w.noun + "s", x);
    PlainAvoids(w.adjective, "", k);
    assert w.adjective + "" == w.adjective;
    AvoidsSpaced(" " + w.adjective, " " + ((w.noun + "s") + x), KEYS[k]);
    Regroup(" ", w.adjective, " " + ((w.noun + "s") + x));
  }

  /** The generator's names are what the parser takes for names. */
  lemma {:induction false} NamesAreNames(w: Words)
    requires FromLists(w)
    ensures NameLike(NameOf(w))
  {
    ListsArePlain(w);
    forall k | 0 <= k < |KEYS|
      ensures Avoids(" " + NameOf(w), KEYS[k])
    {
      NameAvoidsKey(w, k);
    }
    assert LettersAndSpaces(" in the ");
  }

  lemma {:induction false} UpToSpace(a: string, x: string, b: string, y: string)
    requires NoSpace(a) && NoSpace(b) && a + (" " + x) == b + (" " + y)
    ensures a == b && x == y
  {
    var s := a + (" " + x);
    SpaceIsAfter(a, x, b);
    SpaceIsAfter(b, y, a);
    assert a == s[..|a|] && b == s[..|b|] && x == s[|a| + 1..] && y == s[|b| + 1..];
  }

  lemma {:induction false} SpaceIsAfter(a: string, x: string, b: string)
    requires NoSpace(b) && b <= a + (" " + x)
    ensures |b| <= |a|
  {
    assert (a + (" " + x))[|a|] == ' ';
  }

  lemma {:induction false} CancelRight(a: string, b: string, s: string)
    requires a + s == b + s
    ensures a == b
  {
    assert a == (a + s)[..|a|] && b == (b + s)[..|b|];
  }

  lemma {:induction false} CancelLeft(a: string, b: string, s: string)
    requires s + a == s + b
    ensures a == b
  {
    assert a == (s + a)[|s|..] && b == (s + b)[|s|..];
  }

  lemma {:induction false} NounIsSolid(w: Words)
    requires PlainWords(w)
    ensures NoSpace(w.adjective) && NoSpace(w.noun + "s")
  {
  }

  /** Different words give different names, so a name is not used twice. */
  lemma {:induction false} NamesDiffer(v: Words, w: Words)
    requires FromLists(v) && FromLists(w)
    ensures NameOf(v) == NameOf(w) <==> v == w
  {
    ListsArePlain(v);
    ListsArePlain(w);
    NounIsSolid(v);
    NounIsSolid(w);
    if NameOf(v) == NameOf(w) {
      SameParts(v, w);
    }
  }

  lemma {:induction false} SameParts(v: Words, w: Words)
    requires NoSpace(v.adjective) && NoSpace(w.adjective) && NoSpace(v.noun + "s") && NoSpace(w.noun + "s")
      && NameOf(v) == NameOf(w)
    ensures v == w
  {
    UpToSpace(v.adjective, (v.noun + "s") + (" in the " + v.place), w.adjective,
      (w.noun + "s") + (" in the " + w.place));
    InThe(v.place);
    InThe(w.place);
    UpToSpace(v.noun + "s", "in the " + v.place, w.noun + "s", "in the " + w.place);
    CancelRight(v.noun, w.noun, "s");
    CancelLeft(v.place, w.place, "in the ");
  }

  // ----- the round trip -----

  function NamesOf(words: seq<Words>): (names: seq<string>)
    ensures |names| == |words| && forall i | 0 <= i < |words| :: names[i] == NameOf(words[i])
  {
    seq(|words|, i requires 0 <= i < |words| => NameOf(words[i]))
  }

  /** Words drawn from the lists, each triple once. */
  ghost predicate DrawnWords(words: seq<Words>) {
    && (forall i | 0 <= i < |words| :: FromLists(words[i]))
    && forall i, j {:trigger words[i], words[j]} | 0 <= i < j < |words| :: words[i] != words[j]
  }

  lemma {:induction false} DrawnAreFresh(words: seq<Words>)
    requires DrawnWords(words)
    ensures Fresh(NamesOf(words), 0, map[]) && forall n | n in NamesOf(words) :: NameLike(n)
  {
    var names := NamesOf(words);
    forall i, j {:trigger names[i], names[j]} | 0 <= i < j < |names|
      ensures names[i] != names[j]
    {
      NamesDiffer(words[i], words[j]);
    }
    forall n | n in names
      ensures NameLike(n)
    {
      var i :| 0 <= i < |names| && names[i] == n;
      NamesAreNames(words[i]);
    }
  }

  lemma {:induction false} AllAreNamed(statements: seq<Statement>, shuffled: seq<Statement>, defs: Definitions,
                                       rank: map<string, nat>)
    requires Lists(statements, defs, rank) && multiset(shuffled) == multiset(statements)
    requires (forall s | s in statements :: LeftIsQuantity(s.def)) && forall n | n in defs :: NameLike(n)
    ensures AllNamed(shuffled)
  {
    forall i | 0 <= i < |shuffled|
      ensures Named(shuffled[i])
    {
      var st := shuffled[i];
      assert st in multiset(shuffled);
      var j :| 0 <= j < |statements| && statements[j] == st;
      assert Operands(st.def) <= defs.Keys;
    }
  }

  lemma {:induction false} DefinedAreNames(statements: seq<Statement>, defs: Definitions, rank: map<string, nat>,
                                           names: seq<string>)
    requires Lists(statements, defs, rank) && NamedBy(statements, names) && forall n | n in names :: NameLike(n)
    ensures forall n | n in defs :: NameLike(n)
  {
    forall n | n in defs
      ensures NameLike(n)
    {
      var i :| 0 <= i < |statements| && statements[i].name == n;
      assert names[i] == n;
    }
  }

  lemma {:induction false} SomeStatement(statements: seq<Statement>, shuffled: seq<Statement>, defs: Definitions,
                                         rank: map<string, nat>, query: string)
    requires Lists(statements, defs, rank) && multiset(shuffled) == multiset(statements) && query in defs
    ensures shuffled != []
  {
    var i :| 0 <= i < |statements| && statements[i].name == query;
    assert statements[i] in multiset(shuffled);
  }

  /** Parses a prompt and evaluates its query: when it reads as grounded definitions, in any
      order, the result is the query's value under them. */
  method SolveFromPrompt(prompt: string, ghost statements: seq<Statement>, ghost defs: Definitions,
                         ghost rank: map<string, nat>, ghost values: Values)
    returns (answer: nat)
    requires Lists(statements, defs, rank) && Consistent(values, defs)
    requires Parse(prompt).Read? && multiset(Parse(prompt).statements) == multiset(statements)
      && Parse(prompt).query in defs
    ensures answer == values[Parse(prompt).query]
  {
    var parsed := ParsePrompt(prompt);
    answer := SolveShuffled(parsed.statements, parsed.query, statements, defs, rank, values);
  }

  lemma {:induction false} ShuffledParses(p: Problem, shuffled: seq<Statement>, defs: Definitions, rank: map<string,
                                          nat>)
    requires Lists(p.statements, defs, rank) && p.query in defs && multiset(shuffled) == multiset(p.statements)
    requires (forall s | s in p.statements :: LeftIsQuantity(s.def)) && forall n | n in defs :: NameLike(n)
    ensures (forall s | s in shuffled :: LeftIsQuantity(s.def))
      && Parse(PromptOf(shuffled, p.query)) == Read(shuffled, p.query)
  {
    AllAreNamed(p.statements, shuffled, defs, rank);
    SomeStatement(p.statements, shuffled, defs, rank, p.query);
    PromptParses(shuffled, p.query);
  }

  /** The prompt reads as grounded definitions, and under every valuation of them its query has
      this value. */
  ghost predicate AnswersPrompt(prompt: string, answer: nat) {
    && Parse(prompt).Read?
    && (exists defs, rank, values :: Evaluates(prompt, defs, rank, values))
    && forall defs, rank, values | Evaluates(prompt, defs, rank, values) :: values[Parse(prompt).query] == answer
  }

  ghost predicate Evaluates(prompt: string, defs: Definitions, rank: map<string, nat>, values: Values) {
    && Parse(prompt).Read? && Gives(Parse(prompt).statements, defs)
    && Grounded(defs, rank) && Consistent(values, defs) && Parse(prompt).query in defs
  }

  lemma {:induction false} AnswerIsForced(p: Problem, prompt: string, shuffled: seq<Statement>, defs: Definitions,
                                          rank: map<string, nat>, values: Values)
    requires Lists(p.statements, defs, rank) && Consistent(values, defs) && p.query in defs
      && p.answer == values[p.query]
    requires multiset(shuffled) == multiset(p.statements) && Parse(prompt) == Read(shuffled, p.query)
    ensures AnswersPrompt(prompt, p.answer)
  {
    ShuffledSame(p.statements, shuffled, defs, rank, defs);
    assert Evaluates(prompt, defs, rank, values);
    forall others, ranks, valuation | Evaluates(prompt, others, ranks, valuation)
      ensures valuation[p.query] == p.answer
    {
      ShuffledSame(p.statements, shuffled, defs, rank, others);
      ValuesUnique(valuation, values, defs, rank, p.query);
    }
  }

  /** Whatever is drawn, and however the statements are shuffled, the printed problem needs what
      was asked for, reads back to its own statements and question, and is solved to the answer
      that the prompt alone determines, which is the generator's. */
  method GenerateAndSolve(op: nat, first: nat, choices: seq<Choice>, distractors: seq<Distractor>, words: seq<Words>,
                          shuffle: seq<Statement> -> seq<Statement>)
    returns (p: Problem, prompt: string, solved: nat,
             ghost defs: Definitions, ghost rank: map<string, nat>, ghost values: Values, ghost needed: set<string>)
    requires op >= 1 && |choices| == op && !choices[0].second.UseDefined? && |distractors| <= MaxDistractors(op)
    requires |words| >= 2 * op + 5 && DrawnWords(words) && forall s :: multiset(shuffle(s)) == multiset(s)
    ensures Faithful(p, defs, rank, values, needed, op, |distractors|)
    ensures p.statements == Drawn(op, first, choices, distractors, NamesOf(words))
    ensures (forall s | s in shuffle(p.statements) :: LeftIsQuantity(s.def))
      && prompt == PromptOf(shuffle(p.statements), p.query)
    ensures Parse(prompt) == Read(shuffle(p.statements), p.query)
    ensures AnswersPrompt(prompt, solved) && solved == p.answer == values[p.query]
    ensures forall s | s in p.statements :: IsTrue(s, values) && InRange(s.def)
  {
    DrawnAreFresh(words);
    p, defs, rank, values, needed := GenerateProblem(op, first, choices, distractors, NamesOf(words));
    var shuffled := shuffle(p.statements);
    DrawnNames(op, first, choices, distractors, NamesOf(words));
    DefinedAreNames(p.statements, defs, rank, NamesOf(words));
    ShuffledParses(p, shuffled, defs, rank);
    prompt := PromptOf(shuffled, p.query);
    AnswerIsForced(p, prompt, shuffled, defs, rank, values);
    solved := SolveFromPrompt(prompt, p.statements, defs, rank, values);
  }
}
