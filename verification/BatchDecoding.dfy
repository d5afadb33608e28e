/** A whole batch: the context window, the rounds over all rows, and what the returned texts
    and counters say about each other (generate.py, generate_batch_with_stats). */
module BatchDecoding {
  import opened Wrappers
  import opened Tokens
  import opened QueryTries
  import opened Decoding
  import opened QuerySegments

  // ----- the context window -----

  function Min(a: int, b: int): int { if a < b then a else b }

  function Max(a: int, b: int): int { if a < b then b else a }

  /** Eight tokens are kept at least; beyond that, what leaves room for the new tokens or for
      half the context, whichever is less. */
  ghost predicate LeavesRoom(kept: int, maxNew: nat, ctx: nat) {
    && kept >= 8 && ctx - kept <= maxNew && 2 * (ctx - kept) <= ctx
    && (kept > 8 ==> ctx - kept == maxNew || 2 * (ctx - kept) + 1 >= ctx)
  }

  /** How many prompt tokens are kept. */
  function Keep(maxNew: nat, ctx: nat): nat {
    Max(8, ctx - Min(maxNew, ctx / 2))
  }

  function Clamped(prompt: seq<Token>, maxNew: nat, ctx: Option<nat>): seq<Token> {
    if ctx.None? || |prompt| <= Keep(maxNew, ctx.value) then prompt else prompt[|prompt| - Keep(maxNew, ctx.value)..]
  }

  /** The end of the prompt is kept, and cut only as far as that. */
  lemma {:induction false} ClampedKeeps(prompt: seq<Token>, maxNew: nat, ctx: Option<nat>)
    ensures var kept := Clamped(prompt, maxNew, ctx);
      && |kept| <= |prompt| && kept == prompt[|prompt| - |kept|..] && (ctx.None? ==> kept == prompt)
      && forall room | ctx.Some? && LeavesRoom(room, maxNew, ctx.value) ::
           |kept| == if |prompt| < room then |prompt| else room
    ensures ctx.Some? ==> LeavesRoom(Keep(maxNew, ctx.value), maxNew, ctx.value)
  {
  }

  function Budget(maxNew: nat, ctx: Option<nat>, padTo: nat): int {
    if ctx.None? then maxNew else Min(maxNew, ctx.value - padTo)
  }

  /** The width every prompt is left-padded to. */
  method Window(prompts: seq<seq<Token>>, maxNew: nat, ctx: Option<nat>) returns (padTo: nat, budget: int)
    ensures forall b | 0 <= b < |prompts| :: |Clamped(prompts[b], maxNew, ctx)| <= padTo
    ensures padTo == 1 || exists b :: 0 <= b < |prompts| && |Clamped(prompts[b], maxNew, ctx)| == padTo
    ensures budget == Budget(maxNew, ctx, padTo) <= maxNew && (ctx.None? ==> budget == maxNew)
    // Prompt and continuation fit a context of at least 8, with room for at least half of it, or max_new.
    ensures ctx.Some? && ctx.value >= 8 ==> padTo + Max(budget, 0) <= ctx.value
    ensures ctx.Some? && ctx.value >= 16 ==> budget >= Min(maxNew, ctx.value / 2)
  {
    padTo := 1;
    for b := 0 to |prompts|
      invariant padTo >= 1
      invariant forall a | 0 <= a < b :: |Clamped(prompts[a], maxNew, ctx)| <= padTo
      invariant padTo == 1 || exists a :: 0 <= a < b && |Clamped(prompts[a], maxNew, ctx)| == padTo
    {
      if |Clamped(prompts[b], maxNew, ctx)| > padTo {
        padTo := |Clamped(prompts[b], maxNew, ctx)|;
      }
    }
    budget := Budget(maxNew, ctx, padTo);
    assert ctx.Some? ==> padTo <= Max(1, Keep(maxNew, ctx.value));
  }

  // ----- the counters of a set of texts -----

  ghost function Plus(c: Counts, p: Protocol, copies: bool): Counts {
    Counts(c.lookups + |p.asked|, c.hits + p.hits, c.misses + p.misses, c.malformed + p.malformed,
           c.constrained + (if copies then |p.asked| else 0), c.deadEnds)
  }

  /** The counters of the first n rows, read back from their texts. */
  ghost function Tally(ps: seq<Protocol>, copies: seq<bool>, n: nat): Counts
    requires n <= |ps| == |copies|
  {
    if n == 0 then Counts(0, 0, 0, 0, 0, 0) else Plus(Tally(ps, copies, n - 1), ps[n - 1], copies[n - 1])
  }

  lemma {:induction false} TallyMoves(ps: seq<Protocol>, copies: seq<bool>, n: nat, b: nat, q: Protocol)
    requires n <= |ps| == |copies| && b < |ps|
    ensures b < n ==> Moved(Tally(ps, copies, n), Tally(ps[b := q], copies, n), ps[b], q, copies[b], 0)
    ensures b >= n ==> Tally(ps[b := q], copies, n) == Tally(ps, copies, n)
  {
    if n > 0 {
      TallyMoves(ps, copies, n - 1, b, q);
    }
  }

  ghost function Begun(ps: seq<Protocol>, n: nat): nat
    requires n <= |ps|
  {
    if n == 0 then 0 else Begun(ps, n - 1) + ps[n - 1].begun
  }

  ghost function Open(ps: seq<Protocol>, n: nat): nat
    requires n <= |ps|
  {
    if n == 0 then 0 else Open(ps, n - 1) + if ps[n - 1].state == InQuery then 1 else 0
  }

  /** Lookups hit or miss, and each query begun was looked up, abandoned or is still open. */
  lemma {:induction false} TalliesBalance(ps: seq<Protocol>, copies: seq<bool>, n: nat)
    requires n <= |ps| == |copies| && forall b | 0 <= b < n :: Balanced(ps[b])
    ensures var c := Tally(ps, copies, n);
            && c.lookups == c.hits + c.misses && c.constrained <= c.lookups
            && Begun(ps, n) == c.lookups + c.malformed + Open(ps, n)
  {
    if n > 0 {
      TalliesBalance(ps, copies, n - 1);
    }
  }

  // ----- rounds -----

  ghost function Walkers(rows: seq<Row>): set<QueryWalker?> {
    set b | 0 <= b < |rows| && rows[b].walker != null :: rows[b].walker
  }

  /** No two rows share a row object or a walker. */
  ghost predicate Separate(rows: seq<Row>) {
    && (forall a, b | 0 <= a < b < |rows| :: rows[a] != rows[b])
    && (forall a, b | 0 <= a < b < |rows| && rows[a].walker != null :: rows[a].walker != rows[b].walker)
  }

  /** How a row stands at a step: it is speaking, its text is over, or it is in no state that the
      model's choices account for. */
  datatype Standing = Speaking | Over | Astray

  /** What a row has said by step `step`, read off its text: each token fits its own step, the row
      is done only because its text has ended, and otherwise has said one token a step. */
  ghost function Told(text: seq<Token>, done: bool, copies: bool, keys: set<seq<Token>>, b: nat, step: nat,
                      choices: nat -> nat -> Token, scores: nat -> nat -> Token -> int, setup: Setup): Standing
  {
    if !Spoken(text, b, copies, keys, choices, scores, setup) || |text| > step then Astray
    else if done then if Ended(text, b, copies, keys, choices, scores, setup) then Over else Astray
    else if |text| == step then Speaking else Astray
  }

  ghost function Tells(row: Row, b: nat, step: nat, choices: nat -> nat -> Token, scores: nat -> nat -> Token -> int,
                       setup: Setup): Standing
    reads row
  {
    Told(row.generated, row.done, row.walker != null, row.keys, b, step, choices, scores, setup)
  }

  /** A step of a row that is not done. */
  lemma {:induction false} ToldMore(text: seq<Token>, next: Token, after: seq<Token>, done: bool, b: nat, step: nat,
                                    count: nat, copies: bool, keys: set<seq<Token>>,
                                    choices: nat -> nat -> Token, scores: nat -> nat -> Token -> int, setup: Setup)
    requires Spoken(text, b, copies, keys, choices, scores, setup) && |text| == step && count == step + 1
    requires var p := After(text, |text|, setup);
      if p.force != [] then next == p.force[0] && after == text + [next] && (done <==> |after| == setup.maxNew)
      else
        && Picks(next, p, copies, keys, choices(step)(b), scores(step)(b), setup)
        && after == (if setup.stopAtEot && next == setup.eot then text else text + [next])
        && (done <==> |after| == setup.maxNew || (setup.stopAtEot && next == setup.eot))
    ensures Spoken(after, b, copies, keys, choices, scores, setup) && |after| <= count
    ensures if done then Ended(after, b, copies, keys, choices, scores, setup) else |after| == count
  {
    if after != text {
      SpokenMore(text, next, b, copies, keys, choices, scores, setup);
    }
  }

  /** One step of one row. */
  method StepRow(row: Row, b: nat, choice: Token, score: Token -> int, setup: Setup, stats: Stats, ghost p: Protocol,
                 ghost step: nat, ghost count: nat, ghost choices: nat -> nat -> Token,
                 ghost scores: nat -> nat -> Token -> int)
    returns (next: Token, ghost q: Protocol)
    requires setup.maxNew > 0 && setup.eot != setup.dbRetrieve && row.Agreed(setup) == Some(p)
    requires choice == choices(step)(b) && score == scores(step)(b) && count == step + 1
    requires Tells(row, b, step, choices, scores, setup) != Astray
    modifies row, if row.walker == null then {} else {row.walker}, stats
    ensures row.Agreed(setup) == Some(q) && Tells(row, b, count, choices, scores, setup) != Astray
    ensures Moved(old(stats.All()), stats.All(), p, q, row.walker != null, if old(row.DeadEnd(setup)) then 1 else 0)
  {
    ghost var text, was := row.generated, row.done;
    next := row.Step(choice, score, setup, stats);
    q := row.Read(setup);
    if !was {
      ToldMore(text, next, row.generated, row.done, b, step, count, row.walker != null, row.keys, choices, scores,
        setup);
    }
  }

  /** What a step of row b may change is no part of row a. */
  lemma {:induction false} OutOfReach(rows: seq<Row>, a: nat, b: nat, stats: Stats)
    requires Separate(rows) && a < |rows| && b < |rows| && a != b
    ensures rows[a].Reach() !! {rows[b], rows[b].walker, stats}
  {
    assert rows[a] != rows[b];
    assert rows[a].walker != null ==> rows[a].walker != rows[b].walker;
  }

  /** One step of row b leaves every other row as it was. */
  method StepOne(rows: seq<Row>, b: nat, choice: Token, score: Token -> int, setup: Setup, stats: Stats,
                 ghost ps: seq<Protocol>,
                 ghost step: nat, ghost count: nat, ghost choices: nat -> nat -> Token,
                 ghost scores: nat -> nat -> Token -> int)
    returns (next: Token, ghost qs: seq<Protocol>)
    requires b < |rows| == |ps| && Separate(rows) && setup.maxNew > 0 && setup.eot != setup.dbRetrieve
    requires forall a | 0 <= a < |rows| :: rows[a].Agreed(setup) == Some(ps[a])
    requires choice == choices(step)(b) && score == scores(step)(b) && count == step + 1
    requires Tells(rows[b], b, step, choices, scores, setup) != Astray
    modifies rows[b], if rows[b].walker == null then {} else {rows[b].walker}, stats
    ensures Tells(rows[b], b, count, choices, scores, setup) != Astray
    ensures forall a | 0 <= a < |rows| && a != b ::
      rows[a].generated == old(rows[a].generated) && rows[a].done == old(rows[a].done)
    ensures |qs| == |ps| && (forall a | 0 <= a < |rows| :: rows[a].Agreed(setup) == Some(qs[a])) && qs == ps[b := qs[b]]
    ensures Moved(old(stats.All()), stats.All(), ps[b], qs[b], rows[b].walker != null, if old(rows[b].DeadEnd(setup))
      then 1 else 0)
  {
    ghost var q;
    forall a | 0 <= a < |rows| && a != b
      ensures rows[a].Reach() !! {rows[b], rows[b].walker, stats}
    {
      OutOfReach(rows, a, b, stats);
    }
    next, q := StepRow(rows[b], b, choice, score, setup, stats, ps[b], step, count, choices, scores);
    qs := ps[b := q];
  }

  ghost predicate Keyed(rows: seq<Row>) {
    forall b | 0 <= b < |rows| && rows[b].walker != null :: rows[b].keys != {}
  }

  /** The counters are those of the texts, and no dead end was met unless some trie is empty. */
  ghost predicate Counted(c: Counts, ps: seq<Protocol>, copies: seq<bool>, keyed: bool)
    requires |ps| == |copies|
  {
    c.(deadEnds := 0) == Tally(ps, copies, |ps|) && (keyed ==> c.deadEnds == 0)
  }

  lemma CountedMoves(before: Counts, after: Counts, ps: seq<Protocol>, copies: seq<bool>, keyed: bool, b: nat,
                     q: Protocol, deadEnds: nat)
    requires |ps| == |copies| && b < |ps| && Counted(before, ps, copies, keyed)
    requires Moved(before, after, ps[b], q, copies[b], deadEnds) && (keyed ==> deadEnds == 0)
    ensures Counted(after, ps[b := q], copies, keyed)
  {
    TallyMoves(ps, copies, |ps|, b, q);
  }

  /** Within a round, the first b rows have taken their step. */
  ghost predicate InRound(rows: seq<Row>, b: nat, step: nat, count: nat, choices: nat -> nat -> Token,
                          scores: nat -> nat -> Token -> int, setup: Setup)
    reads rows
  {
    forall a | 0 <= a < |rows| ::
      Tells(rows[a], a, if a < b then count else step, choices, scores, setup) != Astray
  }

  /** One step of row b, counters included. */
  method StepCounted(rows: seq<Row>, b: nat, choice: Token, score: Token -> int, setup: Setup, stats: Stats,
                     ghost ps: seq<Protocol>, ghost copies: seq<bool>,
                     ghost step: nat, ghost count: nat, ghost more: nat, ghost choices: nat -> nat -> Token,
                     ghost scores: nat -> nat -> Token -> int)
    returns (next: Token, ghost qs: seq<Protocol>)
    requires b < |rows| == |ps| == |copies| && Separate(rows) && setup.maxNew > 0 && setup.eot != setup.dbRetrieve
    requires (forall a | 0 <= a < |rows| :: rows[a].Agreed(setup) == Some(ps[a]))
      && copies[b] == (rows[b].walker != null)
    requires Counted(stats.All(), ps, copies, Keyed(rows))
    requires choice == choices(step)(b) && score == scores(step)(b) && count == step + 1
    requires InRound(rows, b, step, count, choices, scores, setup) && more == b + 1
    modifies rows, Walkers(rows), stats
    ensures InRound(rows, more, step, count, choices, scores, setup)
    ensures |qs| == |rows| && forall a | 0 <= a < |rows| :: rows[a].Agreed(setup) == Some(qs[a])
    ensures Counted(stats.All(), qs, copies, Keyed(rows))
  {
    ghost var before := stats.All();
    assert rows[b].walker != null ==> rows[b].walker in Walkers(rows);
    assert Tells(rows[b], b, step, choices, scores, setup) != Astray;
    ghost var deadEnds := if rows[b].DeadEnd(setup) then 1 else 0;
    next, qs := StepOne(rows, b, choice, score, setup, stats, ps, step, count, choices, scores);
    CountedMoves(before, stats.All(), ps, copies, Keyed(rows), b, qs[b], deadEnds);
  }

  /** Every row takes one step; the rows' next tokens are what the model is fed. */
  method Round(rows: seq<Row>, step: nat, ghost count: nat, choices: nat -> nat -> Token,
               scores: nat -> nat -> Token -> int, setup: Setup, stats: Stats,
               ghost ps: seq<Protocol>, ghost copies: seq<bool>)
    returns (nextIds: seq<Token>, ghost qs: seq<Protocol>)
    requires |rows| == |ps| == |copies| && Separate(rows) && setup.maxNew > 0 && setup.eot != setup.dbRetrieve
      && count == step + 1
    requires forall a | 0 <= a < |rows| :: rows[a].Agreed(setup) == Some(ps[a])
    requires InRound(rows, 0, step, count, choices, scores, setup)
    requires forall a | 0 <= a < |rows| :: copies[a] == (rows[a].walker != null)
    requires Counted(stats.All(), ps, copies, Keyed(rows))
    modifies rows, Walkers(rows), stats
    ensures |nextIds| == |rows| == |qs| && forall a | 0 <= a < |rows| :: rows[a].Agreed(setup) == Some(qs[a])
    ensures InRound(rows, |rows|, step, count, choices, scores, setup)
    ensures Counted(stats.All(), qs, copies, Keyed(rows))
  {
    nextIds, qs := [], ps;
    for b: nat := 0 to |rows|
      invariant |nextIds| == b && |qs| == |rows| && forall a | 0 <= a < |rows| :: rows[a].Agreed(setup) == Some(qs[a])
      invariant InRound(rows, b, step, count, choices, scores, setup)
      invariant Counted(stats.All(), qs, copies, Keyed(rows))
    {
      var next;
      ghost var more := b + 1;
      next, qs := StepCounted(rows, b, choices(step)(b), scores(step)(b), setup, stats, qs, copies, step, count, more,
        choices, scores);
      nextIds := nextIds + [next];
    }
  }

  lemma {:induction false} RoundBegins(rows: seq<Row>, step: nat, count: nat, choices: nat -> nat -> Token,
                                       scores: nat -> nat -> Token -> int, setup: Setup)
    requires forall a | 0 <= a < |rows| :: Tells(rows[a], a, step, choices, scores, setup) != Astray
    ensures InRound(rows, 0, step, count, choices, scores, setup)
  {
  }

  lemma {:induction false} RoundEnds(rows: seq<Row>, step: nat, count: nat, choices: nat -> nat -> Token,
                                     scores: nat -> nat -> Token -> int, setup: Setup)
    requires InRound(rows, |rows|, step, count, choices, scores, setup)
    ensures forall a | 0 <= a < |rows| :: Tells(rows[a], a, count, choices, scores, setup) != Astray
  {
  }

  // ----- the batch -----

  /** What each text says about its lookups. */
  ghost function Readings(texts: seq<seq<Token>>, setup: Setup): seq<Protocol> {
    seq(|texts|, b requires 0 <= b < |texts| => After(texts[b], |texts[b]|, setup))
  }

  ghost function Copying(tries: seq<QueryTrie?>): seq<bool> {
    seq(|tries|, b requires 0 <= b < |tries| => tries[b] != null)
  }

  ghost predicate Usable(trie: QueryTrie?, setup: Setup)
    reads trie, if trie == null then {} else trie.nodes
  {
    trie != null ==> trie.Valid() && trie.retrieve == setup.dbRetrieve
  }

  ghost predicate Serves(row: Row, trie: QueryTrie?)
    reads trie
  {
    (row.walker != null <==> trie != null) && (trie != null ==> row.keys == trie.keys)
  }

  method MakeRow(trie: QueryTrie?, setup: Setup) returns (row: Row)
    requires Usable(trie, setup)
    ensures fresh(row) && (row.walker != null ==> fresh(row.walker))
    ensures row.Agreed(setup) == Some(START) && Serves(row, trie) && row.generated == [] && !row.done
  {
    var walker: QueryWalker? := null;
    if trie != null {
      walker := new QueryWalker(trie);
    }
    row := new Row(walker, setup);
  }

  method MakeRows(tries: seq<QueryTrie?>, setup: Setup) returns (rows: seq<Row>)
    requires forall b | 0 <= b < |tries| :: Usable(tries[b], setup)
    ensures |rows| == |tries| && Separate(rows)
    ensures forall b | 0 <= b < |rows| :: fresh(rows[b]) && (rows[b].walker != null ==> fresh(rows[b].walker))
    ensures forall b | 0 <= b < |rows| ::
      rows[b].Agreed(setup) == Some(START) && Serves(rows[b], tries[b]) && rows[b].generated == [] && !rows[b].done
  {
    rows := [];
    for b := 0 to |tries|
      invariant |rows| == b && Separate(rows)
      invariant forall a | 0 <= a < b :: fresh(rows[a]) && (rows[a].walker != null ==> fresh(rows[a].walker))
      invariant forall a | 0 <= a < b ::
        rows[a].Agreed(setup) == Some(START) && Serves(rows[a], tries[a]) && rows[a].generated == [] && !rows[a].done
    {
      var row := MakeRow(tries[b], setup);
      rows := rows + [row];
    }
  }

  /** Query keys asked from row b, where its trie could only spell whole keys. */
  ghost predicate AsksItsKeys(p: Protocol, trie: QueryTrie?, retrieve: Token)
    reads trie
  {
    trie != null && trie.keys != {} && RetrieveFree(trie.keys, retrieve) ==> AskedOnly(p, trie.keys)
  }

  lemma {:induction false} StartTally(ps: seq<Protocol>, copies: seq<bool>, n: nat)
    requires n <= |ps| == |copies| && forall b | 0 <= b < |ps| :: ps[b] == START
    ensures Tally(ps, copies, n) == Counts(0, 0, 0, 0, 0, 0)
  {
    if n > 0 {
      StartTally(ps, copies, n - 1);
    }
  }

  /** What text b is: each of its tokens fits its own step, and it stops only at its length, where
      the model may end it, or when the budget is spent. */
  ghost predicate Answers(text: seq<Token>, b: nat, trie: QueryTrie?, budget: int, choices: nat -> nat -> Token,
                          scores: nat -> nat -> Token -> int, setup: Setup)
    reads trie
  {
    var keys := if trie == null then {} else trie.keys;
    && Spoken(text, b, trie != null, keys, choices, scores, setup) && |text| <= Max(budget, 0)
    && (|text| == Max(budget, 0) || Ended(text, b, trie != null, keys, choices, scores, setup))
  }

  /** Reads the texts and counters off the rows. */
  method Collect(rows: seq<Row>, tries: seq<QueryTrie?>, setup: Setup, ghost ps: seq<Protocol>, ghost step: nat,
                 ghost budget: int,
                 ghost choices: nat -> nat -> Token, ghost scores: nat -> nat -> Token -> int)
    returns (texts: seq<seq<Token>>)
    requires |rows| == |ps| == |tries| && forall a | 0 <= a < |rows| ::
      rows[a].Agreed(setup) == Some(ps[a]) && Serves(rows[a], tries[a])
    requires forall a | 0 <= a < |rows| :: Tells(rows[a], a, step, choices, scores, setup) != Astray
    requires step <= Max(budget, 0) && (step == Max(budget, 0) || forall a | 0 <= a < |rows| :: rows[a].done)
    ensures |texts| == |rows| && Readings(texts, setup) == ps
    ensures forall b | 0 <= b < |texts| ::
      |texts[b]| <= setup.maxNew && Follows(texts[b], setup) && AsksItsKeys(ps[b], tries[b], setup.dbRetrieve)
    ensures forall b | 0 <= b < |texts| :: Answers(texts[b], b, tries[b], budget, choices, scores, setup)
  {
    texts := [];
    for b := 0 to |rows|
      invariant |texts| == b && forall a | 0 <= a < b ::
        texts[a] == rows[a].generated && |texts[a]| <= setup.maxNew && Follows(texts[a], setup)
          && AsksItsKeys(ps[a], tries[a], setup.dbRetrieve)
    {
      assert rows[b].Agreed(setup) == Some(ps[b]) && rows[b].Valid(setup);
      texts := texts + [rows[b].generated];
    }
    forall b | 0 <= b < |rows|
      ensures Readings(texts, setup)[b] == ps[b]
      ensures Answers(texts[b], b, tries[b], budget, choices, scores, setup)
    {
      assert rows[b].Agreed(setup) == Some(ps[b]);
      assert Tells(rows[b], b, step, choices, scores, setup) != Astray && Serves(rows[b], tries[b]);
    }
  }

  /** Rounds until the budget is spent or every row is done. */
  method Rounds(rows: seq<Row>, budget: int, choices: nat -> nat -> Token, scores: nat -> nat -> Token -> int,
                setup: Setup, stats: Stats, ghost ps: seq<Protocol>, ghost copies: seq<bool>)
    returns (ghost qs: seq<Protocol>, ghost steps: nat)
    requires |rows| == |ps| == |copies| && Separate(rows) && setup.maxNew > 0 && setup.eot != setup.dbRetrieve
    requires forall a | 0 <= a < |rows| :: rows[a].Agreed(setup) == Some(ps[a])
    requires forall a | 0 <= a < |rows| :: Tells(rows[a], a, 0, choices, scores, setup) != Astray
    requires forall a | 0 <= a < |rows| :: copies[a] == (rows[a].walker != null)
    requires Counted(stats.All(), ps, copies, Keyed(rows))
    modifies rows, Walkers(rows), stats
    ensures |qs| == |rows| && forall a | 0 <= a < |rows| :: rows[a].Agreed(setup) == Some(qs[a])
    ensures forall a | 0 <= a < |rows| :: Tells(rows[a], a, steps, choices, scores, setup) != Astray
    ensures steps <= Max(budget, 0) && (steps == Max(budget, 0) || forall a | 0 <= a < |rows| :: rows[a].done)
    ensures Counted(stats.All(), qs, copies, Keyed(rows))
  {
    qs := ps;
    var step: nat, finished := 0, false;
    while step < budget && !finished
      invariant |qs| == |rows| && forall a | 0 <= a < |rows| :: rows[a].Agreed(setup) == Some(qs[a])
      invariant forall a | 0 <= a < |rows| :: Tells(rows[a], a, step, choices, scores, setup) != Astray
      invariant step <= Max(budget, 0) && (finished ==> forall a | 0 <= a < |rows| :: rows[a].done)
      invariant Counted(stats.All(), qs, copies, Keyed(rows))
      decreases budget - step
    {
      ghost var count := step + 1;
      var nextIds;
      RoundBegins(rows, step, count, choices, scores, setup);
      nextIds, qs := Round(rows, step, count, choices, scores, setup, stats, qs, copies);
      RoundEnds(rows, step, count, choices, scores, setup);
      finished := forall b | 0 <= b < |rows| :: rows[b].done;
      step := step + 1;
    }
    steps := step;
  }

  lemma TextsBalance(texts: seq<seq<Token>>, copies: seq<bool>, setup: Setup)
    requires |texts| == |copies|
    ensures var ps := Readings(texts, setup); var c := Tally(ps, copies, |ps|);
            && c.lookups == c.hits + c.misses && c.constrained <= c.lookups
            && Begun(ps, |ps|) == c.lookups + c.malformed + Open(ps, |ps|)
  {
    forall b | 0 <= b < |texts|
      ensures Balanced(Readings(texts, setup)[b])
    {
      AlwaysBalanced(texts[b], |texts[b]|, setup);
    }
    TalliesBalance(Readings(texts, setup), copies, |texts|);
  }

  lemma {:induction false} TextsExplained(texts: seq<seq<Token>>, setup: Setup)
    requires forall b | 0 <= b < |texts| :: Follows(texts[b], setup)
    ensures forall b | 0 <= b < |texts| :: Explained(texts[b], setup)
  {
    forall b | 0 <= b < |texts|
      ensures Explained(texts[b], setup)
    {
      TextExplained(texts[b], setup);
    }
  }

  function Encoded(setup: Setup, prompts: seq<string>): seq<seq<Token>> {
    seq(|prompts|, b requires 0 <= b < |prompts| => setup.encode(prompts[b]))
  }

  /** The width that every clamped prompt is padded to. */
  ghost predicate PadsTo(setup: Setup, prompts: seq<string>, ctx: Option<nat>, padTo: nat) {
    var encoded := Encoded(setup, prompts);
    && (forall b | 0 <= b < |encoded| :: |Clamped(encoded[b], setup.maxNew, ctx)| <= padTo)
    && (padTo == 1 || exists b :: 0 <= b < |encoded| && |Clamped(encoded[b], setup.maxNew, ctx)| == padTo)
  }

  /** Rows that have said nothing yet, and counters at zero. */
  method StartRows(setup: Setup, tries: seq<QueryTrie?>, ghost choices: nat -> nat -> Token,
                   ghost scores: nat -> nat -> Token -> int, ghost copies: seq<bool>)
    returns (rows: seq<Row>, stats: Stats, ghost ps: seq<Protocol>)
    requires (forall b | 0 <= b < |tries| :: Usable(tries[b], setup)) && copies == Copying(tries)
    ensures fresh(stats) && |rows| == |tries| == |ps| && Separate(rows)
    ensures forall a | 0 <= a < |rows| :: fresh(rows[a]) && (rows[a].walker != null ==> fresh(rows[a].walker))
    ensures forall a | 0 <= a < |rows| :: rows[a].Agreed(setup) == Some(ps[a]) && Serves(rows[a], tries[a])
    ensures forall a | 0 <= a < |rows| :: Tells(rows[a], a, 0, choices, scores, setup) != Astray
    ensures Counted(stats.All(), ps, copies, Keyed(rows))
  {
    rows := MakeRows(tries, setup);
    stats := new Stats();
    ps := seq(|rows|, b => START);
    StartTally(ps, copies, |ps|);
  }

  method DecodeRows(setup: Setup, tries: seq<QueryTrie?>, budget: int, choices: nat -> nat -> Token,
                    scores: nat -> nat -> Token -> int, ghost copies: seq<bool>)
    returns (rows: seq<Row>, stats: Stats, ghost ps: seq<Protocol>, ghost steps: nat)
    requires setup.eot != setup.dbRetrieve && copies == Copying(tries) && budget <= setup.maxNew
    requires forall b | 0 <= b < |tries| :: Usable(tries[b], setup)
    ensures |rows| == |tries| == |ps|
    ensures forall a | 0 <= a < |rows| :: rows[a].Agreed(setup) == Some(ps[a]) && Serves(rows[a], tries[a])
    ensures forall a | 0 <= a < |rows| :: Tells(rows[a], a, steps, choices, scores, setup) != Astray
    ensures steps <= Max(budget, 0) && (steps == Max(budget, 0) || forall a | 0 <= a < |rows| :: rows[a].done)
    ensures Counted(stats.All(), ps, copies, Keyed(rows))
  {
    rows, stats, ps := StartRows(setup, tries, choices, scores, copies);
    steps := 0;
    if |tries| > 0 && setup.maxNew > 0 {
      ps, steps := Rounds(rows, budget, choices, scores, setup, stats, ps, copies);
    }
  }

  /** Decodes a batch. Each token of a text is forced by a hit, or the best possible one of its
      row's keys inside a query, or the model's choice; a text stops only at its length, where the
      model may end it, or when the context is full. Whatever the model prefers, the counters are
      those the texts show, and every query of a constrained row is a whole key of its trie. */
  method GenerateBatch(setup: Setup, prompts: seq<string>, tries: seq<QueryTrie?>, ctx: Option<nat>,
                       choices: nat -> nat -> Token, scores: nat -> nat -> Token -> int)
    returns (texts: seq<seq<Token>>, counts: Counts, ghost padTo: nat)
    requires |tries| == |prompts| && setup.eot != setup.dbRetrieve
    requires forall b | 0 <= b < |tries| :: Usable(tries[b], setup)
    ensures |texts| == |prompts| && PadsTo(setup, prompts, ctx, padTo)
    ensures forall b | 0 <= b < |texts| ::
      Answers(texts[b], b, tries[b], Budget(setup.maxNew, ctx, padTo), choices, scores, setup)
    ensures forall b | 0 <= b < |texts| :: |texts[b]| <= setup.maxNew && Follows(texts[b], setup)
    ensures counts.(deadEnds := 0) == Tally(Readings(texts, setup), Copying(tries), |texts|)
    ensures counts.lookups == counts.hits + counts.misses && counts.constrained <= counts.lookups
    ensures Begun(Readings(texts, setup), |texts|) == counts.lookups + counts.malformed
      + Open(Readings(texts, setup), |texts|)
    ensures forall b | 0 <= b < |texts| :: Explained(texts[b], setup)
    ensures (forall b | 0 <= b < |tries| && tries[b] != null :: tries[b].keys != {}) ==> counts.deadEnds == 0
    ensures forall b | 0 <= b < |texts| :: AsksItsKeys(Readings(texts, setup)[b], tries[b], setup.dbRetrieve)
  {
    ghost var copies := Copying(tries);
    var rows, stats;
    ghost var ps, steps;
    var width, budget := Window(Encoded(setup, prompts), setup.maxNew, ctx);
    padTo := width;
    rows, stats, ps, steps := DecodeRows(setup, tries, budget, choices, scores, copies);
    counts := Counts(stats.lookups, stats.hits, stats.misses, stats.malformed, stats.constrained, stats.deadEnds);
    texts := Collect(rows, tries, setup, ps, steps, budget, choices, scores);
    TextsBalance(texts, copies, setup);
    TextsExplained(texts, setup);
  }
}
