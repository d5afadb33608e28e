/** Batched decoding with lookup interception: the per-row state machine, its trie cursor and
    the shared counters (generate.py, _advance_state and generate_batch_with_stats). The
    model's logits are an arbitrary oracle. */
module Decoding {
  import opened Wrappers
  import opened Tokens
  import opened QueryTries

  const QUERY_TOKEN_CAP := 32

  datatype State = Free | InQuery

  /** The tokenizer's special tokens and codec, the store (None: off), and the limits. */
  datatype Setup = Setup(dbStart: Token, dbRetrieve: Token, dbEnd: Token, eot: Token,
                         encode: string -> seq<Token>, decode: seq<Token> -> string,
                         organizer: Option<string -> Option<string>>, maxNew: nat, stopAtEot: bool)

  // ----- reading a run back from its text -----

  /** What a text so far says about lookups: the queries in progress, asked and abandoned, and
      the tokens a hit still forces. */
  datatype Protocol = Protocol(state: State, queryIds: seq<Token>, force: seq<Token>,
                               begun: nat, asked: seq<seq<Token>>, hits: nat, misses: nat, malformed: nat)

  const START := Protocol(Free, [], [], 0, [], 0, 0, 0)

  ghost function Forced(value: string, setup: Setup): seq<Token> {
    setup.encode(" " + value) + [setup.dbEnd]
  }

  ghost function Answer(p: Protocol, lookup: string -> Option<string>, setup: Setup): Protocol {
    var asked := p.(state := Free, asked := p.asked + [p.queryIds]);
    match lookup(setup.decode(p.queryIds))
    case None => asked.(misses := p.misses + 1)
    case Some(value) => asked.(hits := p.hits + 1, force := p.force + Forced(value, setup))
  }

  ghost function Next(p: Protocol, t: Token, lookup: string -> Option<string>, setup: Setup): Protocol {
    if p.force != [] then p.(force := p.force[1..])
    else if p.state == Free then
      if t == setup.dbStart then p.(state := InQuery, queryIds := [], begun := p.begun + 1) else p
    else if t == setup.dbRetrieve then Answer(p, lookup, setup)
    else
      var longer := p.(queryIds := p.queryIds + [t]);
      if |longer.queryIds| >= QUERY_TOKEN_CAP then longer.(state := Free, malformed := p.malformed + 1) else longer
  }

  /** The protocol after the first n tokens of a text; nothing happens with the store off. */
  ghost function After(text: seq<Token>, n: nat, setup: Setup): Protocol
    requires n <= |text|
  {
    if n == 0 || setup.organizer.None? then START
    else Next(After(text, n - 1, setup), text[n - 1], setup.organizer.value, setup)
  }

  /** Wherever a hit is being spelled out, the text holds the token it forces. */
  ghost predicate Follows(text: seq<Token>, setup: Setup) {
    forall i {:trigger After(text, i, setup)} | 0 <= i < |text| && After(text, i, setup).force != [] ::
      text[i] == After(text, i, setup).force[0]
  }

  lemma {:induction false} AfterPrefix(text: seq<Token>, more: seq<Token>, n: nat, setup: Setup)
    requires n <= |text|
    ensures After(text + more, n, setup) == After(text, n, setup)
  {
    if n > 0 && setup.organizer.Some? {
      AfterPrefix(text, more, n - 1, setup);
    }
  }

  lemma AfterOneMore(text: seq<Token>, t: Token, setup: Setup)
    requires Follows(text, setup)
    requires After(text, |text|, setup).force != [] ==> t == After(text, |text|, setup).force[0]
    ensures Follows(text + [t], setup)
    ensures setup.organizer.Some? ==>
              After(text + [t], |text| + 1, setup) == Next(After(text, |text|, setup), t, setup.organizer.value, setup)
  {
    forall i | 0 <= i <= |text|
      ensures After(text + [t], i, setup) == After(text, i, setup)
    {
      AfterPrefix(text, [t], i, setup);
    }
  }

  ghost predicate Balanced(p: Protocol) {
    && |p.asked| == p.hits + p.misses
    && p.begun == |p.asked| + p.malformed + (if p.state == InQuery then 1 else 0)
    && (p.state == InQuery ==> p.force == [] && |p.queryIds| < QUERY_TOKEN_CAP)
  }

  /** In every text, at every point: each lookup hit or missed, each opened query was asked,
      abandoned or is the one still open, which is under the cap. */
  lemma {:induction false} AlwaysBalanced(text: seq<Token>, n: nat, setup: Setup)
    requires n <= |text|
    ensures Balanced(After(text, n, setup))
  {
    if n > 0 && setup.organizer.Some? {
      AlwaysBalanced(text, n - 1, setup);
    }
  }

  lemma {:induction false} HitForces(text: seq<Token>, i: nat, value: string, setup: Setup, j: nat)
    requires Follows(text, setup) && i < |text| && setup.organizer.Some?
    requires After(text, i, setup).state == InQuery && text[i] == setup.dbRetrieve
    requires setup.organizer.value(setup.decode(After(text, i, setup).queryIds)) == Some(value)
    requires j <= |Forced(value, setup)| && i + 1 + j <= |text|
    ensures After(text, i + 1 + j, setup).force == Forced(value, setup)[j..]
    ensures After(text, i + 1 + j, setup).begun == After(text, i, setup).begun
    ensures text[i + 1..i + 1 + j] == Forced(value, setup)[..j]
  {
    if j == 0 {
      AlwaysBalanced(text, i, setup);
    } else {
      HitForces(text, i, value, setup, j - 1);
      var before := After(text, i + j, setup);
      assert before.force[0] == Forced(value, setup)[j - 1];
      assert text[i + j] == before.force[0];
      assert text[i + 1..i + 1 + j] == text[i + 1..i + j] + [text[i + j]];
    }
  }

  /** A hit is followed by exactly its value's tokens and DB_END, as far as the text goes, and
      opens no query before they end. */
  lemma {:induction false} HitIsSpelled(text: seq<Token>, i: nat, value: string, setup: Setup, tokens: seq<Token>,
                                        j: nat)
    requires Follows(text, setup) && i < |text| && setup.organizer.Some?
    requires After(text, i, setup).state == InQuery && text[i] == setup.dbRetrieve
    requires setup.organizer.value(setup.decode(After(text, i, setup).queryIds)) == Some(value)
    requires tokens == setup.encode(" " + value) && j <= |tokens| && i + 1 + j < |text|
    ensures text[i + 1 + j] == if j < |tokens| then tokens[j] else setup.dbEnd
    ensures After(text, i + 1 + j, setup).begun == After(text, i, setup).begun
  {
    var forced := Forced(value, setup);
    assert forced[j] == if j < |tokens| then tokens[j] else setup.dbEnd;
    HitForces(text, i, value, setup, j);
    assert After(text, i + 1 + j, setup).force[0] == forced[j];
  }

  // ----- what a row may say -----

  /** The i-th token: forced by a hit, or one the model may choose, and then no end of text. */
  ghost predicate Fits(text: seq<Token>, i: nat, copies: bool, keys: set<seq<Token>>, choice: Token,
                       score: Token -> int, setup: Setup)
    requires i < |text|
  {
    var p := After(text, i, setup);
    if p.force != [] then text[i] == p.force[0]
    else Picks(text[i], p, copies, keys, choice, score, setup) && !(setup.stopAtEot && text[i] == setup.eot)
  }

  /** Every token fits the choice and the scores of its own step. */
  ghost predicate Spoken(text: seq<Token>, b: nat, copies: bool, keys: set<seq<Token>>, choices: nat -> nat -> Token,
                         scores: nat -> nat -> Token -> int, setup: Setup) {
    forall i | 0 <= i < |text| :: Fits(text, i, copies, keys, choices(i)(b), scores(i)(b), setup)
  }

  /** The text is as long as it may be, or the model may choose to end it here. */
  ghost predicate Ended(text: seq<Token>, b: nat, copies: bool, keys: set<seq<Token>>, choices: nat -> nat -> Token,
                        scores: nat -> nat -> Token -> int, setup: Setup) {
    var p := After(text, |text|, setup);
    || |text| == setup.maxNew
    || (setup.stopAtEot && p.force == []
         && Picks(setup.eot, p, copies, keys, choices(|text|)(b), scores(|text|)(b), setup))
  }

  lemma {:induction false} SpokenMore(text: seq<Token>, t: Token, b: nat, copies: bool, keys: set<seq<Token>>,
                                      choices: nat -> nat -> Token,
                                      scores: nat -> nat -> Token -> int, setup: Setup)
    requires Spoken(text, b, copies, keys, choices, scores, setup)
    requires var p := After(text, |text|, setup);
      if p.force != [] then t == p.force[0]
      else
        && Picks(t, p, copies, keys, choices(|text|)(b), scores(|text|)(b), setup)
        && !(setup.stopAtEot && t == setup.eot)
    ensures Spoken(text + [t], b, copies, keys, choices, scores, setup)
  {
    forall i | 0 <= i <= |text|
      ensures Fits(text + [t], i, copies, keys, choices(i)(b), scores(i)(b), setup)
    {
      AfterPrefix(text, [t], i, setup);
      if i < |text| {
        assert Fits(text, i, copies, keys, choices(i)(b), scores(i)(b), setup);
      }
    }
  }

  // ----- one row -----

  datatype Counts = Counts(lookups: nat, hits: nat, misses: nat, malformed: nat, constrained: nat, deadEnds: nat)

  class Stats {
    var lookups: nat
    var hits: nat
    var misses: nat
    var malformed: nat
    var constrained: nat
    var deadEnds: nat

    constructor ()
      ensures lookups == hits == misses == malformed == constrained == deadEnds == 0
    {
      lookups, hits, misses, malformed, constrained, deadEnds := 0, 0, 0, 0, 0, 0;
    }

    ghost function All(): Counts
      reads this
    {
      Counts(lookups, hits, misses, malformed, constrained, deadEnds)
    }
  }

  /** The counters move by what the text gained; a row with a walker also counts its lookups
      as constrained. */
  ghost predicate Moved(before: Counts, after: Counts, p: Protocol, q: Protocol, copies: bool, deadEnds: nat) {
    && after.lookups == before.lookups + |q.asked| - |p.asked|
    && after.hits == before.hits + q.hits - p.hits && after.misses == before.misses + q.misses - p.misses
    && after.malformed == before.malformed + q.malformed - p.malformed
    && after.constrained == before.constrained + (if copies then |q.asked| - |p.asked| else 0)
    && after.deadEnds == before.deadEnds + deadEnds
  }

  /** The walker's counters, then the protocol's. */
  ghost predicate Chosen(before: Counts, after: Counts, asked: bool, deadEnd: bool) {
    after == before.(constrained := before.constrained + (if asked then 1 else 0),
      deadEnds := before.deadEnds + (if deadEnd then 1 else 0))
  }

  lemma ChosenThenMoved(c0: Counts, c1: Counts, c2: Counts, p: Protocol, q: Protocol, t: Token, copies: bool,
                        deadEnd: bool, setup: Setup)
    requires p.force == [] && q == if setup.organizer.None? || (setup.stopAtEot && t == setup.eot) then p
      else Next(p, t, setup.organizer.value, setup)
    requires setup.stopAtEot && t == setup.eot ==> t != setup.dbRetrieve
    requires Chosen(c0, c1, copies && setup.organizer.Some? && p.state == InQuery && t == setup.dbRetrieve, deadEnd)
    requires Moved(c1, c2, p, q, false, 0)
    ensures Moved(c0, c2, p, q, copies, if deadEnd then 1 else 0)
  {
  }

  ghost predicate RetrieveFree(keys: set<seq<Token>>, retrieve: Token) {
    forall key | key in keys :: retrieve !in key
  }

  ghost predicate AskedOnly(p: Protocol, keys: set<seq<Token>>) {
    forall q | q in p.asked :: q in keys
  }

  /** The query spelled so far is what its walker has spelled; asked queries are whole keys. */
  ghost predicate Constrained(p: Protocol, spelled: seq<Token>, keys: set<seq<Token>>, retrieve: Token, done: bool) {
    && (!done ==> spelled == if p.state == InQuery && keys != {} then p.queryIds else [])
    && (keys != {} && RetrieveFree(keys, retrieve) ==> AskedOnly(p, keys))
  }

  /** The first id of greatest score. */
  method BestOf(ids: seq<Token>, score: Token -> int) returns (best: Token)
    requires ids != []
    ensures best in ids && forall t | t in ids :: score(t) <= score(best)
  {
    best := ids[0];
    for i := 1 to |ids|
      invariant best in ids && forall t | t in ids[..i] :: score(t) <= score(best)
    {
      if score(ids[i]) > score(best) {
        best := ids[i];
      }
    }
    assert ids[..|ids|] == ids;
  }

  /** Where a walker stands after a token. */
  ghost function Walked(spelled: seq<Token>, t: Token, keys: set<seq<Token>>, retrieve: Token): seq<Token> {
    if t != retrieve && OnWay(spelled + [t], keys) then spelled + [t] else []
  }

  lemma RetrieveLeaves(spelled: seq<Token>, keys: set<seq<Token>>, retrieve: Token)
    requires RetrieveFree(keys, retrieve)
    ensures !OnWay(spelled + [retrieve], keys)
  {
    forall key | key in keys
      ensures !IsPrefix(spelled + [retrieve], key)
    {
      assert |spelled| < |key| ==> key[|spelled|] in key;
      assert (spelled + [retrieve])[|spelled|] == retrieve;
    }
  }

  /** A walker that spelled the query of `p` has moved by the chosen token `t`. */
  ghost predicate Ready(p: Protocol, t: Token, spelled: seq<Token>, walked: seq<Token>, keys: set<seq<Token>>,
                        setup: Setup) {
    && Constrained(p, spelled, keys, setup.dbRetrieve, false)
    && (p.state == InQuery && keys != {} ==> MayEmit(t, spelled, keys, setup.dbRetrieve))
    && walked == if p.state == InQuery then Walked(spelled, t, keys, setup.dbRetrieve) else []
  }

  /** Then the protocol moves by it too, and they stay together. */
  lemma ChoiceKeeps(p: Protocol, t: Token, spelled: seq<Token>, walked: seq<Token>, keys: set<seq<Token>>,
                    lookup: string -> Option<string>, setup: Setup, done: bool)
    requires Ready(p, t, spelled, walked, keys, setup) && p.force == []
    ensures var q := Next(p, t, lookup, setup);
            Constrained(q, if q.state == Free then [] else walked, keys, setup.dbRetrieve, done)
  {
    var q := Next(p, t, lookup, setup);
    if p.state == InQuery && t == setup.dbRetrieve && keys != {} && RetrieveFree(keys, setup.dbRetrieve) {
      RetrieveLeaves(spelled, keys, t);
      assert q.asked == p.asked + [p.queryIds];
    } else {
      assert keys != {} && RetrieveFree(keys, setup.dbRetrieve) ==> q.asked == p.asked;
    }
    if p.state == InQuery && keys == {} {
      assert !OnWay(spelled + [t], keys);
    }
  }

  /** A spelled-out token changes neither the state nor what was asked. */
  lemma ForcedKeeps(p: Protocol, t: Token, spelled: seq<Token>, keys: set<seq<Token>>, lookup: string -> Option<string>,
                    setup: Setup, done: bool)
    requires Constrained(p, spelled, keys, setup.dbRetrieve, false) && p.force != [] && Balanced(p)
    ensures Constrained(Next(p, t, lookup, setup), spelled, keys, setup.dbRetrieve, done)
  {
  }

  /** A possible next token of greatest score. */
  ghost predicate BestEmit(t: Token, score: Token -> int, spelled: seq<Token>, keys: set<seq<Token>>, retrieve: Token) {
    MayEmit(t, spelled, keys, retrieve) && forall u | MayEmit(u, spelled, keys, retrieve) :: score(u) <= score(t)
  }

  /** The token the model may choose where the text says p: the best possible one inside a query
      of a row with keys, its own choice elsewhere. */
  ghost predicate Picks(t: Token, p: Protocol, copies: bool, keys: set<seq<Token>>, choice: Token, score: Token -> int,
                        setup: Setup) {
    if copies && setup.organizer.Some? && p.state == InQuery
      && keys != {} then BestEmit(t, score, p.queryIds, keys, setup.dbRetrieve)
    else t == choice
  }

  lemma BestAllowed(ids: seq<Token>, t: Token, score: Token -> int, spelled: seq<Token>, keys: set<seq<Token>>,
                    retrieve: Token)
    requires forall u :: u in ids <==> MayEmit(u, spelled, keys, retrieve)
    requires t in ids && forall u | u in ids :: score(u) <= score(t)
    ensures BestEmit(t, score, spelled, keys, retrieve)
  {
  }

  /** The next token inside a constrained query; a dead end only when the trie holds no key. */
  method ChooseInQuery(walker: QueryWalker, choice: Token, score: Token -> int, setup: Setup, stats: Stats)
    returns (t: Token)
    requires walker.Valid() && walker.trie.retrieve == setup.dbRetrieve
    modifies walker, stats`constrained, stats`deadEnds
    ensures walker.Valid() && walker.spelled == Walked(old(walker.spelled), t, walker.trie.keys, setup.dbRetrieve)
    ensures if walker.trie.keys == {} then t == choice
      else BestEmit(t, score, old(walker.spelled), walker.trie.keys, setup.dbRetrieve)
    ensures stats.deadEnds == old(stats.deadEnds) + (if walker.trie.keys == {} then 1 else 0)
    ensures stats.constrained == old(stats.constrained) + (if t == setup.dbRetrieve then 1 else 0)
  {
    var allowed := walker.Allowed();
    if allowed != [] {
      t := BestOf(allowed, score);
      BestAllowed(allowed, t, score, walker.spelled, walker.trie.keys, setup.dbRetrieve);
    } else {
      stats.deadEnds := stats.deadEnds + 1;
      t := choice;
    }
    walker.Advance(t);
    if t == setup.dbRetrieve {
      stats.constrained := stats.constrained + 1;
    }
  }

  class Row {
    const walker: QueryWalker?
    /** The keys of the walker's trie. */
    ghost const keys: set<seq<Token>>
    var generated: seq<Token>
    var state: State
    var queryIds: seq<Token>
    var force: seq<Token>
    var done: bool

    ghost function Reach(): set<object>
      reads this, walker, if walker == null then {} else {walker.trie}
    {
      {this} + if walker == null then {} else {walker, walker.trie} + walker.trie.nodes
    }

    /** What the text so far says. */
    ghost function Read(setup: Setup): Protocol
      reads this
    {
      After(generated, |generated|, setup)
    }

    /** The fields agree with what the text says, and the text is within its length. */
    ghost predicate Tracks(setup: Setup)
      reads this
    {
      && |generated| <= setup.maxNew && (!done && setup.maxNew > 0 ==> |generated| < setup.maxNew)
      && Follows(generated, setup)
      && state == Read(setup).state && queryIds == Read(setup).queryIds && force == Read(setup).force
    }

    ghost predicate Valid(setup: Setup)
      reads Reach()
    {
      Tracks(setup)
      && (walker != null ==>
          walker.Valid() && walker.trie.retrieve == setup.dbRetrieve && walker.trie.keys == keys
          && Constrained(Read(setup), walker.spelled, keys, setup.dbRetrieve, done))
    }

    /** What the text says, when the row's fields and its walker agree with it. */
    ghost function Agreed(setup: Setup): Option<Protocol>
      reads Reach()
    {
      if Valid(setup) then Some(Read(setup)) else None
    }

    constructor (walker: QueryWalker?, ghost setup: Setup)
      requires walker != null ==> walker.Valid() && walker.spelled == [] && walker.trie.retrieve == setup.dbRetrieve
      ensures Valid(setup) && this.walker == walker && generated == [] && !done
      ensures walker != null ==> keys == walker.trie.keys
    {
      this.walker := walker;
      keys := if walker == null then {} else walker.trie.keys;
      generated, state, queryIds, force, done := [], Free, [], [], false;
    }

    /** _advance_state, for a token the model chose. */
    method AdvanceState(t: Token, lookup: string -> Option<string>, setup: Setup, stats: Stats, ghost p: Protocol)
      requires state == p.state && queryIds == p.queryIds && force == p.force == []
      modifies this`state, this`queryIds, this`force, stats`lookups, stats`hits, stats`misses, stats`malformed
      ensures var q := Next(p, t, lookup, setup); state == q.state && queryIds == q.queryIds && force == q.force
      ensures var q := Next(p, t, lookup, setup);
        stats.lookups == old(stats.lookups) + |q.asked| - |p.asked| && stats.hits == old(stats.hits) + q.hits - p.hits
      ensures var q := Next(p, t, lookup, setup);
        stats.misses == old(stats.misses) + q.misses - p.misses
        && stats.malformed == old(stats.malformed) + q.malformed - p.malformed
    {
      if state == Free {
        if t == setup.dbStart {
          state, queryIds := InQuery, [];
        }
        return;
      }
      if t == setup.dbRetrieve {
        var query := setup.decode(queryIds);
        stats.lookups := stats.lookups + 1;
        var value := lookup(query);
        if value.None? {
          stats.misses := stats.misses + 1;
        } else {
          stats.hits := stats.hits + 1;
          force := force + (setup.encode(" " + value.value) + [setup.dbEnd]);
        }
        state := Free;
      } else {
        queryIds := queryIds + [t];
        if |queryIds| >= QUERY_TOKEN_CAP {
          stats.malformed := stats.malformed + 1;
          state := Free;
        }
      }
    }

    /** Whether this row's next token is chosen from its trie. */
    ghost predicate Copying(setup: Setup)
      reads this
    {
      walker != null && setup.organizer.Some? && state == InQuery
    }

    /** The model's next token: from the walker's ids inside a query, its own choice elsewhere. */
    method Choose(choice: Token, score: Token -> int, setup: Setup, stats: Stats, ghost p: Protocol) returns (t: Token)
      requires walker != null ==> walker.Valid() && walker.trie.retrieve == setup.dbRetrieve && walker.trie.keys == keys
      requires state == p.state && (walker != null ==> Constrained(p, walker.spelled, keys, setup.dbRetrieve, false))
      modifies if walker == null then {} else {walker}, stats`constrained, stats`deadEnds
      ensures walker != null ==> walker.Valid()
      ensures Picks(t, p, walker != null, keys, choice, score, setup)
      ensures Chosen(old(stats.All()), stats.All(), Copying(setup) && t == setup.dbRetrieve, Copying(setup)
        && keys == {})
      ensures walker != null && setup.organizer.Some? ==>
        Ready(p, t, old(walker.spelled), walker.spelled, keys, setup)
      ensures walker != null && setup.organizer.None? ==> walker.spelled == old(walker.spelled)
    {
      if walker != null && setup.organizer.Some? && state == InQuery {
        t := ChooseInQuery(walker, choice, score, setup, stats);
      } else {
        t := choice;
        if walker != null && setup.organizer.Some? && t == setup.dbStart {
          walker.Reset();
        }
      }
    }

    /** Appends a token the model chose, and lets it drive the lookup protocol. */
    method Append(t: Token, setup: Setup, stats: Stats, ghost p: Protocol)
      requires Tracks(setup) && force == [] && p == Read(setup) && |generated| < setup.maxNew && !done
      modifies this`generated, this`state, this`queryIds, this`force, this`done, stats`lookups, stats`hits,
        stats`misses, stats`malformed
      ensures Tracks(setup) && generated == old(generated) + [t] && (done <==> |generated| >= setup.maxNew)
      ensures Read(setup) == if setup.organizer.Some? then Next(p, t, setup.organizer.value, setup) else p
      ensures Moved(old(stats.All()), stats.All(), p, Read(setup), false, 0)
    {
      AfterOneMore(generated, t, setup);
      generated := generated + [t];
      if setup.organizer.Some? {
        AdvanceState(t, setup.organizer.value, setup, stats, p);
      }
      if |generated| >= setup.maxNew {
        done := true;
      }
    }

    /** The walker starts afresh once its query has ended. */
    method Settle(t: Token, setup: Setup, ghost p: Protocol, ghost spelled: seq<Token>)
      requires setup.organizer.Some? && Tracks(setup) && Read(setup) == Next(p, t, setup.organizer.value, setup)
        && p.force == []
      requires walker != null ==> walker.Valid() && walker.trie.retrieve == setup.dbRetrieve && walker.trie.keys == keys
      requires walker != null ==> Ready(p, t, spelled, walker.spelled, keys, setup)
      modifies if walker == null then {} else {walker}
      ensures Valid(setup)
    {
      if walker != null {
        ChoiceKeeps(p, t, spelled, walker.spelled, keys, setup.organizer.value, setup, done);
        if state == Free {
          walker.Reset();
        }
      }
    }

    /** Appends a chosen token and settles the walker. */
    method Take(t: Token, setup: Setup, stats: Stats, ghost p: Protocol, ghost spelled: seq<Token>)
      requires Tracks(setup) && force == [] && p == Read(setup) && |generated| < setup.maxNew && !done
      requires walker != null ==> walker.Valid() && walker.trie.retrieve == setup.dbRetrieve && walker.trie.keys == keys
      requires walker != null && setup.organizer.Some? ==> Ready(p, t, spelled, walker.spelled, keys, setup)
      requires walker != null && setup.organizer.None? ==> Constrained(p, walker.spelled, keys, setup.dbRetrieve, false)
      modifies this`generated, this`state, this`queryIds, this`force, this`done, if walker == null then {}
        else {walker},
               stats`lookups, stats`hits, stats`misses, stats`malformed
      ensures Valid(setup) && generated == old(generated) + [t] && (done <==> |generated| >= setup.maxNew)
      ensures Read(setup) == if setup.organizer.Some? then Next(p, t, setup.organizer.value, setup) else p
      ensures Moved(old(stats.All()), stats.All(), p, Read(setup), false, 0)
    {
      Append(t, setup, stats, p);
      if setup.organizer.Some? {
        Settle(t, setup, p, spelled);
      }
    }

    /** Appends the next token a hit forces. */
    method Spell(setup: Setup) returns (t: Token)
      requires Valid(setup) && force != [] && !done && setup.maxNew > 0
      modifies this`generated, this`force, this`done
      ensures Valid(setup) && t == old(force)[0] && generated == old(generated) + [t]
        && (done <==> |generated| >= setup.maxNew)
      ensures var p, q := old(Read(setup)), Read(setup);
              q.asked == p.asked && q.hits == p.hits && q.misses == p.misses && q.malformed == p.malformed
    {
      ghost var p := Read(setup);
      t := force[0];
      AlwaysBalanced(generated, |generated|, setup);
      AfterOneMore(generated, t, setup);
      force := force[1..];
      generated := generated + [t];
      if |generated| >= setup.maxNew {
        done := true;
      }
      if walker != null {
        ForcedKeeps(p, t, walker.spelled, walker.trie.keys, setup.organizer.value, setup, done);
      }
    }

    /** Whether the next step of this row finds its trie empty. */
    ghost predicate DeadEnd(setup: Setup)
      reads this
    {
      !done && Copying(setup) && keys == {}
    }

    /** The row can take t next: it agrees with its protocol, and its walker is ready for t. */
    ghost predicate Awaits(t: Token, setup: Setup, p: Protocol, spelled: seq<Token>)
      reads Reach()
    {
      && Tracks(setup) && force == [] && p == Read(setup) && |generated| < setup.maxNew && !done
      && (walker != null ==> walker.Valid() && walker.trie.retrieve == setup.dbRetrieve && walker.trie.keys == keys)
      && (walker != null && setup.organizer.Some? ==> Ready(p, t, spelled, walker.spelled, keys, setup))
      && (walker != null && setup.organizer.None? ==>
            Constrained(p, walker.spelled, keys, setup.dbRetrieve, false))
    }

    /** The model's next token, on a row that agrees with its protocol. */
    method ChooseNext(choice: Token, score: Token -> int, setup: Setup, stats: Stats, ghost p: Protocol)
      returns (t: Token)
      requires Agreed(setup) == Some(Read(setup)) && p == Read(setup) && setup.maxNew > 0 && !done && force == []
      requires setup.eot != setup.dbRetrieve
      modifies if walker == null then {} else {walker}, stats`constrained, stats`deadEnds
      ensures Picks(t, p, walker != null, keys, choice, score, setup)
      ensures Chosen(old(stats.All()), stats.All(), Copying(setup) && t == setup.dbRetrieve, Copying(setup)
        && keys == {})
      ensures Awaits(t, setup, p, old(if walker == null then [] else walker.spelled))
    {
      t := Choose(choice, score, setup, stats, p);
    }

    /** The model ends the text. */
    method EndText(setup: Setup, ghost t: Token, ghost p: Protocol, ghost spelled: seq<Token>)
      requires Awaits(t, setup, p, spelled) && t == setup.eot && setup.stopAtEot
      modifies this`done
      ensures done && Agreed(setup) == Some(Read(setup)) && Read(setup) == p
    {
      done := true;
    }

    /** A chosen token ends the text or is appended to it. */
    method Finish(t: Token, setup: Setup, stats: Stats, ghost p: Protocol, ghost spelled: seq<Token>)
      requires Awaits(t, setup, p, spelled)
      modifies this`generated, this`state, this`queryIds, this`force, this`done, if walker == null then {}
        else {walker},
               stats`lookups, stats`hits, stats`misses, stats`malformed
      ensures Agreed(setup) == Some(Read(setup))
      ensures generated == if setup.stopAtEot && t == setup.eot then old(generated) else old(generated) + [t]
      ensures done <==> |generated| == setup.maxNew || (setup.stopAtEot && t == setup.eot)
      ensures Read(setup) == if setup.organizer.None? || (setup.stopAtEot && t == setup.eot) then p
        else Next(p, t, setup.organizer.value, setup)
      ensures Moved(old(stats.All()), stats.All(), p, Read(setup), false, 0)
    {
      if setup.stopAtEot && t == setup.eot {
        EndText(setup, t, p, spelled);
      } else {
        Take(t, setup, stats, p, spelled);
      }
    }

    /** A step whose token the model chooses. */
    method ModelStep(choice: Token, score: Token -> int, setup: Setup, stats: Stats) returns (next: Token)
      requires Agreed(setup) == Some(Read(setup)) && setup.maxNew > 0 && setup.eot != setup.dbRetrieve && !done
        && force == []
      modifies this, if walker == null then {} else {walker}, stats
      ensures Agreed(setup) == Some(Read(setup))
      ensures Picks(next, old(Read(setup)), walker != null, keys, choice, score, setup)
      ensures generated == if setup.stopAtEot && next == setup.eot then old(generated) else old(generated) + [next]
      ensures done <==> |generated| == setup.maxNew || (setup.stopAtEot && next == setup.eot)
      ensures Moved(old(stats.All()), stats.All(), old(Read(setup)), Read(setup), walker != null, if old(DeadEnd(setup))
        then 1 else 0)
    {
      ghost var p := Read(setup);
      ghost var spelled := if walker == null then [] else walker.spelled;
      ghost var c0 := stats.All();
      next := ChooseNext(choice, score, setup, stats, p);
      ghost var c1 := stats.All();
      Finish(next, setup, stats, p, spelled);
      ChosenThenMoved(c0, c1, stats.All(), p, Read(setup), next, walker != null, old(DeadEnd(setup)), setup);
    }

    /** One decoding step of this row; `next` is what the model is fed. */
    method Step(choice: Token, score: Token -> int, setup: Setup, stats: Stats) returns (next: Token)
      requires Valid(setup) && setup.maxNew > 0 && setup.eot != setup.dbRetrieve
      modifies this, if walker == null then {} else {walker}, stats
      ensures Valid(setup)
      ensures old(done) ==> done && generated == old(generated)
      ensures !old(done) && old(Read(setup)).force != [] ==>
        next == old(Read(setup)).force[0] && generated == old(generated) + [next]
          && (done <==> |generated| == setup.maxNew)
      ensures !old(done) && old(Read(setup)).force == [] ==>
        && Picks(next, old(Read(setup)), walker != null, keys, choice, score, setup)
        && generated == (if setup.stopAtEot && next == setup.eot then old(generated) else old(generated) + [next])
        && (done <==> |generated| == setup.maxNew || (setup.stopAtEot && next == setup.eot))
      ensures Moved(old(stats.All()), stats.All(), old(Read(setup)), Read(setup), walker != null, if old(DeadEnd(setup))
        then 1 else 0)
    {
      if done {
        return setup.eot;
      }
      AlwaysBalanced(generated, |generated|, setup);
      if force != [] {
        next := Spell(setup);
      } else {
        next := ModelStep(choice, score, setup, stats);
      }
    }
  }
}
