/** Every candidate meets the oracle: what generate_problem's checks can and cannot reject
    (deduction.py, generate_problem). */
module DeductionProblem {
  import opened Wrappers
  import opened HornClosure
  import opened DeductionBuild
  import opened DeductionDraws

  // ----- the oracle's answer on every candidate -----

  /** A rule with a chain predicate as head is the chain rule for it. */
  lemma ChainHead(c: Candidate, d: Draw, depth: nat, yes: bool, k: nat, j: nat)
    requires Drawable(d, depth) && Shaped(c, d, depth, yes) && k < |c.rules| && j <= depth
    requires c.rules[k].head == d.working[j]
    ensures k < depth && j == k + 1 && c.rules[k] == ChainRule(d, depth, k)
  {
    assert k < depth ==> c.rules[k] == c.rules[..depth][k];
  }

  /** So whoever it fires for already has the chain predicate before. */
  lemma ChainPremise(c: Candidate, d: Draw, depth: nat, yes: bool, k: nat, j: nat, person: string, atoms: set<Atom>)
    requires Drawable(d, depth) && Shaped(c, d, depth, yes) && k < |c.rules| && j <= depth
    requires c.rules[k].head == d.working[j] && Holds(atoms, person, c.rules[k].ants)
    ensures k < depth && j == k + 1 && Atom(person, d.working[k]) in atoms
  {
    ChainHead(c, d, depth, yes, k, j);
    NotAHelper(d, depth, k);
  }

  lemma ChainFires(c: Candidate, d: Draw, depth: nat, n: nat)
    requires Drawable(d, depth) && Shaped(c, d, depth, true) && n < depth
    requires ChainAtom(d, n) in Level(c.facts, c.rules, n)
    ensures ChainAtom(d, n + 1) in Level(c.facts, c.rules, n + 1)
  {
    var before := Level(c.facts, c.rules, n);
    LevelGrows(c.facts, c.rules, n);
    LevelStep(c.facts, c.rules, n);
    var rule := c.rules[..depth][n];
    assert rule == c.rules[n] == ChainRule(d, depth, n);
    assert d.helped[n] ==> HelperAtom(d, depth, n) in before;
    assert Holds(before, d.person, rule.ants);
    assert d.person in People(before);
    assert Atom(d.person, rule.head) in Fired(before, c.rules);
  }

  /** In a YES problem the queried person has the n-th step of the chain after n parallel rounds ... */
  lemma {:induction false} ChainReached(c: Candidate, d: Draw, depth: nat, n: nat)
    requires Drawable(d, depth) && Shaped(c, d, depth, true) && n <= depth
    ensures ChainAtom(d, n) in Level(c.facts, c.rules, n)
  {
    if n == 0 {
      LevelStep(c.facts, c.rules, 0);
    } else {
      ChainReached(c, d, depth, n - 1);
      ChainFires(c, d, depth, n - 1);
    }
  }

  /** A step of the chain that a round adds has the step before it already. */
  lemma {:induction false} ChainComesFrom(c: Candidate, d: Draw, depth: nat, n: nat, j: nat)
    requires Drawable(d, depth) && Shaped(c, d, depth, true) && n > 0 && j <= depth
    requires ChainAtom(d, j) in Level(c.facts, c.rules, n)
    ensures || ChainAtom(d, j) in Level(c.facts, c.rules, n - 1)
            || (j > 0 && ChainAtom(d, j - 1) in Level(c.facts, c.rules, n - 1))
  {
    var fired, k, before := LevelSource(ChainAtom(d, j), c.facts, c.rules, n);
    if fired {
      ChainPremise(c, d, depth, true, k, j, d.person, before);
    }
  }

  /** ... and no later step. */
  lemma {:induction false} ChainNotBefore(c: Candidate, d: Draw, depth: nat, n: nat, j: nat)
    requires Drawable(d, depth) && Shaped(c, d, depth, true) && n < j <= depth
    ensures ChainAtom(d, j) !in Level(c.facts, c.rules, n)
  {
    if n == 0 {
      LevelStep(c.facts, c.rules, 0);
    } else {
      ChainNotBefore(c, d, depth, n - 1, j);
      ChainNotBefore(c, d, depth, n - 1, j - 1);
      if ChainAtom(d, j) in Level(c.facts, c.rules, n) {
        ChainComesFrom(c, d, depth, n, j);
      }
    }
  }

  /** A YES query first holds at level exactly `depth`. */
  lemma YesLevel(c: Candidate, d: Draw, depth: nat)
    requires Drawable(d, depth) && Shaped(c, d, depth, true)
    ensures c.query in Level(c.facts, c.rules, depth)
    ensures forall m: nat | m < depth :: c.query !in Level(c.facts, c.rules, m)
  {
    ChainReached(c, d, depth, depth);
    forall m: nat | m < depth ensures c.query !in Level(c.facts, c.rules, m) {
      ChainNotBefore(c, d, depth, m, depth);
    }
  }

  /** An atom that is no fact, and whose every rule needs some other missing atom or is no
      rule at all, is in no closure. */
  ghost predicate Unfounded(missing: set<Atom>, facts: set<Atom>, rules: seq<Rule>) {
    && missing !! facts
    && forall k, p | 0 <= k < |rules| && Atom(p, rules[k].head) in missing ::
         exists i :: 0 <= i < |rules[k].ants| && Atom(p, rules[k].ants[i]) in missing
  }

  lemma UnfoundedUnderivable(missing: set<Atom>, facts: set<Atom>, rules: seq<Rule>, closure: set<Atom>)
    requires Unfounded(missing, facts, rules) && IsClosure(closure, facts, rules)
    ensures missing !! closure
  {
    var rest := closure - missing;
    forall k, p | 0 <= k < |rules| && p in People(rest) && Holds(rest, p, rules[k].ants)
      ensures Atom(p, rules[k].head) in rest
    {
      assert Holds(closure, p, rules[k].ants) && p in People(closure);
    }
    assert Closed(rest, rules);
  }

  /** Without the last chain rule nothing concludes the queried predicate. */
  lemma YesNeedsLastRule(c: Candidate, d: Draw, depth: nat, rest: seq<Rule>, closure: set<Atom>)
    requires depth >= 1 && Drawable(d, depth) && Shaped(c, d, depth, true)
    requires forall r | r in rest :: r in c.rules && r != c.chainRules[depth - 1]
    requires IsClosure(closure, c.facts, rest)
    ensures c.query !in closure
  {
    forall k | 0 <= k < |rest| ensures rest[k].head != d.working[depth] {
      assert rest[k] in rest;
      var l :| 0 <= l < |c.rules| && c.rules[l] == rest[k];
      if rest[k].head == d.working[depth] {
        ChainHead(c, d, depth, true, l, depth);
      }
    }
    UnfoundedUnderivable({c.query}, c.facts, rest, closure);
  }

  /** A NO query is underivable, mirror person or not, and still some rule's conclusion. */
  lemma NoUnderivable(c: Candidate, d: Draw, depth: nat, closure: set<Atom>)
    requires depth >= 1 && Drawable(d, depth) && Shaped(c, d, depth, false)
    requires IsClosure(closure, c.facts, c.rules)
    ensures c.query !in closure
    ensures exists r :: r in c.rules && r.head == c.query.pred
  {
    var missing := set j: nat | j <= depth :: ChainAtom(d, j);
    forall k, p | 0 <= k < |c.rules| && Atom(p, c.rules[k].head) in missing
      ensures exists i :: 0 <= i < |c.rules[k].ants| && Atom(p, c.rules[k].ants[i]) in missing
    {
      var j: nat :| j <= depth && Atom(p, c.rules[k].head) == ChainAtom(d, j);
      ChainHead(c, d, depth, false, k, j);
      NotAHelper(d, depth, k);
      var i := if d.helped[k] && d.swapped[k] then 1 else 0;
      assert Atom(p, c.rules[k].ants[i]) == ChainAtom(d, k);
    }
    UnfoundedUnderivable(missing, c.facts, c.rules, closure);
    assert c.query == ChainAtom(d, depth);
    assert c.rules[..depth][depth - 1] in c.rules;
  }

  /** The mirror person does have the queried predicate: only who is asked about differs. */
  lemma {:induction false} MirrorDerives(c: Candidate, d: Draw, depth: nat, closure: set<Atom>, n: nat)
    requires Drawable(d, depth) && Shaped(c, d, depth, false) && d.mirror && n <= depth
    requires IsClosure(closure, c.facts, c.rules)
    ensures Atom(d.others[0], d.working[n]) in closure
  {
    if n > 0 {
      MirrorDerives(c, d, depth, closure, n - 1);
      var rule := c.rules[..depth][n - 1];
      assert rule == c.rules[n - 1] == ChainRule(d, depth, n - 1);
      var mirror := d.others[0];
      assert Atom(mirror, d.working[0]) in closure && mirror in People(closure);
      assert d.helped[n - 1] ==> Atom(mirror, d.working[depth + 1 + (n - 1)]) in closure;
      assert Holds(closure, mirror, rule.ants);
    }
  }

  // ----- the printed reasoning -----

  datatype Line = State(atom: Atom) | Use(rule: Rule) | Conclude(atom: Atom)

  /** Stated or concluded before line n. */
  ghost predicate Shown(lines: seq<Line>, n: nat, atom: Atom)
    requires n <= |lines|
  {
    exists i :: 0 <= i < n && (lines[i] == State(atom) || lines[i] == Conclude(atom))
  }

  ghost predicate PremisesShown(lines: seq<Line>, n: nat, person: string, ants: seq<string>)
    requires n <= |lines|
  {
    forall i | 0 <= i < |ants| :: Shown(lines, n, Atom(person, ants[i]))
  }

  /** Line n is a fact, a rule of the problem, or what the rule just quoted gives for
      premises already shown. */
  ghost predicate Justified(lines: seq<Line>, n: nat, facts: set<Atom>, rules: seq<Rule>)
    requires n < |lines|
  {
    match lines[n]
    case State(atom) => atom in facts
    case Use(rule) => rule in rules
    case Conclude(atom) =>
      && n > 0 && lines[n - 1].Use? && lines[n - 1].rule.head == atom.pred
      && PremisesShown(lines, n, atom.person, lines[n - 1].rule.ants)
  }

  ghost predicate ValidProof(lines: seq<Line>, facts: set<Atom>, rules: seq<Rule>) {
    forall n: nat | n < |lines| :: Justified(lines, n, facts, rules)
  }

  /** The line checker is sound: whatever a valid proof shows is in the closure. */
  lemma {:induction false} ProofSound(lines: seq<Line>, facts: set<Atom>, rules: seq<Rule>, closure: set<Atom>, n: nat,
                                      atom: Atom)
    requires ValidProof(lines, facts, rules) && IsClosure(closure, facts, rules) && n <= |lines|
    requires forall r | r in rules :: |r.ants| > 0
    requires Shown(lines, n, atom)
    ensures atom in closure
    decreases n
  {
    var i :| 0 <= i < n && (lines[i] == State(atom) || lines[i] == Conclude(atom));
    assert Justified(lines, i, facts, rules);
    if lines[i].Conclude? {
      var rule := lines[i - 1].rule;
      assert Justified(lines, i - 1, facts, rules);
      forall k | 0 <= k < |rule.ants| ensures Atom(atom.person, rule.ants[k]) in closure {
        ProofSound(lines, facts, rules, closure, i, Atom(atom.person, rule.ants[k]));
      }
      assert Atom(atom.person, rule.ants[0]) in closure && atom.person in People(closure);
      var r :| 0 <= r < |rules| && rules[r] == rule;
      assert Holds(closure, atom.person, rules[r].ants);
    }
  }

  lemma ShownStays(lines: seq<Line>, more: seq<Line>, atom: Atom)
    requires Shown(lines, |lines|, atom)
    ensures Shown(lines + more, |lines + more|, atom)
  {
    var i :| 0 <= i < |lines| && (lines[i] == State(atom) || lines[i] == Conclude(atom));
    assert (lines + more)[i] == lines[i];
  }

  lemma ProofExtends(lines: seq<Line>, line: Line, facts: set<Atom>, rules: seq<Rule>)
    requires ValidProof(lines, facts, rules) && Justified(lines + [line], |lines|, facts, rules)
    ensures ValidProof(lines + [line], facts, rules)
  {
    var next := lines + [line];
    forall n: nat | n < |next| ensures Justified(next, n, facts, rules) {
      if n < |lines| {
        assert Justified(lines, n, facts, rules);
        assert next[n] == lines[n] && (n > 0 ==> next[n - 1] == lines[n - 1]);
        if lines[n].Conclude? {
          var rule := lines[n - 1].rule;
          forall i | 0 <= i < |rule.ants|
            ensures Shown(next, n, Atom(lines[n].atom.person, rule.ants[i]))
          {
            var k :| 0 <= k < n
              && (lines[k] == State(Atom(lines[n].atom.person, rule.ants[i]))
                || lines[k] == Conclude(Atom(lines[n].atom.person, rule.ants[i])));
            assert next[k] == lines[k];
          }
        }
      }
    }
  }

  /** One person's proof over one chain: who each line is about, and where it comes from. */
  datatype Chain = Chain(person: string, rules: seq<Rule>, base: set<Atom>)

  ghost predicate FromChain(line: Line, chain: Chain) {
    match line
    case State(a) => a in chain.base
    case Use(r) => r in chain.rules
    case Conclude(a) => a.person == chain.person
  }

  /** The facts told so far, each told once. */
  ghost predicate Told(lines: seq<Line>, stated: set<Atom>) {
    && (forall a :: a in stated <==> State(a) in lines)
    && forall m, n {:trigger lines[m], lines[n]} | 0 <= m < n < |lines| && lines[m].State? :: lines[m] != lines[n]
  }

  ghost predicate Telling(lines: seq<Line>, stated: set<Atom>, chain: Chain, facts: set<Atom>, rules: seq<Rule>) {
    && ValidProof(lines, facts, rules) && Told(lines, stated) && chain.base <= facts
    && forall line | line in lines :: FromChain(line, chain)
  }

  lemma TellFact(lines: seq<Line>, stated: set<Atom>, chain: Chain, facts: set<Atom>, rules: seq<Rule>, atom: Atom)
    requires Telling(lines, stated, chain, facts, rules) && atom in chain.base && atom !in stated
    ensures Telling(lines + [State(atom)], stated + {atom}, chain, facts, rules)
  {
    var next := lines + [State(atom)];
    assert next[|lines|] == State(atom);
    ProofExtends(lines, State(atom), facts, rules);
    forall m, n | 0 <= m < n < |next| && next[m].State? ensures next[m] != next[n] {
      assert next[m] == lines[m] && lines[m] in lines;
    }
  }

  lemma ShownWhenStated(lines: seq<Line>, stated: set<Atom>, atom: Atom)
    requires Told(lines, stated) && atom in stated
    ensures Shown(lines, |lines|, atom)
  {
    var i :| 0 <= i < |lines| && lines[i] == State(atom);
  }

  /** Quoting a rule whose premises are all shown, and drawing its conclusion. */
  lemma TellRule(lines: seq<Line>, stated: set<Atom>, chain: Chain, facts: set<Atom>, rules: seq<Rule>, rule: Rule)
    requires Telling(lines, stated, chain, facts, rules) && rule in rules && rule in chain.rules
    requires PremisesShown(lines, |lines|, chain.person, rule.ants)
    ensures Telling(lines + [Use(rule), Conclude(Atom(chain.person, rule.head))], stated, chain, facts, rules)
  {
    var person := chain.person;
    var used := lines + [Use(rule)];
    var next := used + [Conclude(Atom(person, rule.head))];
    assert used[|lines|] == Use(rule);
    ProofExtends(lines, Use(rule), facts, rules);
    forall i | 0 <= i < |rule.ants| ensures Shown(next, |used|, Atom(person, rule.ants[i])) {
      var k :| 0 <= k < |lines|
        && (lines[k] == State(Atom(person, rule.ants[i])) || lines[k] == Conclude(Atom(person, rule.ants[i])));
      assert next[k] == lines[k];
    }
    assert next[|used|] == Conclude(Atom(person, rule.head)) && next[|used| - 1] == Use(rule);
    assert Justified(next, |used|, facts, rules);
    ProofExtends(used, Conclude(Atom(person, rule.head)), facts, rules);
    assert next == lines + [Use(rule), Conclude(Atom(person, rule.head))];
  }

  /** States each premise that is a base fact not yet stated. */
  method TellPremises(told: seq<Line>, toldFacts: set<Atom>, chain: Chain, rule: Rule, ghost facts: set<Atom>,
                      ghost rules: seq<Rule>)
    returns (lines: seq<Line>, stated: set<Atom>)
    requires Telling(told, toldFacts, chain, facts, rules)
    requires forall a | a in rule.ants ::
      Atom(chain.person, a) in chain.base || Shown(told, |told|, Atom(chain.person, a))
    ensures Telling(lines, stated, chain, facts, rules) && told <= lines
    ensures PremisesShown(lines, |lines|, chain.person, rule.ants)
  {
    lines, stated := told, toldFacts;
    for j := 0 to |rule.ants|
      invariant Telling(lines, stated, chain, facts, rules) && told <= lines
      invariant forall l | 0 <= l < j && Atom(chain.person, rule.ants[l]) in chain.base ::
        Atom(chain.person, rule.ants[l]) in stated
    {
      var atom := Atom(chain.person, rule.ants[j]);
      if atom in chain.base && atom !in stated {
        TellFact(lines, stated, chain, facts, rules, atom);
        lines := lines + [State(atom)];
        stated := stated + {atom};
      }
    }
    forall l | 0 <= l < |rule.ants| ensures Shown(lines, |lines|, Atom(chain.person, rule.ants[l])) {
      var atom := Atom(chain.person, rule.ants[l]);
      if atom in chain.base {
        ShownWhenStated(lines, stated, atom);
      } else {
        ShownStays(told, lines[|told|..], atom);
        assert told + lines[|told|..] == lines;
      }
    }
  }

  ghost function ChainFor(c: Candidate): Chain {
    Chain(c.query.person, c.chainRules, set a | a in c.chainBase)
  }

  /** Each premise of chain rule i is a base fact or the conclusion of the rule before. */
  lemma PremiseKinds(c: Candidate, d: Draw, depth: nat, i: nat, a: string)
    requires Drawable(d, depth) && Shaped(c, d, depth, true) && i < depth && a in c.chainRules[i].ants
    ensures Atom(d.person, a) in ChainFor(c).base || (i > 0 && a == c.chainRules[i - 1].head)
  {
    assert c.chainRules[i] == ChainRule(d, depth, i);
    assert d.helped[i] ==> HelperAtom(d, depth, i) in c.chainBase;
  }

  lemma PremisesKnown(c: Candidate, d: Draw, depth: nat, i: nat, lines: seq<Line>)
    requires Drawable(d, depth) && Shaped(c, d, depth, true) && i < depth
    requires i > 0 ==> |lines| > 0 && lines[|lines| - 1] == Conclude(Atom(d.person, c.chainRules[i - 1].head))
    ensures forall a | a in c.chainRules[i].ants ::
      Atom(d.person, a) in ChainFor(c).base || Shown(lines, |lines|, Atom(d.person, a))
  {
    forall a | a in c.chainRules[i].ants
      ensures Atom(d.person, a) in ChainFor(c).base || Shown(lines, |lines|, Atom(d.person, a))
    {
      PremiseKinds(c, d, depth, i, a);
    }
  }

  /** One rule of the chain: its unstated base premises, the rule, the conclusion. */
  method TellLink(told: seq<Line>, toldFacts: set<Atom>, chain: Chain, rule: Rule, ghost c: Candidate, ghost d: Draw,
                  ghost depth: nat, ghost i: nat)
    returns (lines: seq<Line>, stated: set<Atom>)
    requires Drawable(d, depth) && Shaped(c, d, depth, true) && i < depth && rule == c.chainRules[i]
    requires chain == ChainFor(c) && Telling(told, toldFacts, chain, c.facts, c.rules)
    requires i > 0 ==> |told| > 0 && told[|told| - 1] == Conclude(Atom(d.person, c.chainRules[i - 1].head))
    ensures Telling(lines, stated, chain, c.facts, c.rules) && told <= lines && Use(rule) in lines
    ensures |lines| > 0 && lines[|lines| - 1] == Conclude(Atom(d.person, rule.head))
  {
    assert c.rules[..depth][i] == rule;
    PremisesKnown(c, d, depth, i, told);
    lines, stated := TellPremises(told, toldFacts, chain, rule, c.facts, c.rules);
    TellRule(lines, stated, chain, c.facts, c.rules, rule);
    lines := lines + [Use(rule), Conclude(Atom(chain.person, rule.head))];
    assert lines[|lines| - 2] == Use(rule);
  }

  /** The printed reasoning for a YES problem: a valid proof that tells only base facts, each
      at most once, quotes the whole chain and ends in the query. */
  method Reasoning(c: Candidate, ghost d: Draw, depth: nat) returns (lines: seq<Line>)
    requires depth >= 1 && Drawable(d, depth) && Shaped(c, d, depth, true)
    ensures ValidProof(lines, c.facts, c.rules)
    ensures |lines| > 0 && lines[|lines| - 1] == Conclude(c.query)
    ensures forall m, n {:trigger lines[m], lines[n]} | 0 <= m < n < |lines| && lines[m].State? :: lines[m] != lines[n]
    ensures forall i: nat | i < depth :: Use(c.chainRules[i]) in lines
    ensures forall line | line in lines :: FromChain(line, ChainFor(c))
  {
    var chain := Chain(c.query.person, c.chainRules, set a | a in c.chainBase);
    BaseAreFacts(c, d, depth);
    lines := TellChain(c, d, depth, chain);
    assert c.chainRules[depth - 1] == ChainRule(d, depth, depth - 1);
  }

  /** Told so far: the first i links, the last of them just concluded. */
  ghost predicate LinksTold(lines: seq<Line>, c: Candidate, d: Draw, i: nat) {
    && i <= |c.chainRules| && (forall k: nat | k < i :: Use(c.chainRules[k]) in lines)
    && (i > 0 ==> |lines| > 0 && lines[|lines| - 1] == Conclude(Atom(d.person, c.chainRules[i - 1].head)))
  }

  lemma {:induction false} LinkTold(before: seq<Line>, lines: seq<Line>, c: Candidate, d: Draw, i: nat, next: nat)
    requires i < |c.chainRules| && next == i + 1 && LinksTold(before, c, d, i) && before <= lines
    requires Use(c.chainRules[i]) in lines
    requires |lines| > 0 && lines[|lines| - 1] == Conclude(Atom(d.person, c.chainRules[i].head))
    ensures LinksTold(lines, c, d, next)
  {
    forall k: nat | k < i
      ensures Use(c.chainRules[k]) in lines
    {
      assert Use(c.chainRules[k]) in before;
    }
  }

  /** All links of the chain, in order. */
  method TellChain(c: Candidate, ghost d: Draw, depth: nat, chain: Chain) returns (lines: seq<Line>)
    requires Drawable(d, depth) && Shaped(c, d, depth, true) && chain == ChainFor(c)
    requires Telling([], {}, chain, c.facts, c.rules)
    ensures exists stated :: Telling(lines, stated, chain, c.facts, c.rules)
    ensures LinksTold(lines, c, d, depth)
  {
    lines := [];
    var stated: set<Atom> := {};
    for i: nat := 0 to depth
      invariant Telling(lines, stated, chain, c.facts, c.rules) && LinksTold(lines, c, d, i)
    {
      ghost var before := lines;
      ghost var next := i + 1;
      lines, stated := TellLink(lines, stated, chain, c.chainRules[i], c, d, depth, i);
      LinkTold(before, lines, c, d, i, next);
    }
  }

  lemma BaseAreFacts(c: Candidate, d: Draw, depth: nat)
    requires Drawable(d, depth) && Shaped(c, d, depth, true)
    ensures forall a | a in c.chainBase :: a in c.facts
  {
  }

  // ----- the rejection loop -----

  predicate SizeFits(c: Candidate, depth: nat) {
    4 <= |c.facts| <= MaxFacts(depth) && 3 <= |c.rules| <= MaxRules(depth)
  }

  datatype Size = TooSmall | TooLarge | Fitting

  ghost function SizeOf(facts: nat, rules: nat, depth: nat): Size {
    if facts > (if depth <= 2 then 6 else 10) || rules > (if depth <= 2 then 4 else 8) then TooLarge
    else if facts < 4 || rules < 3 then TooSmall
    else Fitting
  }

  /** The size of a candidate that has the shape its draws give it. */
  ghost function SizeBuilt(c: Candidate, d: Draw, depth: nat, yes: bool): Option<Size> {
    if Drawable(d, depth) && Shaped(c, d, depth, yes) then Some(SizeOf(|c.facts|, |c.rules|, depth)) else None
  }

  /** The size that the draws foretell. */
  ghost function Foretold(d: Draw, depth: nat, yes: bool): Option<Size> {
    if Drawable(d, depth) then Some(SizeOf(FactsBuilt(d, depth, yes), RulesBuilt(d, depth), depth)) else None
  }

  method Without(rules: seq<Rule>, last: Rule) returns (rest: seq<Rule>)
    ensures forall r :: r in rest <==> r in rules && r != last
  {
    rest := [];
    for i := 0 to |rules|
      invariant forall r :: r in rest <==> r in rules[..i] && r != last
    {
      if rules[i] != last {
        rest := rest + [rules[i]];
      }
    }
    assert rules[..|rules|] == rules;
  }

  /** The oracle's verdict on one candidate: it never rejects one. */
  method OracleAccepts(c: Candidate, ghost d: Draw, depth: nat, yes: bool) returns (ok: bool)
    requires depth >= 1 && Drawable(d, depth) && Shaped(c, d, depth, yes)
    ensures ok
  {
    var closure := ForwardChain(c.facts, c.rules);
    if yes {
      YesLevel(c, d, depth);
      HeldInClosure(c.facts, c.rules, c.query, depth);
      if c.query !in closure {
        return false;
      }
      var level := ClosureLevel(c.facts, c.rules, c.query);
      if level != Some(depth) {
        return false;
      }
      var withoutLast := Without(c.rules, c.chainRules[depth - 1]);
      var shortcut := ForwardChain(c.facts, withoutLast);
      YesNeedsLastRule(c, d, depth, withoutLast, shortcut);
      return c.query !in shortcut;
    } else {
      NoUnderivable(c, d, depth, closure);
      if c.query in closure {
        return false;
      }
      return exists i :: 0 <= i < |c.rules| && (c.rules[i].head == c.query.pred || c.query.pred in c.rules[i].ants);
    }
  }

  /** A candidate has the size its draws foretell: none fits past depth 8, and up to it (4 for NO)
      none is too large. */
  method BuildSized(d: Draw, depth: nat, yes: bool) returns (c: Candidate)
    requires depth >= 1 && Drawable(d, depth)
    ensures SizeBuilt(c, d, depth, yes) == Foretold(d, depth, yes) != None
    ensures SizeFits(c, depth) <==> Foretold(d, depth, yes) == Some(Fitting)
    ensures depth > 8 ==> Foretold(d, depth, yes) != Some(Fitting)
    ensures depth <= (if yes then 8 else 4) ==> Foretold(d, depth, yes) != Some(TooLarge)
  {
    c := Build(d, depth, yes);
  }

  /** The answer's reasoning; None when the oracle rejects the candidate. */
  method Checked(c: Candidate, ghost d: Draw, depth: nat, yes: bool) returns (reasoning: Option<seq<Line>>)
    requires depth >= 1 && SizeBuilt(c, d, depth, yes).Some?
    ensures reasoning.Some?
    ensures yes ==> Concluded(reasoning.value, c) == Some(c.query)
  {
    var ok := OracleAccepts(c, d, depth, yes);
    if !ok {
      return None;
    }
    var lines := [];
    if yes {
      lines := Reasoning(c, d, depth);
    }
    return Some(lines);
  }

  /** What a valid proof from the candidate's facts and rules ends in. */
  ghost function Concluded(lines: seq<Line>, c: Candidate): Option<Atom> {
    if ValidProof(lines, c.facts, c.rules) && |lines| > 0 && lines[|lines| - 1].Conclude?
    then Some(lines[|lines| - 1].atom)
    else None
  }

  datatype Problem = Problem(index: nat, candidate: Candidate, reasoning: seq<Line>)

  /** The k-th candidate: printed, or passed over. */
  method TryDraws(d: Draw, depth: nat, yes: bool, k: nat, ghost size: Size) returns (r: Option<Problem>, c: Candidate)
    requires depth >= 1 && Foretold(d, depth, yes) == Some(size)
    ensures r.Some? <==> size == Fitting
    ensures SizeBuilt(c, d, depth, yes) == Some(size)
    ensures r.Some? ==> r.value.index == k && r.value.candidate == c
    ensures r.Some? && yes ==> Concluded(r.value.reasoning, c) == Some(c.query)
    ensures depth > 8 ==> size != Fitting
    ensures depth <= (if yes then 8 else 4) ==> size != TooLarge
  {
    c := BuildSized(d, depth, yes);
    if !SizeFits(c, depth) {
      return None, c;
    }
    var lines := Checked(c, d, depth, yes);
    if lines.None? {
      return None, c;
    }
    r := Some(Problem(k, c, lines.value));
  }

  /** The first candidate that fits; `tried` lists those passed over. */
  method FirstFitting(draws: seq<Draw>, depth: nat, yes: bool, ghost sizes: seq<Size>)
    returns (r: Option<Problem>, tried: seq<Candidate>)
    requires depth >= 1 && |draws| == |sizes| == MAX_TRIES
    requires forall k | 0 <= k < |draws| :: Foretold(draws[k], depth, yes) == Some(sizes[k])
    ensures r.None? <==> forall k | 0 <= k < |sizes| :: sizes[k] != Fitting
    ensures |tried| == (if r.None? then |sizes| else r.value.index) && (r.Some? ==> r.value.index < |sizes|)
    ensures forall k | 0 <= k < |tried| :: SizeBuilt(tried[k], draws[k], depth, yes) == Some(sizes[k]) != Some(Fitting)
    ensures r.Some? ==>
      SizeBuilt(r.value.candidate, draws[r.value.index], depth, yes) == Some(sizes[r.value.index]) == Some(Fitting)
    ensures r.Some? && yes ==> Concluded(r.value.reasoning, r.value.candidate) == Some(r.value.candidate.query)
    ensures depth > 8 ==> r.None?
    ensures depth <= (if yes then 8 else 4) ==> forall k | 0 <= k < |tried| :: sizes[k] == TooSmall
  {
    tried := [];
    for k := 0 to MAX_TRIES
      invariant |tried| == k
      invariant forall i | 0 <= i < k ::
        SizeBuilt(tried[i], draws[i], depth, yes) == Some(sizes[i]) != Some(Fitting)
      invariant depth <= (if yes then 8 else 4) ==> forall i | 0 <= i < k :: sizes[i] == TooSmall
    {
      var p, c := TryDraws(draws[k], depth, yes, k, sizes[k]);
      if p.Some? {
        return p, tried;
      }
      tried := tried + [c];
    }
    return None, tried;
  }

  ghost function Sizes(draws: seq<Draw>, depth: nat, yes: bool): (sizes: seq<Size>)
    requires forall k | 0 <= k < |draws| :: Drawable(draws[k], depth)
    ensures |sizes| == |draws|
    ensures forall k | 0 <= k < |draws| :: Foretold(draws[k], depth, yes) == Some(sizes[k])
  {
    seq(|draws|, k requires 0 <= k < |draws| => Foretold(draws[k], depth, yes).value)
  }

  /** Up to 500 candidates, the first that fits is printed; `tried` lists those passed over. Only
      its size rejects a candidate, and the draws alone tell the sizes. */
  method GenerateProblem(draws: seq<Draw>, depth: nat, yes: bool)
    returns (r: Option<Problem>, tried: seq<Candidate>, ghost sizes: seq<Size>)
    requires depth >= 1 && |draws| == 500 && forall k | 0 <= k < |draws| :: Drawable(draws[k], depth)
    ensures |sizes| == 500 && forall k | 0 <= k < 500 :: Foretold(draws[k], depth, yes) == Some(sizes[k])
    ensures r.None? <==> forall k | 0 <= k < 500 :: sizes[k] != Fitting
    ensures |tried| == (if r.None? then 500 else r.value.index) && (r.Some? ==> r.value.index < 500)
    ensures forall k | 0 <= k < |tried| :: SizeBuilt(tried[k], draws[k], depth, yes) == Some(sizes[k]) != Some(Fitting)
    ensures r.Some? ==>
      SizeBuilt(r.value.candidate, draws[r.value.index], depth, yes) == Some(sizes[r.value.index]) == Some(Fitting)
    ensures r.Some? && yes ==> Concluded(r.value.reasoning, r.value.candidate) == Some(r.value.candidate.query)
    // No size fits past depth 8, and up to it (4 for NO) the only misfits are too small.
    ensures depth > 8 ==> r.None?
    ensures depth <= (if yes then 8 else 4) ==> forall k | 0 <= k < |tried| :: sizes[k] == TooSmall
  {
    sizes := Sizes(draws, depth, yes);
    r, tried := FirstFitting(draws, depth, yes, sizes);
  }
}
