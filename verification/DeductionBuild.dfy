/** The random Horn problem generator (deduction.py, _build and generate_problem), with every
    random choice taken from an arbitrary draw. */
module DeductionBuild {
  import opened HornClosure
  import opened DeductionDraws

  function Randint(low: nat, high: nat, u: nat): nat
    requires low <= high
  {
    low + u % (high - low + 1)
  }

  function Max(a: nat, b: nat): nat { if a < b then b else a }

  function Min(a: nat, b: nat): nat { if a < b then a else b }

  function MaxRules(depth: nat): nat { if depth <= 2 then 4 else 8 }

  function MaxFacts(depth: nat): nat { if depth <= 2 then 6 else 10 }

  // working[0..depth] is the chain, working[depth+1..2*depth] the helper pool, the rest extra.

  ghost function ChainAtom(d: Draw, i: nat): Atom
    requires i < |d.working|
  {
    Atom(d.person, d.working[i])
  }

  ghost function HelperAtom(d: Draw, depth: nat, i: nat): Atom
    requires i < depth && Sized(d, depth)
  {
    Atom(d.person, d.working[depth + 1 + i])
  }

  ghost function ChainRule(d: Draw, depth: nat, i: nat): Rule
    requires i < depth && Sized(d, depth)
  {
    var link, helper := d.working[i], d.working[depth + 1 + i];
    Rule(if !d.helped[i] then [link] else if d.swapped[i] then [helper, link] else [link, helper], d.working[i + 1])
  }

  datatype Candidate = Candidate(query: Atom, facts: set<Atom>, rules: seq<Rule>, chainRules: seq<Rule>,
    chainBase: seq<Atom>)

  ghost predicate ChainOf(chainRules: seq<Rule>, d: Draw, depth: nat)
    requires Sized(d, depth)
  {
    |chainRules| == depth && forall i: nat | i < depth :: chainRules[i] == ChainRule(d, depth, i)
  }

  /** The queried person is handed no chain predicate past the start, and no unused helper. */
  ghost predicate NothingFree(facts: set<Atom>, d: Draw, depth: nat, yes: bool)
    requires Sized(d, depth)
  {
    && (forall j: nat | (if yes then 1 else 0) <= j <= depth :: ChainAtom(d, j) !in facts)
    && (forall i: nat | i < depth && !d.helped[i] :: HelperAtom(d, depth, i) !in facts)
  }

  /** Each helper the chain uses is a fact, and for a YES problem the chain's start is. */
  ghost predicate Supplied(facts: set<Atom>, d: Draw, depth: nat, yes: bool)
    requires Sized(d, depth)
  {
    && (forall i: nat | i < depth && d.helped[i] :: HelperAtom(d, depth, i) in facts)
    && (yes ==> ChainAtom(d, 0) in facts)
    && d.person in People(facts)
  }

  ghost predicate MirrorSupplied(facts: set<Atom>, d: Draw, depth: nat)
    requires Drawable(d, depth)
  {
    && Atom(d.others[0], d.working[0]) in facts
    && forall i: nat | i < depth && d.helped[i] :: Atom(d.others[0], d.working[depth + 1 + i]) in facts
  }

  /** A distractor rule concludes neither a chain nor a helper predicate, nor its own premise. */
  ghost predicate Distracts(rule: Rule, d: Draw, depth: nat)
    requires Sized(d, depth)
  {
    && 1 <= |rule.ants| <= 2 && rule.head !in rule.ants && rule.head in d.working[2 * depth + 2..]
    && forall j: nat | j <= 2 * depth :: rule.head != d.working[j]
  }

  ghost predicate RulesOf(rules: seq<Rule>, chainRules: seq<Rule>, d: Draw, depth: nat)
    requires Sized(d, depth)
  {
    && ChainOf(chainRules, d, depth) && depth <= |rules| <= Max(MaxRules(depth), depth)
    && rules[..depth] == chainRules
    && (forall k | depth <= k < |rules| :: Distracts(rules[k], d, depth))
  }

  /** No distractor repeats. */
  ghost predicate NoRepeats(rules: seq<Rule>, depth: nat) {
    forall k, l {:trigger rules[k], rules[l]} | depth <= k < l < |rules| :: rules[k] != rules[l]
  }

  /** The facts the YES derivation consumes: the start, and each used helper. */
  ghost predicate BaseOf(chainBase: seq<Atom>, d: Draw, depth: nat)
    requires Sized(d, depth)
  {
    forall a :: a in chainBase <==>
      a == ChainAtom(d, 0) || exists i: nat :: i < depth && d.helped[i] && a == HelperAtom(d, depth, i)
  }

  /** What every candidate looks like, whatever was drawn. */
  ghost predicate Shaped(c: Candidate, d: Draw, depth: nat, yes: bool)
    requires Drawable(d, depth)
  {
    && c.query == ChainAtom(d, depth)
    && RulesOf(c.rules, c.chainRules, d, depth)
    && NothingFree(c.facts, d, depth, yes) && Supplied(c.facts, d, depth, yes)
    && (yes ==> BaseOf(c.chainBase, d, depth))
    && (!yes && d.mirror ==> MirrorSupplied(c.facts, d, depth))
    && |c.facts| <= Max(MaxFacts(depth), if yes then depth + 1 else 2 * depth + 2)
  }

  // ----- building -----

  /** Exactly the atoms of the helpers used by the first n chain rules. */
  ghost predicate HelpersTo(atoms: set<Atom>, d: Draw, depth: nat, n: nat)
    requires Sized(d, depth) && n <= depth
  {
    forall a :: a in atoms <==> exists i: nat :: i < n && d.helped[i] && a == HelperAtom(d, depth, i)
  }

  lemma HelpersStep(atoms: set<Atom>, d: Draw, depth: nat, n: nat)
    requires Sized(d, depth) && n < depth && HelpersTo(atoms, d, depth, n)
    ensures HelpersTo(if d.helped[n] then atoms + {HelperAtom(d, depth, n)} else atoms, d, depth, n + 1)
  {
  }

  ghost predicate ChainTo(chainRules: seq<Rule>, d: Draw, depth: nat, n: nat)
    requires Sized(d, depth) && n <= depth
  {
    |chainRules| == n && forall k: nat | k < n :: chainRules[k] == ChainRule(d, depth, k)
  }

  lemma ChainStep(chainRules: seq<Rule>, d: Draw, depth: nat, n: nat)
    requires Sized(d, depth) && n < depth && ChainTo(chainRules, d, depth, n)
    ensures ChainTo(chainRules + [ChainRule(d, depth, n)], d, depth, n + 1)
  {
  }

  method BuildChain(d: Draw, depth: nat) returns (chainRules: seq<Rule>, facts: set<Atom>, chainBase: seq<Atom>)
    requires Sized(d, depth)
    ensures ChainOf(chainRules, d, depth) && |facts| <= depth
    ensures forall a :: a in chainBase <==> a in facts
    ensures HelpersTo(facts, d, depth, depth)
  {
    chainRules, facts, chainBase := [], {}, [];
    for i: nat := 0 to depth
      invariant ChainTo(chainRules, d, depth, i)
      invariant |facts| <= i
      invariant forall a :: a in chainBase <==> a in facts
      invariant HelpersTo(facts, d, depth, i)
    {
      HelpersStep(facts, d, depth, i);
      ChainStep(chainRules, d, depth, i);
      var link, helper := d.working[i], d.working[depth + 1 + i];
      var ants := [link];
      if d.helped[i] {
        ants := if d.swapped[i] then [helper, link] else [link, helper];
        facts := facts + {Atom(d.person, helper)};
        chainBase := chainBase + [Atom(d.person, helper)];
      }
      assert Rule(ants, d.working[i + 1]) == ChainRule(d, depth, i);
      chainRules := chainRules + [Rule(ants, d.working[i + 1])];
    }
  }

  /** The premises of one chain rule that are helpers, told of the second person. */
  method MirrorHelpers(facts: set<Atom>, ants: seq<string>, mirror: string, d: Draw, depth: nat, ghost i: nat)
    returns (more: set<Atom>)
    requires Drawable(d, depth) && i < depth && ants == ChainRule(d, depth, i).ants
    ensures more == facts + if d.helped[i] then {Atom(mirror, d.working[depth + 1 + i])} else {}
  {
    var helperPool := d.working[depth + 1..2 * depth + 1];
    NotAHelper(d, depth, i);
    more := facts;
    ghost var place := if !d.helped[i] then 2 else if d.swapped[i] then 0 else 1;
    for j := 0 to |ants|
      invariant more == facts + if place < j then {Atom(mirror, d.working[depth + 1 + i])} else {}
    {
      if ants[j] in helperPool {
        more := more + {Atom(mirror, ants[j])};
      }
    }
  }

  lemma {:induction false} MirrorStep(start: set<Atom>, before: set<Atom>, more: set<Atom>, mirror: string, d: Draw,
                                      depth: nat, i: nat, next: nat)
    requires Sized(d, depth) && i < depth && next == i + 1 && before == start + HelpersUpTo(mirror, d, depth, i)
    requires more == before + if d.helped[i] then {Atom(mirror, d.working[depth + 1 + i])} else {}
    ensures more == start + HelpersUpTo(mirror, d, depth, next) && |more| <= |before| + 1
  {
    HelpersUpToNext(mirror, d, depth, i, next);
  }

  /** The NO branch's second person, who does get the start and every helper. */
  method AddMirror(facts: set<Atom>, chainRules: seq<Rule>, d: Draw, depth: nat) returns (more: set<Atom>)
    requires Drawable(d, depth) && ChainOf(chainRules, d, depth)
    ensures |more| <= |facts| + depth + 1
    ensures more == facts + WithHelpers(d.others[0], 0, d, depth)
  {
    var mirror := d.others[0];
    more := facts + {Atom(mirror, d.working[0])};
    ghost var start := more;
    for i: nat := 0 to depth
      invariant |more| <= |facts| + i + 1 && more == start + HelpersUpTo(mirror, d, depth, i)
    {
      ghost var before, next := more, i + 1;
      more := MirrorHelpers(more, chainRules[i].ants, mirror, d, depth, i);
      MirrorStep(start, before, more, mirror, d, depth, i, next);
    }
  }

  /** A chain predicate is not in the helper pool, so a chain rule has at most one helper. */
  lemma NotAHelper(d: Draw, depth: nat, i: nat)
    requires Drawable(d, depth) && i < depth
    ensures d.working[i] !in d.working[depth + 1..2 * depth + 1]
    ensures ChainRule(d, depth, i).ants[if d.helped[i] && d.swapped[i] then 1 else 0] == d.working[i]
    ensures |ChainRule(d, depth, i).ants| == if d.helped[i] then 2 else 1
    ensures d.helped[i] ==>
      ChainRule(d, depth, i).ants[if d.swapped[i] then 0 else 1] == d.working[depth + 1..2 * depth + 1][i]
  {
  }

  /** The chain's heads are no distractor heads. */
  lemma {:induction false} HeadApart(d: Draw, depth: nat, t: nat)
    requires Drawable(d, depth) && t < 300
    ensures DrawnRule(d, depth, t).head !in d.working[..2 * depth + 1]
  {
    assert RuleDrawable(d.ruleDraws[t], |d.working|);
  }

  lemma {:induction false} ChainHeads(rules: seq<Rule>, chainRules: seq<Rule>, d: Draw, depth: nat)
    requires Drawable(d, depth) && ChainOf(chainRules, d, depth) && depth <= |rules| && rules[..depth] == chainRules
    ensures forall k | 0 <= k < depth :: rules[k].head in d.working[..2 * depth + 1]
  {
    forall k | 0 <= k < depth
      ensures rules[k].head in d.working[..2 * depth + 1]
    {
      assert rules[..depth][k] == ChainRule(d, depth, k);
      assert d.working[..2 * depth + 1][k + 1] == rules[k].head;
    }
  }

  /** A drawn rule that is there already was drawn before. */
  lemma {:induction false} DrawnBefore(rules: seq<Rule>, chainRules: seq<Rule>, places: seq<nat>, t: nat, d: Draw,
                                       depth: nat)
    requires Drawable(d, depth) && t < 300 && ChainOf(chainRules, d, depth) && depth <= |rules|
    requires rules[..depth] == chainRules && RulesDrawn(rules, places, t, d, depth) && DrawnRule(d, depth, t) in rules
    ensures ListedBy(rules, places, t, d, depth)
  {
    var k :| 0 <= k < |rules| && rules[k] == DrawnRule(d, depth, t);
    ChainHeads(rules, chainRules, d, depth);
    HeadApart(d, depth, t);
    assert rules[depth + (k - depth)] == DrawnRule(d, depth, t) && places[k - depth] <= t;
  }

  /** A draw that adds nothing is unusable or drawn before. */
  lemma {:induction false} DrawPassed(rules: seq<Rule>, chainRules: seq<Rule>, places: seq<nat>, t: nat, next: nat,
                                      d: Draw, depth: nat)
    requires Drawable(d, depth) && t < 300 && ChainOf(chainRules, d, depth) && next == t + 1
    requires depth <= |rules| && rules[..depth] == chainRules && RulesDrawn(rules, places, t, d, depth)
    requires !UsableRule(d, depth, t) || DrawnRule(d, depth, t) in rules
    ensures RulesDrawn(rules, places, next, d, depth)
  {
    if UsableRule(d, depth, t) {
      DrawnBefore(rules, chainRules, places, t, d, depth);
    }
  }

  lemma {:induction false} StillListed(rules: seq<Rule>, places: seq<nat>, rule: Rule, t: nat, u: nat, d: Draw,
                                       depth: nat)
    requires Drawable(d, depth) && u < 300 && |rules| == depth + |places| && ListedBy(rules, places, u, d, depth)
    ensures ListedBy(rules + [rule], places + [t], u, d, depth)
  {
    var j :| 0 <= j < |places| && places[j] <= u && rules[depth + j] == DrawnRule(d, depth, u);
    assert (places + [t])[j] <= u && (rules + [rule])[depth + j] == DrawnRule(d, depth, u);
  }

  /** A new usable draw becomes the last rule. */
  lemma {:induction false} DrawAdded(rules: seq<Rule>, places: seq<nat>, t: nat, next: nat, d: Draw, depth: nat,
                                     more: seq<Rule>, morePlaces: seq<nat>)
    requires Drawable(d, depth) && t < 300 && next == t + 1 && RulesDrawn(rules, places, t, d, depth)
    requires UsableRule(d, depth, t) && DrawnRule(d, depth, t) !in rules
    requires more == rules + [DrawnRule(d, depth, t)] && morePlaces == places + [t]
    ensures RulesDrawn(more, morePlaces, next, d, depth)
  {
    assert more[depth + |places|] == DrawnRule(d, depth, t) && morePlaces[|places|] == t;
    forall u: nat {:trigger UsableRule(d, depth, u)} | u < next && UsableRule(d, depth, u)
      ensures ListedBy(more, morePlaces, u, d, depth)
    {
      if u < t {
        StillListed(rules, places, DrawnRule(d, depth, t), t, u, d, depth);
      }
    }
    forall i, j {:trigger morePlaces[i], morePlaces[j]} | 0 <= i < j < |morePlaces|
      ensures morePlaces[i] < morePlaces[j] && more[depth + i] != more[depth + j]
    {
      assert more[depth + i] == rules[depth + i] && morePlaces[i] == places[i];
    }
  }

  /** The rules past the chain are the usable draws, each once in the order drawn, until as many
      as wanted are listed or the draws run out. */
  method AddDistractorRules(chainRules: seq<Rule>, d: Draw, depth: nat)
    returns (rules: seq<Rule>, ghost places: seq<nat>, ghost used: nat)
    requires Drawable(d, depth) && ChainOf(chainRules, d, depth)
    ensures RulesOf(rules, chainRules, d, depth) && NoRepeats(rules, depth)
    ensures RulesDrawn(rules, places, used, d, depth) && RulesDone(rules, used, d, depth)
  {
    rules, places := chainRules, [];
    var extra := d.working[2 * depth + 1..];
    var unsafeHeads := d.working[..2 * depth + 1];
    var count := Randint(Max(3, |rules|), Max(MaxRules(depth), |rules|), d.ruleCount);
    assert count == WantedRules(d, depth);
    var tries: nat := 0;
    while |rules| < count && tries < 300
      invariant 0 <= tries <= 300 && depth <= |rules| <= count && rules[..depth] == chainRules
      invariant forall k | depth <= k < |rules| :: Distracts(rules[k], d, depth)
      invariant RulesDrawn(rules, places, tries, d, depth)
      decreases 300 - tries
    {
      var r := d.ruleDraws[tries];
      assert RuleDrawable(r, |d.working|);
      HeadApart(d, depth, tries);
      ghost var t: nat := tries;
      tries := tries + 1;
      var ants := if r.two then [d.working[r.first], d.working[r.second]] else [d.working[r.first]];
      var head := extra[1..][r.head - 1];
      assert Rule(ants, head) == DrawnRule(d, depth, t);
      if head in ants || head in unsafeHeads {
        DrawPassed(rules, chainRules, places, t, tries, d, depth);
        continue;
      }
      var rule := Rule(ants, head);
      if rule !in rules {
        HeadIsExtra(rule, d, depth, r.head);
        DrawAdded(rules, places, t, tries, d, depth, rules + [rule], places + [t]);
        rules := rules + [rule];
        places := places + [t];
      } else {
        DrawPassed(rules, chainRules, places, t, tries, d, depth);
      }
    }
    used := tries;
    DrawnApart(rules, places, used, d, depth);
  }

  lemma HeadIsExtra(rule: Rule, d: Draw, depth: nat, place: nat)
    requires Drawable(d, depth) && 1 <= place < EXTRA && rule.head == d.working[2 * depth + 1 + place]
    requires 1 <= |rule.ants| <= 2 && rule.head !in rule.ants
    ensures Distracts(rule, d, depth)
  {
    assert d.working[2 * depth + 2..][place - 1] == rule.head;
  }

  /** Facts that neither hand the queried person a chain or helper predicate nor take one away. */
  ghost predicate Harmless(before: set<Atom>, after: set<Atom>, d: Draw, depth: nat)
    requires Drawable(d, depth)
  {
    before <= after && forall a, j: nat | a in after && a !in before && a.person == d.person && j <= 2 * depth ::
      a.pred != d.working[j]
  }

  /** One draw: any predicate of another person, an unrelated one of the queried person. */
  method DrawFact(d: Draw, depth: nat, t: nat) returns (a: Atom)
    requires Drawable(d, depth) && t < 300
    ensures a == DrawnFact(d, depth, t)
    ensures a.person == d.person ==> forall j: nat | j <= 2 * depth :: a.pred != d.working[j]
  {
    var draw, extra := d.factDraws[t], d.working[2 * depth + 1..];
    var people := [d.person] + d.others;
    var who := people[draw.who % |people|];
    var pool := if who == d.person then extra else d.working;
    var pred := pool[draw.pred % |pool|];
    a := Atom(who, pred);
  }

  lemma {:induction false} TellOneMore(given: set<Atom>, facts: set<Atom>, fact: Atom, t: nat, next: nat, d: Draw,
                                       depth: nat)
    requires Drawable(d, depth) && t < 300 && next == t + 1 && fact == DrawnFact(d, depth, t)
    requires fact.person == d.person ==> forall j: nat | j <= 2 * depth :: fact.pred != d.working[j]
    requires facts == given + DrawnFacts(d, depth, t) && Harmless(given, facts, d, depth)
    ensures facts + {fact} == given + DrawnFacts(d, depth, next) && Harmless(given, facts + {fact}, d, depth)
    ensures |facts + {fact}| <= |facts| + 1
  {
    MoreFacts(d, depth, t);
  }

  /** The given facts and the drawn ones, until as many as wanted are told or the draws run out. */
  method AddDistractorFacts(given: set<Atom>, d: Draw, depth: nat) returns (facts: set<Atom>, ghost used: nat)
    requires Drawable(d, depth)
    ensures FactsDrawn(facts, given, used, d, depth)
    ensures Harmless(given, facts, d, depth)
    ensures |facts| <= Max(MaxFacts(depth), |given|)
  {
    facts := given;
    var count := Randint(Min(Max(4, |facts|), MaxFacts(depth)), MaxFacts(depth), d.factCount);
    var tries: nat := 0;
    assert count == WantedFacts(|given|, d, depth);
    assert given + DrawnFacts(d, depth, 0) == given;
    while |facts| < count && tries < 300
      invariant 0 <= tries <= 300 && facts == given + DrawnFacts(d, depth, tries)
      invariant tries > 0 ==> |given + DrawnFacts(d, depth, tries - 1)| < count
      invariant Harmless(given, facts, d, depth)
      invariant facts == given || |facts| <= count
      decreases 300 - tries
    {
      var fact := DrawFact(d, depth, tries);
      TellOneMore(given, facts, fact, tries, tries + 1, d, depth);
      tries := tries + 1;
      facts := facts + {fact};
    }
    used := tries;
  }

  /** The facts before the distractors. */
  ghost predicate Given(given: set<Atom>, helpers: set<Atom>, d: Draw, depth: nat, yes: bool)
    requires Drawable(d, depth)
  {
    && HelpersTo(helpers, d, depth, depth) && |given| <= (if yes then depth + 1 else 2 * depth + 2)
    && (forall a: Atom | a.person == d.person ::
          a in given <==> a in helpers || a.pred == if yes then d.working[0] else d.working[2 * depth + 1])
    && (!yes && d.mirror ==> MirrorSupplied(given, d, depth))
  }

  lemma GivenChain(given: set<Atom>, helpers: set<Atom>, chainBase: seq<Atom>, d: Draw, depth: nat, yes: bool)
    requires depth >= 1 && Drawable(d, depth) && Given(given, helpers, d, depth, yes)
    requires forall a :: a in chainBase <==> a in helpers || (yes && a == ChainAtom(d, 0))
    ensures yes ==> BaseOf(chainBase, d, depth)
    ensures NothingFree(given, d, depth, yes) && Supplied(given, d, depth, yes)
  {
    forall j: nat | (if yes then 1 else 0) <= j <= depth
      ensures ChainAtom(d, j) !in given
    {
      assert ChainAtom(d, j) !in helpers;
    }
    forall i: nat | i < depth && !d.helped[i]
      ensures HelperAtom(d, depth, i) !in given
    {
      assert HelperAtom(d, depth, i) !in helpers;
    }
    var own := Atom(d.person, if yes then d.working[0] else d.working[2 * depth + 1]);
    assert own in given && own.person in People(given);
  }

  lemma HarmlessKeeps(given: set<Atom>, facts: set<Atom>, d: Draw, depth: nat, yes: bool)
    requires Drawable(d, depth) && Harmless(given, facts, d, depth)
    requires NothingFree(given, d, depth, yes) && Supplied(given, d, depth, yes)
    ensures NothingFree(facts, d, depth, yes) && Supplied(facts, d, depth, yes)
  {
    var a :| a in given && a.person == d.person;
    assert a in facts;
  }

  /** The given facts are what the chain's proofs rely on. */
  lemma {:induction false} GivenAre(helpers: set<Atom>, d: Draw, depth: nat, yes: bool)
    requires Drawable(d, depth) && HelpersTo(helpers, d, depth, depth) && helpers == HelpersOf(d.person, d, depth)
    ensures Given(GivenFacts(d, depth, yes), helpers, d, depth, yes)
  {
    GivenCounted(d, depth, yes);
    HelpedAtMost(d, depth);
    forall a: Atom | a.person == d.person
      ensures a in GivenFacts(d, depth, yes)
        <==> a in helpers || a.pred == if yes then d.working[0] else d.working[2 * depth + 1]
    {
      OwnGiven(helpers, d, depth, yes, a);
    }
    if !yes && d.mirror {
      MirrorGiven(d, depth);
    }
  }

  lemma {:induction false} OwnGiven(helpers: set<Atom>, d: Draw, depth: nat, yes: bool, a: Atom)
    requires Drawable(d, depth) && helpers == HelpersOf(d.person, d, depth) && a.person == d.person
    ensures a in GivenFacts(d, depth, yes)
       <==> a in helpers || a.pred == if yes then d.working[0] else d.working[2 * depth + 1]
  {
    assert a !in WithHelpers(d.others[0], 0, d, depth);
  }

  lemma {:induction false} MirrorGiven(d: Draw, depth: nat)
    requires Drawable(d, depth) && d.mirror
    ensures MirrorSupplied(GivenFacts(d, depth, false), d, depth)
  {
    forall i: nat | i < depth && d.helped[i]
      ensures Atom(d.others[0], d.working[depth + 1 + i]) in HelpersOf(d.others[0], d, depth)
    {
    }
  }

  lemma {:induction false} HelpedAtMost(d: Draw, n: nat)
    requires n <= |d.helped|
    ensures Helped(d, n) <= n
  {
    if n > 0 {
      HelpedAtMost(d, n - 1);
    }
  }

  method BuildFacts(helpers: set<Atom>, chainRules: seq<Rule>, d: Draw, depth: nat, yes: bool)
    returns (facts: set<Atom>)
    requires Drawable(d, depth) && ChainOf(chainRules, d, depth) && HelpersTo(helpers, d, depth, depth)
      && |helpers| <= depth
    ensures Given(facts, helpers, d, depth, yes) && facts == GivenFacts(d, depth, yes)
  {
    assert helpers == HelpersOf(d.person, d, depth);
    GivenAre(helpers, d, depth, yes);
    if yes {
      facts := helpers + {Atom(d.person, d.working[0])};
    } else {
      facts := helpers + {Atom(d.person, d.working[2 * depth + 1])};
      if d.mirror {
        facts := AddMirror(facts, chainRules, d, depth);
      }
    }
  }

  /** The chain, what it stands on, and the facts given. */
  method BuildGiven(d: Draw, depth: nat, yes: bool)
    returns (chainRules: seq<Rule>, given: set<Atom>, chainBase: seq<Atom>)
    requires depth >= 1 && Drawable(d, depth)
    ensures ChainOf(chainRules, d, depth) && given == GivenFacts(d, depth, yes)
    ensures NothingFree(given, d, depth, yes) && Supplied(given, d, depth, yes)
    ensures |given| <= if yes then depth + 1 else 2 * depth + 2
    ensures yes ==> BaseOf(chainBase, d, depth)
    ensures !yes && d.mirror ==> MirrorSupplied(given, d, depth)
  {
    var helpers;
    chainRules, helpers, chainBase := BuildChain(d, depth);
    given := BuildFacts(helpers, chainRules, d, depth, yes);
    if yes {
      chainBase := [Atom(d.person, d.working[0])] + chainBase;
    }
    GivenChain(given, helpers, chainBase, d, depth, yes);
  }

  /** One candidate problem. Rules and facts are those the draws call for, and so are their
      numbers. */
  method Build(d: Draw, depth: nat, yes: bool) returns (c: Candidate)
    requires depth >= 1 && Drawable(d, depth)
    ensures Shaped(c, d, depth, yes) && NoRepeats(c.rules, depth)
    ensures exists places, used :: RulesDrawn(c.rules, places, used, d, depth) && RulesDone(c.rules, used, d, depth)
    ensures exists used :: FactsDrawn(c.facts, GivenFacts(d, depth, yes), used, d, depth)
    ensures |c.rules| == RulesBuilt(d, depth) && |c.facts| == FactsBuilt(d, depth, yes)
  {
    var chainRules, given, chainBase := BuildGiven(d, depth, yes);
    var rules, facts;
    ghost var places, usedRules, usedFacts;
    rules, places, usedRules := AddDistractorRules(chainRules, d, depth);
    RulesCounted(rules, places, usedRules, d, depth);
    facts, usedFacts := AddDistractorFacts(given, d, depth);
    FactsCounted(facts, given, usedFacts, d, depth, yes);
    HarmlessKeeps(given, facts, d, depth, yes);
    c := Candidate(Atom(d.person, d.working[depth]), facts, rules, chainRules, chainBase);
  }
}
