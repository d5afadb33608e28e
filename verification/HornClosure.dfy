/** The forward-chaining oracle over Horn rules and its parallel levels (deduction.py,
    forward_chain and _closure_level). */
module HornClosure {
  import opened Wrappers

  datatype Atom = Atom(person: string, pred: string)

  /** "If someone is every one of `ants`, then they are `head`." */
  datatype Rule = Rule(ants: seq<string>, head: string)

  function People(atoms: set<Atom>): set<string> {
    set a | a in atoms :: a.person
  }

  predicate Holds(atoms: set<Atom>, person: string, ants: seq<string>) {
    forall i | 0 <= i < |ants| :: Atom(person, ants[i]) in atoms
  }

  /** Nothing more follows. */
  ghost predicate Closed(atoms: set<Atom>, rules: seq<Rule>) {
    forall i, p | 0 <= i < |rules| && p in People(atoms) && Holds(atoms, p, rules[i].ants) ::
      Atom(p, rules[i].head) in atoms
  }

  /** The least rule-closed superset of the facts. */
  ghost predicate IsClosure(closure: set<Atom>, facts: set<Atom>, rules: seq<Rule>) {
    && facts <= closure && Closed(closure, rules)
    && forall other: set<Atom> | facts <= other && Closed(other, rules) :: closure <= other
  }

  /** Everything the rules could ever add. */
  ghost function Universe(facts: set<Atom>, rules: seq<Rule>): (all: set<Atom>)
    ensures facts <= all
    ensures forall i, p | 0 <= i < |rules| && p in People(facts) :: Atom(p, rules[i].head) in all
  {
    facts + set i, p | 0 <= i < |rules| && p in People(facts) :: Atom(p, rules[i].head)
  }

  /** Derived so far: between the facts and every closed superset, about the same people. */
  ghost predicate Between(closure: set<Atom>, facts: set<Atom>, rules: seq<Rule>) {
    && facts <= closure <= Universe(facts, rules) && People(closure) == People(facts)
    && forall other: set<Atom> | facts <= other && Closed(other, rules) :: closure <= other
  }

  lemma AddFired(closure: set<Atom>, facts: set<Atom>, rules: seq<Rule>, i: nat, p: string)
    requires Between(closure, facts, rules) && i < |rules| && p in People(closure) && Holds(closure, p, rules[i].ants)
    ensures Between(closure + {Atom(p, rules[i].head)}, facts, rules)
  {
    var atom := Atom(p, rules[i].head);
    forall q
      ensures q in People(closure + {atom}) <==> q in People(facts)
    {
    }
    forall other: set<Atom> | facts <= other && Closed(other, rules)
      ensures atom in other
    {
      var a :| a in facts && a.person == p;
      assert p in People(other) && Holds(other, p, rules[i].ants);
    }
  }

  /** Every firing of this rule for these people is in. */
  ghost predicate Fires(closure: set<Atom>, rule: Rule, people: set<string>) {
    forall p | p in people && Holds(closure, p, rule.ants) :: Atom(p, rule.head) in closure
  }

  /** One rule for all people, in any order: it adds something, or has nothing to add. */
  method FireRule(before: set<Atom>, ghost facts: set<Atom>, rules: seq<Rule>, i: nat, people: set<string>)
    returns (closure: set<Atom>, changed: bool)
    requires i < |rules| && Between(before, facts, rules) && people == People(before)
    ensures Between(closure, facts, rules) && before <= closure && (changed <==> before != closure)
    ensures !changed ==> Fires(closure, rules[i], people)
  {
    closure, changed := before, false;
    var rule := rules[i];
    var todo := people;
    while todo != {}
      invariant todo <= people && Between(closure, facts, rules) && before <= closure
      invariant (changed <==> before != closure) && people == People(closure)
      invariant !changed ==> Fires(closure, rule, people - todo)
    {
      var person :| person in todo;
      var atom := Atom(person, rule.head);
      if atom !in closure && Holds(closure, person, rule.ants) {
        AddFired(closure, facts, rules, i, person);
        closure := closure + {atom};
        changed := true;
      }
      todo := todo - {person};
    }
  }

  /** Chaotic iteration: rules in list order, people in any order, until a pass adds
      nothing. It ends, and with the least closure, whatever the order. */
  method ForwardChain(facts: set<Atom>, rules: seq<Rule>) returns (closure: set<Atom>)
    ensures IsClosure(closure, facts, rules)
  {
    closure := facts;
    var changed := true;
    while changed
      invariant Between(closure, facts, rules)
      invariant !changed ==> Closed(closure, rules)
      decreases Universe(facts, rules) - closure, changed
    {
      ghost var before := closure;
      changed := false;
      var people := People(closure);
      for i := 0 to |rules|
        invariant Between(closure, facts, rules) && before <= closure && people == People(closure)
        invariant changed <==> before != closure
        invariant !changed ==> forall k | 0 <= k < i :: Fires(closure, rules[k], people)
      {
        var fired;
        closure, fired := FireRule(closure, facts, rules, i, people);
        changed := changed || fired;
      }
    }
  }

  // ----- parallel levels -----

  /** What one parallel round fires. */
  function Fired(atoms: set<Atom>, rules: seq<Rule>): set<Atom> {
    var people := People(atoms);
    set i, p | 0 <= i < |rules| && p in people && Holds(atoms, p, rules[i].ants) :: Atom(p, rules[i].head)
  }

  function Round(atoms: set<Atom>, rules: seq<Rule>): set<Atom> {
    atoms + Fired(atoms, rules)
  }

  function Iterate<T>(f: T -> T, x: T, n: nat): T {
    if n == 0 then x else f(Iterate(f, x, n - 1))
  }

  lemma {:induction false} IterateStays<T>(f: T -> T, x: T, m: nat, n: nat)
    requires m <= n && f(Iterate(f, x, m)) == Iterate(f, x, m)
    ensures Iterate(f, x, n) == Iterate(f, x, m)
  {
    if m < n {
      IterateStays(f, x, m, n - 1);
    }
  }

  function Rounds(rules: seq<Rule>): set<Atom> -> set<Atom> {
    (atoms: set<Atom>) => Round(atoms, rules)
  }

  /** The atoms after n parallel rounds. */
  function Level(facts: set<Atom>, rules: seq<Rule>, n: nat): set<Atom> {
    Iterate(Rounds(rules), facts, n)
  }

  lemma LevelStep(facts: set<Atom>, rules: seq<Rule>, n: nat)
    ensures Level(facts, rules, 0) == facts
    ensures Level(facts, rules, n + 1) == Round(Level(facts, rules, n), rules)
  {
  }

  lemma {:induction false} LevelUnfolds(facts: set<Atom>, rules: seq<Rule>, n: nat)
    requires n > 0
    ensures Level(facts, rules, n) == Round(Level(facts, rules, n - 1), rules)
  {
  }

  lemma {:induction false} IterateKeeps<T>(f: T -> T, x: T, n: nat, keeps: T -> bool)
    requires keeps(x) && forall y | keeps(y) :: keeps(f(y))
    ensures keeps(Iterate(f, x, n))
  {
    if n > 0 {
      IterateKeeps(f, x, n - 1, keeps);
    }
  }

  lemma {:induction false} LevelBetween(facts: set<Atom>, rules: seq<Rule>, n: nat)
    ensures Between(Level(facts, rules, n), facts, rules)
  {
    var keeps := (atoms: set<Atom>) => Between(atoms, facts, rules);
    forall atoms | keeps(atoms)
      ensures keeps(Rounds(rules)(atoms))
    {
      RoundBetween(atoms, Round(atoms, rules), facts, rules);
    }
    IterateKeeps(Rounds(rules), facts, n, keeps);
  }

  lemma FiredSource(atoms: set<Atom>, rules: seq<Rule>, a: Atom) returns (i: nat)
    requires a in Fired(atoms, rules)
    ensures i < |rules| && a.person in People(atoms) && Holds(atoms, a.person, rules[i].ants)
      && a == Atom(a.person, rules[i].head)
  {
    i :| 0 <= i < |rules| && a.person in People(atoms) && Holds(atoms, a.person, rules[i].ants)
      && a.pred == rules[i].head;
  }

  lemma RoundBetween(atoms: set<Atom>, next: set<Atom>, facts: set<Atom>, rules: seq<Rule>)
    requires Between(atoms, facts, rules) && next == Round(atoms, rules)
    ensures Between(next, facts, rules)
  {
    forall a | a in Fired(atoms, rules)
      ensures a.person in People(facts) && a in Universe(facts, rules)
      ensures forall other: set<Atom> | facts <= other && Closed(other, rules) :: a in other
    {
      var i := FiredSource(atoms, rules, a);
      AddFired(atoms, facts, rules, i, a.person);
    }
    forall q ensures q in People(next) <==> q in People(facts) {
    }
  }

  lemma FixpointClosed(atoms: set<Atom>, rules: seq<Rule>)
    requires Round(atoms, rules) == atoms
    ensures Closed(atoms, rules)
  {
    forall i, p | 0 <= i < |rules| && p in People(atoms) && Holds(atoms, p, rules[i].ants)
      ensures Atom(p, rules[i].head) in atoms
    {
      assert Atom(p, rules[i].head) in Fired(atoms, rules);
    }
  }

  lemma {:induction false} LevelGrows(facts: set<Atom>, rules: seq<Rule>, n: nat)
    ensures facts <= Level(facts, rules, n)
  {
    LevelBetween(facts, rules, n);
  }

  lemma LevelStays(facts: set<Atom>, rules: seq<Rule>, m: nat, n: nat)
    requires m <= n && Round(Level(facts, rules, m), rules) == Level(facts, rules, m)
    ensures Level(facts, rules, n) == Level(facts, rules, m)
  {
    IterateStays(Rounds(rules), facts, m, n);
  }

  /** No level up to n holds the query. */
  ghost predicate AbsentTo(facts: set<Atom>, rules: seq<Rule>, query: Atom, n: nat) {
    forall m: nat | m <= n :: query !in Level(facts, rules, m)
  }

  /** At a fixpoint without the query, no level ever holds it, nor does the closure. */
  lemma NeverHeld(facts: set<Atom>, rules: seq<Rule>, query: Atom, level: nat, cur: set<Atom>)
    requires cur == Level(facts, rules, level) && Round(cur, rules) == cur && AbsentTo(facts, rules, query, level)
    ensures forall m: nat :: query !in Level(facts, rules, m)
    ensures forall closure | IsClosure(closure, facts, rules) :: query !in closure
  {
    forall m: nat
      ensures query !in Level(facts, rules, m)
    {
      if m > level {
        LevelStays(facts, rules, level, m);
      }
    }
    LevelBetween(facts, rules, level);
    FixpointClosed(cur, rules);
    assert query !in cur;
  }

  lemma HeldInClosure(facts: set<Atom>, rules: seq<Rule>, query: Atom, level: nat)
    requires query in Level(facts, rules, level)
    ensures forall closure | IsClosure(closure, facts, rules) :: query in closure
  {
    LevelBetween(facts, rules, level);
  }

  lemma RoundDecreases(facts: set<Atom>, rules: seq<Rule>, cur: set<Atom>, nxt: set<Atom>)
    requires Between(cur, facts, rules) && nxt == Round(cur, rules) != cur
    ensures Between(nxt, facts, rules) && Universe(facts, rules) - nxt < Universe(facts, rules) - cur
  {
    RoundBetween(cur, nxt, facts, rules);
    var x :| x in nxt && x !in cur;
    assert x in Universe(facts, rules) - cur;
  }

  /** The first level that holds the query, or None when no level ever does; and a level
      exists exactly when the query is in the closure. */
  method ClosureLevel(facts: set<Atom>, rules: seq<Rule>, query: Atom) returns (r: Option<nat>)
    ensures r.Some? ==> query in Level(facts, rules, r.value)
    ensures r.Some? && r.value > 0 ==> AbsentTo(facts, rules, query, r.value - 1)
    ensures r.None? ==> forall m: nat :: query !in Level(facts, rules, m)
    ensures forall closure | IsClosure(closure, facts, rules) :: query in closure <==> r.Some?
  {
    var cur := facts;
    if query in cur {
      HeldInClosure(facts, rules, query, 0);
      return Some(0);
    }
    var level: nat := 0;
    while true
      invariant cur == Level(facts, rules, level) && Between(cur, facts, rules)
      invariant AbsentTo(facts, rules, query, level)
      decreases Universe(facts, rules) - cur
    {
      var nxt := Round(cur, rules);
      if nxt == cur {
        NeverHeld(facts, rules, query, level, cur);
        return None;
      }
      RoundDecreases(facts, rules, cur, nxt);
      LevelStep(facts, rules, level);
      cur := nxt;
      level := level + 1;
      if query in cur {
        HeldInClosure(facts, rules, query, level);
        return Some(level);
      }
    }
  }

  // ----- levels are derivation heights -----

  /** A derivation tree: a fact, or a rule applied for one person to derived premises. */
  datatype Derivation = Given(atom: Atom) | Infer(rule: nat, person: string, premises: seq<Derivation>)

  ghost function Conclusion(d: Derivation, rules: seq<Rule>): Option<Atom> {
    match d
    case Given(atom) => Some(atom)
    case Infer(rule, person, _) => if rule < |rules| then Some(Atom(person, rules[rule].head)) else None
  }

  ghost predicate Proves(d: Derivation, facts: set<Atom>, rules: seq<Rule>) {
    match d
    case Given(atom) => atom in facts
    case Infer(rule, person, premises) =>
      && rule < |rules| && person in People(facts) && |premises| == |rules[rule].ants|
      && forall i | 0 <= i < |premises| ::
           Proves(premises[i], facts, rules) && Conclusion(premises[i], rules)
             == Some(Atom(person, rules[rule].ants[i]))
  }

  /** No rule application of the tree lies deeper than n below the root. */
  ghost predicate HeightAtMost(d: Derivation, n: nat) {
    d.Given? || (n > 0 && forall i | 0 <= i < |d.premises| :: HeightAtMost(d.premises[i], n - 1))
  }

  ghost predicate DerivedWithin(a: Atom, facts: set<Atom>, rules: seq<Rule>, n: nat) {
    exists d :: Proves(d, facts, rules) && Conclusion(d, rules) == Some(a) && HeightAtMost(d, n)
  }

  lemma {:induction false} HeightMonotone(d: Derivation, n: nat)
    requires HeightAtMost(d, n)
    ensures HeightAtMost(d, n + 1)
  {
    if d.Infer? {
      forall i | 0 <= i < |d.premises| ensures HeightAtMost(d.premises[i], n) {
        HeightMonotone(d.premises[i], n - 1);
      }
    }
  }

  lemma {:induction false} DerivationInLevel(d: Derivation, facts: set<Atom>, rules: seq<Rule>, n: nat)
    requires Proves(d, facts, rules) && HeightAtMost(d, n)
    ensures Conclusion(d, rules).Some? && Conclusion(d, rules).value in Level(facts, rules, n)
  {
    if d.Given? {
      LevelGrows(facts, rules, n);
    } else {
      var before := Level(facts, rules, n - 1);
      LevelBetween(facts, rules, n - 1);
      forall i | 0 <= i < |rules[d.rule].ants|
        ensures Atom(d.person, rules[d.rule].ants[i]) in before
      {
        DerivationInLevel(d.premises[i], facts, rules, n - 1);
      }
      assert Holds(before, d.person, rules[d.rule].ants);
      assert Atom(d.person, rules[d.rule].head) in Fired(before, rules);
      LevelStep(facts, rules, n - 1);
    }
  }

  /** What put an atom into level n: the level before, or a rule fired on it. */
  lemma {:induction false} LevelSource(a: Atom, facts: set<Atom>, rules: seq<Rule>, n: nat)
    returns (fired: bool, i: nat, before: set<Atom>)
    requires n > 0 && a in Level(facts, rules, n)
    ensures before == Level(facts, rules, n - 1) && (!fired ==> a in before)
    ensures fired ==> i < |rules| && a == Atom(a.person, rules[i].head) && Holds(before, a.person, rules[i].ants)
    ensures fired ==> a.person in People(facts)
  {
    before := Level(facts, rules, n - 1);
    LevelUnfolds(facts, rules, n);
    fired, i := a !in before, 0;
    if fired {
      i := FiredSource(before, rules, a);
      LevelPeople(facts, rules, n - 1, a.person);
    }
  }

  lemma {:induction false} LevelDerives(a: Atom, facts: set<Atom>, rules: seq<Rule>, n: nat) returns (d: Derivation)
    requires a in Level(facts, rules, n)
    ensures Proves(d, facts, rules) && Conclusion(d, rules) == Some(a) && HeightAtMost(d, n)
    decreases n, 1
  {
    if n == 0 {
      d := Given(a);
    } else {
      var fired, i, before := LevelSource(a, facts, rules, n);
      if fired {
        var premises := Premises(a.person, rules[i].ants, |rules[i].ants|, facts, rules, n - 1);
        d := Infer(i, a.person, premises);
      } else {
        d := LevelDerives(a, facts, rules, n - 1);
        HeightMonotone(d, n - 1);
      }
    }
  }

  lemma LevelPeople(facts: set<Atom>, rules: seq<Rule>, n: nat, person: string)
    requires person in People(Level(facts, rules, n))
    ensures person in People(facts)
  {
    LevelBetween(facts, rules, n);
  }

  lemma {:induction false} Premises(person: string, ants: seq<string>, k: nat, facts: set<Atom>, rules: seq<Rule>,
                                    n: nat)
    returns (ds: seq<Derivation>)
    requires k <= |ants| && Holds(Level(facts, rules, n), person, ants)
    ensures |ds| == k && forall i | 0 <= i < k ::
      Proves(ds[i], facts, rules) && Conclusion(ds[i], rules) == Some(Atom(person, ants[i])) && HeightAtMost(ds[i], n)
    decreases n, 2, k
  {
    if k == 0 {
      ds := [];
    } else {
      var front := Premises(person, ants, k - 1, facts, rules, n);
      var last := LevelDerives(Atom(person, ants[k - 1]), facts, rules, n);
      ds := front + [last];
    }
  }

  /** Level n holds exactly the atoms with a derivation of height at most n, so the level
      that ClosureLevel returns is the least derivation height. */
  lemma {:induction false} LevelIsHeight(a: Atom, facts: set<Atom>, rules: seq<Rule>, n: nat)
    ensures a in Level(facts, rules, n) <==> DerivedWithin(a, facts, rules, n)
  {
    if a in Level(facts, rules, n) {
      var d := LevelDerives(a, facts, rules, n);
    }
    if DerivedWithin(a, facts, rules, n) {
      var d :| Proves(d, facts, rules) && Conclusion(d, rules) == Some(a) && HeightAtMost(d, n);
      DerivationInLevel(d, facts, rules, n);
    }
  }
}
