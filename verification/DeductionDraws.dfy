/** What the random generator hands a deduction problem, and what that alone makes of it: the facts
    given, the distractor rules and facts, and how many of each (deduction.py, _build). */
module DeductionDraws {
  import opened HornClosure

  const MAX_TRIES := 500
  const EXTRA := 11

  /** One distractor rule: one or two distinct places of `working`, and a head place in extra[1:]. */
  datatype RuleDraw = RuleDraw(two: bool, first: nat, second: nat, head: nat)

  datatype FactDraw = FactDraw(who: nat, pred: nat)

  /** What the random generator hands one call of Build. */
  datatype Draw = Draw(person: string, others: seq<string>, working: seq<string>,
                       helped: seq<bool>, swapped: seq<bool>, mirror: bool,
                       ruleCount: nat, ruleDraws: seq<RuleDraw>, factCount: nat, factDraws: seq<FactDraw>)

  /** No two places of `working` hold the same predicate. */
  ghost predicate AllDistinct(working: seq<string>) {
    forall i, j {:trigger working[i], working[j]} | 0 <= i < j < |working| :: working[i] != working[j]
  }

  ghost predicate RuleDrawable(r: RuleDraw, places: nat) {
    && r.first < places && r.second < places && (r.two ==> r.first != r.second)
    && 1 <= r.head < EXTRA
  }

  ghost predicate Sized(d: Draw, depth: nat) {
    |d.working| == 2 * depth + 1 + EXTRA && |d.helped| == |d.swapped| == depth
  }

  /** The guarantees of rng.choice, rng.sample and the two 300-try loops. */
  ghost predicate Drawable(d: Draw, depth: nat) {
    && Sized(d, depth)
    && 1 <= |d.others| <= 3 && d.person !in d.others && AllDistinct(d.working)
    && |d.ruleDraws| == |d.factDraws| == 300
    && forall k | 0 <= k < 300 :: RuleDrawable(d.ruleDraws[k], |d.working|)
  }

  // ----- distractor rules -----

  /** The rule of the t-th draw. */
  ghost function DrawnRule(d: Draw, depth: nat, t: nat): Rule
    requires Drawable(d, depth) && t < 300
  {
    var r := d.ruleDraws[t];
    Rule(if r.two then [d.working[r.first], d.working[r.second]] else [d.working[r.first]],
      d.working[2 * depth + 1 + r.head])
  }

  /** It concludes none of its own premises. */
  ghost predicate UsableRule(d: Draw, depth: nat, t: nat)
    requires Drawable(d, depth) && t < 300
  {
    DrawnRule(d, depth, t).head !in DrawnRule(d, depth, t).ants
  }

  /** How many rules are wanted: three or four up to depth 2, three to eight beyond, and never
      fewer than the chain's. */
  ghost function WantedRules(d: Draw, depth: nat): nat {
    var low := if depth < 3 then 3 else depth;
    var most := if depth <= 2 then 4 else 8;
    var high := if most < depth then depth else most;
    low + d.ruleCount % (high - low + 1)
  }

  /** The rules past the chain are the usable draws before draw `used`, each once and in the order
      in which they were drawn first. */
  ghost predicate RulesDrawn(rules: seq<Rule>, places: seq<nat>, used: nat, d: Draw, depth: nat)
    requires Drawable(d, depth)
  {
    && used <= 300 && |rules| == depth + |places|
    && (forall j | 0 <= j < |places| ::
         places[j] < used && UsableRule(d, depth, places[j]) && rules[depth + j] == DrawnRule(d, depth, places[j]))
    && (forall i, j {:trigger places[i], places[j]} | 0 <= i < j < |places| ::
         places[i] < places[j] && rules[depth + i] != rules[depth + j])
    && (forall t: nat {:trigger UsableRule(d, depth, t)} | t < used && UsableRule(d, depth, t) ::
         ListedBy(rules, places, t, d, depth))
  }

  /** The rule of draw t is listed, from this draw or an earlier one. */
  ghost predicate ListedBy(rules: seq<Rule>, places: seq<nat>, t: nat, d: Draw, depth: nat)
    requires Drawable(d, depth) && t < 300
  {
    exists j :: 0 <= j < |places| && depth + j < |rules| && places[j] <= t
      && rules[depth + j] == DrawnRule(d, depth, t)
  }

  ghost function UsableRules(d: Draw, depth: nat, n: nat): set<Rule>
    requires Drawable(d, depth) && n <= 300
  {
    set t: nat | t < n && UsableRule(d, depth, t) :: DrawnRule(d, depth, t)
  }

  /** The loop stops with enough rules, or with every draw used up. */
  ghost predicate RulesDone(rules: seq<Rule>, used: nat, d: Draw, depth: nat) {
    |rules| <= WantedRules(d, depth) && (|rules| == WantedRules(d, depth) || used == 300)
  }

  /** How many rules are built, counted from the draws. */
  ghost function RulesBuilt(d: Draw, depth: nat): nat
    requires Drawable(d, depth)
  {
    var all := depth + |UsableRules(d, depth, 300)|;
    if all < WantedRules(d, depth) then all else WantedRules(d, depth)
  }

  ghost function Listed(rules: seq<Rule>, depth: nat): set<Rule> {
    set k | depth <= k < |rules| :: rules[k]
  }

  lemma {:induction false} ListedMore(rules: seq<Rule>, depth: nat, last: Rule)
    requires depth <= |rules| && forall k | depth <= k < |rules| :: rules[k] != last
    ensures |Listed(rules + [last], depth)| == |Listed(rules, depth)| + 1
  {
    var all := rules + [last];
    assert all[|rules|] == last && forall k | depth <= k < |rules| :: all[k] == rules[k];
    assert Listed(all, depth) == Listed(rules, depth) + {last};
  }

  lemma {:induction false} ListedCount(rules: seq<Rule>, depth: nat, n: nat)
    requires depth + n == |rules|
    requires forall i, j {:trigger rules[i], rules[j]} | depth <= i < j < |rules| :: rules[i] != rules[j]
    ensures |Listed(rules, depth)| == n
    decreases n
  {
    if n > 0 {
      var front, last := rules[..|rules| - 1], rules[|rules| - 1];
      ListedCount(front, depth, n - 1);
      assert forall k | depth <= k < |front| :: rules[k] == front[k] && front[k] != last;
      ListedMore(front, depth, last);
      assert rules == front + [last];
    } else {
      assert Listed(rules, depth) == {};
    }
  }

  lemma {:induction false} DrawnApart(rules: seq<Rule>, places: seq<nat>, used: nat, d: Draw, depth: nat)
    requires Drawable(d, depth) && RulesDrawn(rules, places, used, d, depth)
    ensures forall i, j {:trigger rules[i], rules[j]} | depth <= i < j < |rules| :: rules[i] != rules[j]
    ensures Listed(rules, depth) <= UsableRules(d, depth, 300)
    ensures used == 300 ==> Listed(rules, depth) == UsableRules(d, depth, 300)
  {
    forall i, j {:trigger rules[i], rules[j]} | depth <= i < j < |rules|
      ensures rules[i] != rules[j]
    {
      assert places[i - depth] < places[j - depth];
      assert rules[depth + (i - depth)] != rules[depth + (j - depth)];
    }
    forall k | depth <= k < |rules|
      ensures rules[k] in UsableRules(d, depth, 300)
    {
      assert rules[depth + (k - depth)] == DrawnRule(d, depth, places[k - depth]);
    }
  }

  /** Their number follows from the draws. */
  lemma {:induction false} RulesCounted(rules: seq<Rule>, places: seq<nat>, used: nat, d: Draw, depth: nat)
    requires Drawable(d, depth) && RulesDrawn(rules, places, used, d, depth) && RulesDone(rules, used, d, depth)
    ensures |rules| == RulesBuilt(d, depth)
  {
    DrawnApart(rules, places, used, d, depth);
    ListedCount(rules, depth, |places|);
    var listed, usable := Listed(rules, depth), UsableRules(d, depth, 300);
    assert |usable| == |listed| + |usable - listed|;
  }

  // ----- given and distractor facts -----

  /** The helpers of the first n chain rules that have one, told of this person. */
  ghost function HelpersUpTo(person: string, d: Draw, depth: nat, n: nat): set<Atom>
    requires Sized(d, depth) && n <= depth
  {
    set i: nat | i < n && d.helped[i] :: Atom(person, d.working[depth + 1 + i])
  }

  lemma {:induction false} HelpersUpToNext(person: string, d: Draw, depth: nat, n: nat, next: nat)
    requires Sized(d, depth) && n < depth && next == n + 1
    ensures HelpersUpTo(person, d, depth, next)
      == HelpersUpTo(person, d, depth, n) + if d.helped[n] then {Atom(person, d.working[depth + 1 + n])} else {}
  {
  }

  ghost function HelpersOf(person: string, d: Draw, depth: nat): set<Atom>
    requires Sized(d, depth)
  {
    HelpersUpTo(person, d, depth, depth)
  }

  /** The facts before the distractors: the helpers; for YES the chain's start, for NO an unrelated
      fact and, by a draw, another person who is given the start and the helpers. */
  ghost function GivenFacts(d: Draw, depth: nat, yes: bool): set<Atom>
    requires Drawable(d, depth)
  {
    var own := WithHelpers(d.person, if yes then 0 else 2 * depth + 1, d, depth);
    if !yes && d.mirror then own + WithHelpers(d.others[0], 0, d, depth) else own
  }

  /** One fact about a person, by the place of its predicate, and all the helpers. */
  ghost function WithHelpers(person: string, place: nat, d: Draw, depth: nat): set<Atom>
    requires Sized(d, depth) && place <= 2 * depth + 1
  {
    HelpersOf(person, d, depth) + {Atom(person, d.working[place])}
  }

  /** The fact of the t-th draw: the queried person gets no chain or helper predicate. */
  ghost function DrawnFact(d: Draw, depth: nat, t: nat): Atom
    requires Drawable(d, depth) && t < 300
  {
    var draw := d.factDraws[t];
    var place := draw.who % (|d.others| + 1);
    if place == 0 then Atom(d.person, d.working[2 * depth + 1 + draw.pred % 11])
    else Atom(d.others[place - 1], d.working[draw.pred % (2 * depth + 12)])
  }

  ghost function DrawnFacts(d: Draw, depth: nat, n: nat): set<Atom>
    requires Drawable(d, depth) && n <= 300
  {
    set t: nat | t < n :: DrawnFact(d, depth, t)
  }

  /** How many facts are wanted: four to six up to depth 2, four to ten beyond, and never fewer
      than are given as long as the bound allows. */
  ghost function WantedFacts(given: nat, d: Draw, depth: nat): nat {
    var high := if depth <= 2 then 6 else 10;
    var floor := if given < 4 then 4 else given;
    var low := if high < floor then high else floor;
    low + d.factCount % (high - low + 1)
  }

  /** The given facts and the first `used` drawn ones: no more draws than it takes, and all of them
      when they do not suffice. */
  ghost predicate FactsDrawn(facts: set<Atom>, given: set<Atom>, used: nat, d: Draw, depth: nat)
    requires Drawable(d, depth)
  {
    && used <= 300 && facts == given + DrawnFacts(d, depth, used)
    && (used > 0 ==> |given + DrawnFacts(d, depth, used - 1)| < WantedFacts(|given|, d, depth))
    && (used == 300 || |facts| >= WantedFacts(|given|, d, depth))
  }

  /** How many of the first n chain rules have a helper. */
  ghost function Helped(d: Draw, n: nat): nat
    requires n <= |d.helped|
  {
    if n == 0 then 0 else Helped(d, n - 1) + if d.helped[n - 1] then 1 else 0
  }

  lemma {:induction false} NewHelper(person: string, d: Draw, depth: nat, n: nat)
    requires Drawable(d, depth) && n < depth
    ensures Atom(person, d.working[depth + 1 + n]) !in HelpersUpTo(person, d, depth, n)
  {
    var place, helpers := depth + 1 + n, HelpersUpTo(person, d, depth, n);
    forall a | a in helpers
      ensures a.pred != d.working[place]
    {
      var i: nat :| i < n && d.helped[i] && a == Atom(person, d.working[depth + 1 + i]);
      assert depth + 1 + i < place;
    }
  }

  lemma {:induction false} HelpersMore(person: string, d: Draw, depth: nat, n: nat, next: nat)
    requires Drawable(d, depth) && n < depth && next == n + 1
    ensures |HelpersUpTo(person, d, depth, next)|
         == |HelpersUpTo(person, d, depth, n)| + if d.helped[n] then 1 else 0
  {
    HelpersUpToNext(person, d, depth, n, next);
    NewHelper(person, d, depth, n);
  }

  lemma {:induction false} HelpersCounted(person: string, d: Draw, depth: nat, n: nat)
    requires Drawable(d, depth) && n <= depth
    ensures |HelpersUpTo(person, d, depth, n)| == Helped(d, n)
  {
    if n > 0 {
      HelpersCounted(person, d, depth, n - 1);
      HelpersMore(person, d, depth, n - 1, n);
    }
  }

  /** One fact and the helpers; twice that with a second person. */
  ghost function NumberGiven(d: Draw, depth: nat, yes: bool): nat
    requires Drawable(d, depth)
  {
    (1 + Helped(d, depth)) * if !yes && d.mirror then 2 else 1
  }

  lemma {:induction false} OneFactAndHelpers(person: string, d: Draw, depth: nat, place: nat)
    requires Drawable(d, depth) && (place == 0 || place == 2 * depth + 1)
    ensures |WithHelpers(person, place, d, depth)| == 1 + Helped(d, depth)
  {
    HelpersCounted(person, d, depth, depth);
    assert Atom(person, d.working[place]) !in HelpersOf(person, d, depth);
  }

  lemma {:induction false} TwoPeople(d: Draw, depth: nat, place: nat)
    requires Drawable(d, depth) && place <= 2 * depth + 1
    ensures |WithHelpers(d.person, place, d, depth) + WithHelpers(d.others[0], 0, d, depth)|
         == |WithHelpers(d.person, place, d, depth)| + |WithHelpers(d.others[0], 0, d, depth)|
  {
    OfPerson(d.person, place, d, depth);
    OfPerson(d.others[0], 0, d, depth);
    assert d.others[0] in d.others;
  }

  lemma {:induction false} OfPerson(person: string, place: nat, d: Draw, depth: nat)
    requires Sized(d, depth) && place <= 2 * depth + 1
    ensures forall a | a in WithHelpers(person, place, d, depth) :: a.person == person
  {
  }

  lemma {:induction false} GivenCounted(d: Draw, depth: nat, yes: bool)
    requires Drawable(d, depth)
    ensures |GivenFacts(d, depth, yes)| == NumberGiven(d, depth, yes)
  {
    var place := if yes then 0 else 2 * depth + 1;
    OneFactAndHelpers(d.person, d, depth, place);
    if !yes && d.mirror {
      OneFactAndHelpers(d.others[0], d, depth, 0);
      TwoPeople(d, depth, place);
    }
  }

  /** The facts of the first n draws that are not given. */
  ghost function NewFacts(d: Draw, depth: nat, yes: bool, n: nat): set<Atom>
    requires Drawable(d, depth) && n <= 300
  {
    set t: nat | t < n && DrawnFact(d, depth, t) !in GivenFacts(d, depth, yes) :: DrawnFact(d, depth, t)
  }

  lemma {:induction false} AllCounted(d: Draw, depth: nat, yes: bool, given: set<Atom>)
    requires Drawable(d, depth) && given == GivenFacts(d, depth, yes)
    ensures |given + DrawnFacts(d, depth, 300)| == |given| + |NewFacts(d, depth, yes, 300)|
  {
    assert given + DrawnFacts(d, depth, 300) == given + NewFacts(d, depth, yes, 300);
    assert given !! NewFacts(d, depth, yes, 300);
  }

  /** How many facts are told, counted from the draws. */
  ghost function FactsBuilt(d: Draw, depth: nat, yes: bool): nat
    requires Drawable(d, depth)
  {
    var given := NumberGiven(d, depth, yes);
    var all, wanted := given + |NewFacts(d, depth, yes, 300)|, WantedFacts(given, d, depth);
    if given >= wanted then given else if all < wanted then all else wanted
  }

  lemma {:induction false} MoreFacts(d: Draw, depth: nat, n: nat)
    requires Drawable(d, depth) && n < 300
    ensures DrawnFacts(d, depth, n + 1) == DrawnFacts(d, depth, n) + {DrawnFact(d, depth, n)}
  {
  }

  lemma {:induction false} SubsetCount(a: set<Atom>, b: set<Atom>)
    requires a <= b
    ensures |a| <= |b|
  {
    assert |b| == |a| + |b - a|;
  }

  lemma {:induction false} OneFactMore(given: set<Atom>, d: Draw, depth: nat, used: nat)
    requires Drawable(d, depth) && 0 < used <= 300
    ensures |given| <= |given + DrawnFacts(d, depth, used - 1)|
    ensures |given + DrawnFacts(d, depth, used)| <= |given + DrawnFacts(d, depth, used - 1)| + 1
  {
    var before := given + DrawnFacts(d, depth, used - 1);
    MoreFacts(d, depth, used - 1);
    assert given + DrawnFacts(d, depth, used) == before + {DrawnFact(d, depth, used - 1)};
    SubsetCount(given, before);
  }

  lemma {:induction false} DrawnFactsGrow(given: set<Atom>, d: Draw, depth: nat, used: nat)
    requires Drawable(d, depth) && used <= 300
    ensures |given + DrawnFacts(d, depth, used)| <= |given + DrawnFacts(d, depth, 300)|
    ensures given + DrawnFacts(d, depth, 0) == given
  {
    SubsetCount(given + DrawnFacts(d, depth, used), given + DrawnFacts(d, depth, 300));
  }

  /** Their number follows from the draws. */
  lemma {:induction false} FactsCounted(facts: set<Atom>, given: set<Atom>, used: nat, d: Draw, depth: nat, yes: bool)
    requires Drawable(d, depth) && given == GivenFacts(d, depth, yes) && FactsDrawn(facts, given, used, d, depth)
    ensures |facts| == FactsBuilt(d, depth, yes)
  {
    GivenCounted(d, depth, yes);
    AllCounted(d, depth, yes, given);
    DrawnFactsGrow(given, d, depth, used);
    if used > 0 {
      OneFactMore(given, d, depth, used);
    }
  }
}
