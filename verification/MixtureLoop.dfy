/** The planning loop over its record streams: what is planned, in which order, and the reported
    rounding, block and curriculum counts (relational_build.py, the loop of
    _build_relational_corpus_plan). */
module MixtureLoop {
  import opened Wrappers
  import opened MixturePlan
  import G = GraphSchedule

  datatype Band = One | Two | Four

  datatype Phase = Early | Middle | Late

  function Allowed(p: Phase): seq<Band> {
    match p
    case Early => [One]
    case Middle => [One, Two]
    case Late => [One, Two, Four]
  }

  /** A fifth and a half of the corpus end the first two phases. */
  function PhaseAt(planned: nat, total: nat): Phase {
    if 5 * planned < total then Early else if 2 * planned < total then Middle else Late
  }

  // ----- record streams -----

  datatype Stream = Aliases | BedText | GraphRecords | Reason(band: Band)

  datatype Entry = Entry(stream: Stream, index: nat)

  function ComponentOf(s: Stream): Component {
    if s == BedText then Bed else if s.Reason? then Reasoning else Graph
  }

  /** Lengths in tokens; the graph stream runs through its pass over and over. */
  datatype Sources = Sources(worlds: seq<G.World>, pass: G.Pass, alias: seq<nat>, bed: seq<nat>,
    graphLength: G.Rendered -> nat, reasoning: (Band, nat) -> nat)

  predicate Available(src: Sources, e: Entry) {
    match e.stream
    case Aliases => e.index < |src.alias|
    case BedText => e.index < |src.bed|
    case GraphRecords => if src.pass.end == G.Again then src.pass.records != [] else e.index < |src.pass.records|
    case Reason(_) => true
  }

  function GraphAt(src: Sources, k: nat): G.Rendered
    requires src.pass.records != []
  {
    src.pass.records[k % |src.pass.records|]
  }

  function Length(src: Sources, e: Entry): nat
    requires Available(src, e)
  {
    match e.stream
    case Aliases => src.alias[e.index]
    case BedText => src.bed[e.index]
    case GraphRecords => src.graphLength(GraphAt(src, e.index))
    case Reason(band) => src.reasoning(band, e.index)
  }

  /** Every record ends with its end-of-text token. */
  ghost predicate NoneEmpty(src: Sources) {
    && (forall i | 0 <= i < |src.alias| :: src.alias[i] > 0) && (forall i | 0 <= i < |src.bed| :: src.bed[i] > 0)
    && (forall r :: src.graphLength(r) > 0) && forall band: Band, i: nat :: src.reasoning(band, i) > 0
  }

  ghost predicate Usable(src: Sources) {
    NoneEmpty(src) && G.InBlocks(src.worlds, src.pass.records) && (src.pass.end == G.Again ==> src.pass.records != [])
  }

  ghost function SumTo(s: seq<nat>, n: nat): nat
    requires n <= |s|
  {
    if n == 0 then 0 else SumTo(s, n - 1) + s[n - 1]
  }

  ghost function MaxTo(s: seq<nat>, n: nat): nat
    requires n <= |s|
  {
    if n == 0 then 0 else Max(MaxTo(s, n - 1), s[n - 1])
  }

  // ----- what a plan contains -----

  ghost function CountOf(plan: seq<Entry>, s: Stream): nat {
    if plan == [] then 0 else CountOf(plan[..|plan| - 1], s) + if plan[|plan| - 1].stream == s then 1 else 0
  }

  ghost predicate AllAvailable(src: Sources, plan: seq<Entry>) {
    forall i | 0 <= i < |plan| :: Available(src, plan[i])
  }

  ghost function TokensOf(src: Sources, plan: seq<Entry>, c: Component): nat
    requires AllAvailable(src, plan)
  {
    if plan == [] then 0
    else TokensOf(src, plan[..|plan| - 1], c) + if ComponentOf(plan[|plan| - 1].stream) == c
      then Length(src, plan[|plan| - 1]) else 0
  }

  ghost function LongestOf(src: Sources, plan: seq<Entry>, c: Component): nat
    requires AllAvailable(src, plan)
  {
    if plan == [] then 0
    else Max(LongestOf(src, plan[..|plan| - 1], c), if ComponentOf(plan[|plan| - 1].stream) == c
      then Length(src, plan[|plan| - 1]) else 0)
  }

  ghost function AllTokens(src: Sources, plan: seq<Entry>): nat
    requires AllAvailable(src, plan)
  {
    TokensOf(src, plan, Bed) + TokensOf(src, plan, Graph) + TokensOf(src, plan, Reasoning)
  }

  /** Reasoning records planned while the plan was in a phase. */
  ghost function InPhase(src: Sources, plan: seq<Entry>, p: Phase, total: nat): nat
    requires AllAvailable(src, plan)
  {
    if plan == [] then 0
    else
      var earlier := plan[..|plan| - 1];
      InPhase(src, earlier, p, total) + if plan[|plan| - 1].stream.Reason?
        && PhaseAt(AllTokens(src, earlier), total) == p then 1 else 0
  }

  /** The band of the n-th reasoning record of a phase. */
  ghost function OnTurn(p: Phase, n: nat): Band { Allowed(p)[G.Turn(n, |Allowed(p)|)] }

  /** The bands of a phase take turns. */
  ghost function NextBand(src: Sources, plan: seq<Entry>, total: nat): Band
    requires AllAvailable(src, plan)
  {
    var p := PhaseAt(AllTokens(src, plan), total);
    OnTurn(p, InPhase(src, plan, p, total))
  }

  /** Each stream's records are planned in order and without gaps, and every reasoning record
      has the band whose turn it is. */
  ghost predicate InOrder(src: Sources, plan: seq<Entry>, total: nat)
    requires AllAvailable(src, plan)
  {
    forall i | 0 <= i < |plan| :: Next(src, plan[..i], plan[i], total)
  }

  ghost predicate Next(src: Sources, earlier: seq<Entry>, e: Entry, total: nat)
    requires AllAvailable(src, earlier)
  {
    e.index == CountOf(earlier, e.stream) && (e.stream.Reason? ==> e.stream.band == NextBand(src, earlier, total))
  }

  // ----- counters -----

  datatype State = State(plan: seq<Entry>, tokens: Tokens, at: map<Stream, nat>, kinds: map<G.Kind, nat>,
    curriculum: map<(Phase, Band), nat>)

  ghost predicate AllStreams<T>(m: map<Stream, T>) { forall s: Stream :: s in m }

  ghost predicate AllKinds<T>(m: map<G.Kind, T>) { forall k: G.Kind :: k in m }

  ghost predicate AllBands<T>(m: map<(Phase, Band), T>) { forall p: Phase, b: Band :: (p, b) in m }

  ghost predicate Filled(s: State) {
    Complete(s.tokens.emitted) && Complete(s.tokens.longest) && AllStreams(s.at) && AllKinds(s.kinds)
      && AllBands(s.curriculum)
  }

  function Planned(t: Tokens): nat
    requires Complete(t.emitted)
  {
    t.emitted[Bed] + t.emitted[Graph] + t.emitted[Reasoning]
  }

  ghost function PhaseCount(curriculum: map<(Phase, Band), nat>, p: Phase): nat
    requires AllBands(curriculum)
  {
    curriculum[(p, One)] + curriculum[(p, Two)] + curriculum[(p, Four)]
  }

  /** How often band b had its turn in the first n reasoning records of a phase. */
  ghost function Turns(p: Phase, n: nat, b: Band): nat {
    if n == 0 then 0 else Turns(p, n - 1, b) + if OnTurn(p, n - 1) == b then 1 else 0
  }

  ghost predicate Balanced(curriculum: map<(Phase, Band), nat>, p: Phase)
    requires AllBands(curriculum)
  {
    forall b: Band :: curriculum[(p, b)] == Turns(p, PhaseCount(curriculum, p), b)
  }

  /** Records of each kind among the first n of the graph stream. */
  ghost function KindsTo(n: nat, k: G.Kind): nat {
    match k
    case Peripheral => n / 10 * 7 + (if n % 10 < 7 then n % 10 else 7)
    case Central => n / 10 * 2 + (if n % 10 < 7 then 0 else n % 10 - 7)
    case Rule => n / 10
  }

  ghost predicate Counted(src: Sources, s: State, total: nat)
    requires Filled(s) && AllAvailable(src, s.plan)
  {
    && (forall c: Component ::
         s.tokens.emitted[c] == TokensOf(src, s.plan, c) && s.tokens.longest[c] == LongestOf(src, s.plan, c))
    && (forall st: Stream :: s.at[st] == CountOf(s.plan, st))
    && (forall k: G.Kind :: s.kinds[k] == KindsTo(s.at[GraphRecords], k))
    && forall p: Phase :: Balanced(s.curriculum, p) && PhaseCount(s.curriculum, p) == InPhase(src, s.plan, p, total)
  }

  ghost predicate Sound(src: Sources, s: State, total: nat)
    ensures Sound(src, s, total) ==> Filled(s)
  {
    Filled(s) && AllAvailable(src, s.plan) && InOrder(src, s.plan, total) && Counted(src, s, total)
  }

  function Start(): State {
    State([], Tokens(map[Bed := 0, Graph := 0, Reasoning := 0], map[Bed := 0, Graph := 0, Reasoning := 0]),
          map[Aliases := 0, BedText := 0, GraphRecords := 0, Reason(One) := 0, Reason(Two) := 0, Reason(Four) := 0],
          map[G.Peripheral := 0, G.Central := 0, G.Rule := 0], NoBands())
  }

  function NoBands(): map<(Phase, Band), nat> {
    map[(Early, One) := 0, (Early, Two) := 0, (Early, Four) := 0, (Middle, One) := 0, (Middle, Two) := 0,
      (Middle, Four) := 0,
        (Late, One) := 0, (Late, Two) := 0, (Late, Four) := 0]
  }

  lemma {:induction false} StartIsSound(src: Sources, total: nat)
    ensures Sound(src, Start(), total)
  {
    var s := Start();
    forall c: Component
      ensures c in s.tokens.emitted && s.tokens.emitted[c] == 0
    {
      match c { case Bed => case Graph => case Reasoning => }
    }
    forall st: Stream
      ensures st in s.at && s.at[st] == 0
    {
      if st.Reason? {
        match st.band { case One => case Two => case Four => }
      }
    }
    forall k: G.Kind
      ensures k in s.kinds && s.kinds[k] == 0
    {
      match k { case Peripheral => case Central => case Rule => }
    }
    forall p: Phase, b: Band
      ensures (p, b) in NoBands() && NoBands()[(p, b)] == 0
    {
      match p { case Early => case Middle => case Late => }
      match b { case One => case Two => case Four => }
    }
    forall p: Phase
      ensures Balanced(NoBands(), p)
    {
      assert PhaseCount(NoBands(), p) == 0;
    }
  }

  // ----- one more record -----

  lemma {:induction false} AppendUnfolds(src: Sources, plan: seq<Entry>, e: Entry, total: nat)
    requires AllAvailable(src, plan) && Available(src, e)
    ensures AllAvailable(src, plan + [e])
    ensures forall s: Stream :: CountOf(plan + [e], s) == CountOf(plan, s) + if e.stream == s then 1 else 0
    ensures forall c: Component ::
      TokensOf(src, plan + [e], c) == TokensOf(src, plan, c) + if ComponentOf(e.stream) == c then Length(src, e) else 0
    ensures forall c: Component ::
      LongestOf(src, plan + [e], c)
      == Max(LongestOf(src, plan, c), if ComponentOf(e.stream) == c then Length(src, e) else 0)
    ensures forall p: Phase ::
      InPhase(src, plan + [e], p, total) == InPhase(src, plan, p, total)
      + if e.stream.Reason? && PhaseAt(AllTokens(src, plan), total) == p then 1 else 0
  {
    assert (plan + [e])[..|plan + [e]| - 1] == plan;
  }

  lemma {:induction false} AppendInOrder(src: Sources, plan: seq<Entry>, e: Entry, total: nat)
    requires AllAvailable(src, plan) && Available(src, e) && InOrder(src, plan, total) && Next(src, plan, e, total)
    ensures AllAvailable(src, plan + [e]) && InOrder(src, plan + [e], total)
  {
    var all := plan + [e];
    forall i | 0 <= i < |all|
      ensures Next(src, all[..i], all[i], total)
    {
      assert all[..i] == plan[..i];
      if i == |plan| {
        assert plan[..i] == plan;
      }
    }
  }

  lemma {:induction false} WholeRounds(k: nat, n: nat)
    requires n > 0 && n % 10 == 0
    ensures (k % n) % 10 == k % 10
  {
    var q, m := k / n, n / 10;
    assert k == q * n + k % n && n == 10 * m;
    assert q * n == 10 * (q * m);
  }

  /** However often the pass is repeated, the place in its ten gives the kind. */
  lemma {:induction false} KindAt(src: Sources, k: nat)
    requires G.InBlocks(src.worlds, src.pass.records) && src.pass.records != []
    ensures G.KindOf(src.worlds, GraphAt(src, k)) == Some(G.SlotKind(k))
  {
    var n := |src.pass.records|;
    WholeRounds(k, n);
    assert G.KindOf(src.worlds, src.pass.records[k % n]) == Some(G.SlotKind(k % n));
  }

  lemma {:induction false} KindsStep(n: nat, k: G.Kind)
    ensures KindsTo(n + 1, k) == KindsTo(n, k) + if G.SlotKind(n) == k then 1 else 0
  {
    if n % 10 == 9 {
      assert (n + 1) / 10 == n / 10 + 1 && (n + 1) % 10 == 0;
    } else {
      assert (n + 1) / 10 == n / 10 && (n + 1) % 10 == n % 10 + 1;
    }
  }

  /** Whole rounds, and the turns of a round that has begun. */
  lemma {:induction false} TurnsAre(p: Phase, n: nat) returns (rounds: nat)
    ensures forall i | 0 <= i < |Allowed(p)| ::
      Turns(p, n, Allowed(p)[i]) == rounds + if i < G.Turn(n, |Allowed(p)|) then 1 else 0
    ensures forall b: Band | b !in Allowed(p) :: Turns(p, n, b) == 0
  {
    rounds := 0;
    if n > 0 {
      rounds := TurnsAre(p, n - 1);
      var k := |Allowed(p)|;
      assert forall i | 0 <= i < k :: OnTurn(p, n - 1) == Allowed(p)[i] <==> i == G.Turn(n - 1, k);
      if G.Turn(n, k) == 0 {
        rounds := rounds + 1;
      }
    }
  }

  lemma {:induction false} TurnKeepsBalance(before: map<(Phase, Band), nat>, p: Phase, band: Band,
                                            after: map<(Phase, Band), nat>)
    requires AllBands(before) && (forall q: Phase :: Balanced(before, q)) && band == OnTurn(p, PhaseCount(before, p))
    requires after == before[(p, band) := before[(p, band)] + 1]
    ensures AllBands(after) && forall q: Phase ::
      Balanced(after, q) && PhaseCount(after, q) == PhaseCount(before, q) + if q == p then 1 else 0
  {
    forall q: Phase
      ensures Balanced(after, q) && PhaseCount(after, q) == PhaseCount(before, q) + if q == p then 1 else 0
    {
      assert Balanced(before, q);
      assert forall b: Band | q != p || b != band :: after[(q, b)] == before[(q, b)];
    }
  }

  /** min over the allowed bands by count, then by place: the band whose turn it is. */
  method ChooseBand(curriculum: map<(Phase, Band), nat>, p: Phase) returns (band: Band)
    requires AllBands(curriculum) && Balanced(curriculum, p)
    ensures band == OnTurn(p, PhaseCount(curriculum, p))
  {
    var allowed := Allowed(p);
    var best := 0;
    for i := 1 to |allowed|
      invariant best < i
      invariant forall j | 0 <= j < i :: curriculum[(p, allowed[best])] <= curriculum[(p, allowed[j])]
      invariant forall j | 0 <= j < best :: curriculum[(p, allowed[best])] < curriculum[(p, allowed[j])]
    {
      if curriculum[(p, allowed[i])] < curriculum[(p, allowed[best])] {
        best := i;
      }
    }
    ghost var n := PhaseCount(curriculum, p);
    ghost var rounds := TurnsAre(p, n);
    ghost var turn := G.Turn(n, |allowed|);
    assert curriculum[(p, allowed[turn])] == rounds && curriculum[(p, allowed[best])] <= curriculum[(p, allowed[turn])];
    assert curriculum[(p, allowed[best])] == Turns(p, n, allowed[best]);
    band := allowed[best];
  }

  /** One record's tokens go to its component. */
  ghost predicate OneMore(before: Tokens, after: Tokens, c: Component, length: nat)
    requires Complete(before.emitted) && Complete(before.longest)
  {
    after.emitted == before.emitted[c := before.emitted[c] + length]
      && after.longest == before.longest[c := Max(before.longest[c], length)]
  }

  lemma {:induction false} TokensAgree(src: Sources, before: State, e: Entry, after: Tokens, total: nat)
    requires Sound(src, before, total) && Available(src, e)
      && OneMore(before.tokens, after, ComponentOf(e.stream), Length(src, e))
    ensures AllAvailable(src, before.plan + [e])
    ensures forall c: Component ::
      after.emitted[c] == TokensOf(src, before.plan + [e], c)
      && after.longest[c] == LongestOf(src, before.plan + [e], c)
  {
    AppendUnfolds(src, before.plan, e, total);
    assert forall c: Component | c != ComponentOf(e.stream) ::
      after.emitted[c] == before.tokens.emitted[c] && after.longest[c] == before.tokens.longest[c];
  }

  lemma {:induction false} CurriculumAgrees(src: Sources, before: State, e: Entry, after: map<(Phase, Band), nat>,
                                            total: nat)
    requires Sound(src, before, total) && Available(src, e) && Next(src, before.plan, e, total)
    requires var p := PhaseAt(Planned(before.tokens), total);
      after == if e.stream.Reason?
        then before.curriculum[(p, e.stream.band) := before.curriculum[(p, e.stream.band)] + 1] else before.curriculum
    ensures AllBands(after) && AllAvailable(src, before.plan + [e])
    ensures forall q: Phase :: Balanced(after, q) && PhaseCount(after, q) == InPhase(src, before.plan + [e], q, total)
  {
    AppendUnfolds(src, before.plan, e, total);
    var p := PhaseAt(Planned(before.tokens), total);
    if e.stream.Reason? {
      TurnKeepsBalance(before.curriculum, p, e.stream.band, after);
    }
    forall q: Phase
      ensures Balanced(after, q) && PhaseCount(after, q) == InPhase(src, before.plan + [e], q, total)
    {
      assert Balanced(before.curriculum, q) && PhaseCount(before.curriculum, q) == InPhase(src, before.plan, q, total);
    }
  }

  function KindAdded(src: Sources, kinds: map<G.Kind, nat>, e: Entry): map<G.Kind, nat>
    requires Usable(src) && Available(src, e) && AllKinds(kinds)
  {
    if e.stream != GraphRecords then kinds
    else
      KindAt(src, e.index);
      var kind := G.KindOf(src.worlds, GraphAt(src, e.index)).value;
      kinds[kind := kinds[kind] + 1]
  }

  lemma {:induction false} KindsAgree(src: Sources, before: State, e: Entry, total: nat)
    requires Usable(src) && Sound(src, before, total) && Available(src, e) && Next(src, before.plan, e, total)
    ensures var kinds := KindAdded(src, before.kinds, e);
      AllKinds(kinds) && forall k: G.Kind :: kinds[k] == KindsTo(CountOf(before.plan + [e], GraphRecords), k)
  {
    AppendUnfolds(src, before.plan, e, total);
    if e.stream == GraphRecords {
      KindAt(src, e.index);
      assert e.index == before.at[GraphRecords];
      forall k: G.Kind
        ensures KindAdded(src, before.kinds, e)[k] == KindsTo(e.index + 1, k)
      {
        KindsStep(e.index, k);
      }
    }
  }

  lemma {:induction false} PlacesAgree(src: Sources, before: State, e: Entry, total: nat)
    requires Sound(src, before, total) && Available(src, e)
    ensures var at := before.at[e.stream := before.at[e.stream] + 1];
      AllStreams(at) && forall st: Stream :: at[st] == CountOf(before.plan + [e], st)
  {
    AppendUnfolds(src, before.plan, e, total);
  }

  ghost predicate IsNext(src: Sources, s: State, e: Entry, total: nat) {
    AllAvailable(src, s.plan) && Next(src, s.plan, e, total)
  }

  /** What the loop body leaves after a record. */
  ghost predicate Added(src: Sources, s: State, e: Entry, total: nat, after: State)
    requires Usable(src) && Filled(s) && Available(src, e)
  {
    && after.plan == s.plan + [e] && OneMore(s.tokens, after.tokens, ComponentOf(e.stream), Length(src, e))
    && after.at == s.at[e.stream := s.at[e.stream] + 1] && after.kinds == KindAdded(src, s.kinds, e)
    && var p := PhaseAt(Planned(s.tokens), total);
    after.curriculum == if e.stream.Reason?
      then s.curriculum[(p, e.stream.band) := s.curriculum[(p, e.stream.band)] + 1] else s.curriculum
  }

  lemma {:induction false} AddKeeps(src: Sources, s: State, e: Entry, total: nat, after: State)
    requires Usable(src) && Sound(src, s, total) && Available(src, e) && IsNext(src, s, e, total)
    requires Added(src, s, e, total, after)
    ensures Sound(src, after, total)
  {
    TokensAgree(src, s, e, after.tokens, total);
    PlacesAgree(src, s, e, total);
    KindsAgree(src, s, e, total);
    CurriculumAgrees(src, s, e, after.curriculum, total);
    AppendInOrder(src, s.plan, e, total);
  }

  /** The index of a stream's next record. */
  function At(s: State, st: Stream): nat { if st in s.at then s.at[st] else 0 }

  ghost predicate Advanced(before: State, after: State, stream: Stream) {
    forall st: Stream :: At(after, st) == At(before, st) + if st == stream then 1 else 0
  }

  /** The end of the loop body: plans one record and counts it. */
  method AddRecord(src: Sources, s: State, e: Entry, total: nat) returns (after: State)
    requires Usable(src) && Sound(src, s, total) && Available(src, e) && IsNext(src, s, e, total)
    ensures Sound(src, after, total) && after.plan == s.plan + [e]
    ensures OneMore(s.tokens, after.tokens, ComponentOf(e.stream), Length(src, e)) && Advanced(s, after, e.stream)
  {
    var c, length := ComponentOf(e.stream), Length(src, e);
    var tokens :=
      Tokens(s.tokens.emitted[c := s.tokens.emitted[c] + length],
        s.tokens.longest[c := Max(s.tokens.longest[c], length)]);
    var curriculum := s.curriculum;
    if e.stream.Reason? {
      var p := PhaseAt(Planned(s.tokens), total);
      curriculum := curriculum[(p, e.stream.band) := curriculum[(p, e.stream.band)] + 1];
    }
    after := State(s.plan + [e], tokens, s.at[e.stream := s.at[e.stream] + 1], KindAdded(src, s.kinds, e), curriculum);
    AddKeeps(src, s, e, total, after);
  }

  // ----- one unit -----

  lemma {:induction false} OneMoreSteps(before: Tokens, after: Tokens, c: Component, length: nat)
    requires Complete(before.emitted) && Complete(before.longest) && OneMore(before, after, c, length) && length > 0
    ensures Complete(after.emitted) && Complete(after.longest) && (c != Graph ==> Stepped(before, after, c, length))
  {
  }

  /** i graph records, so far. */
  ghost predicate Part(before: Tokens, after: Tokens, added: nat, i: nat)
    requires Complete(before.emitted) && Complete(before.longest)
  {
    && Complete(after.emitted) && Complete(after.longest)
    && after.emitted == before.emitted[Graph := before.emitted[Graph] + added]
    && after.longest[Graph] >= before.longest[Graph]
    && (forall d: Component | d != Graph :: after.longest[d] == before.longest[d])
         && i <= added <= i * after.longest[Graph]
  }

  ghost predicate Partly(before: Tokens, after: Tokens, added: nat, i: nat)
    ensures Partly(before, after, added, i) ==> Complete(after.emitted) && Complete(after.longest)
  {
    Complete(before.emitted) && Complete(before.longest) && Part(before, after, added, i)
  }

  lemma {:induction false} NothingYet(t: Tokens)
    requires Complete(t.emitted) && Complete(t.longest)
    ensures Partly(t, t, 0, 0)
  {
    assert t.emitted == t.emitted[Graph := t.emitted[Graph] + 0];
  }

  lemma {:induction false} OneMorePart(before: Tokens, mid: Tokens, after: Tokens, added: nat, i: nat, length: nat,
                                       sum: nat, count: nat)
    requires Partly(before, mid, added, i) && OneMore(mid, after, Graph, length) && length > 0
    requires sum == added + length && count == i + 1
    ensures Partly(before, after, sum, count)
  {
    Widened(i, mid.longest[Graph], after.longest[Graph]);
    assert length <= after.longest[Graph];
  }

  lemma {:induction false} Widened(i: nat, was: nat, now: nat)
    requires was <= now
    ensures i * was + now <= (i + 1) * now
  {
  }

  lemma {:induction false} WholeUnit(before: Tokens, after: Tokens, added: nat)
    requires Partly(before, after, added, 10)
    ensures Complete(before.emitted) && Complete(before.longest) && Stepped(before, after, Graph, added)
  {
  }

  /** The streams' next records. */
  lemma {:induction false} PlaceIsNext(src: Sources, s: State, st: Stream, total: nat)
    requires Sound(src, s, total)
      && (st.Reason? ==>
      st.band == OnTurn(PhaseAt(Planned(s.tokens), total), PhaseCount(s.curriculum, PhaseAt(Planned(s.tokens), total))))
    ensures IsNext(src, s, Entry(st, At(s, st)), total)
  {
  }

  lemma {:induction false} PhasesBalance(src: Sources, s: State, p: Phase, total: nat)
    requires Sound(src, s, total)
    ensures Balanced(s.curriculum, p)
  {
  }

  method TakeReasoning(src: Sources, s: State, total: nat) returns (after: State, added: nat)
    requires Usable(src) && Sound(src, s, total)
    ensures Sound(src, after, total) && Stepped(s.tokens, after.tokens, Reasoning, added)
    ensures At(after, GraphRecords) == At(s, GraphRecords) && At(after, BedText) == At(s, BedText)
  {
    var p := PhaseAt(Planned(s.tokens), total);
    PhasesBalance(src, s, p, total);
    var band := ChooseBand(s.curriculum, p);
    var e := Entry(Reason(band), At(s, Reason(band)));
    PlaceIsNext(src, s, Reason(band), total);
    added := Length(src, e);
    after := AddRecord(src, s, e, total);
    OneMoreSteps(s.tokens, after.tokens, Reasoning, added);
  }

  method TakeBed(src: Sources, s: State, total: nat) returns (after: State, added: nat)
    requires Usable(src) && Sound(src, s, total) && At(s, BedText) < |src.bed|
    ensures Sound(src, after, total) && Stepped(s.tokens, after.tokens, Bed, added)
    ensures added == src.bed[At(s, BedText)] && At(after, BedText) == At(s, BedText) + 1
      && At(after, GraphRecords) == At(s, GraphRecords)
  {
    var e := Entry(BedText, At(s, BedText));
    PlaceIsNext(src, s, BedText, total);
    added := Length(src, e);
    after := AddRecord(src, s, e, total);
    OneMoreSteps(s.tokens, after.tokens, Bed, added);
  }

  method NextGraph(src: Sources, s: State, total: nat) returns (ok: bool, after: State, length: nat)
    requires Usable(src) && Sound(src, s, total)
    ensures src.pass.end == G.Again ==> ok
    ensures !ok ==> after == s
    ensures ok ==> Sound(src, after, total) && length > 0 && OneMore(s.tokens, after.tokens, Graph, length)
    ensures ok ==> At(after, GraphRecords) == At(s, GraphRecords) + 1 && At(after, BedText) == At(s, BedText)
  {
    var e := Entry(GraphRecords, At(s, GraphRecords));
    if !Available(src, e) {
      return false, s, 0;
    }
    PlaceIsNext(src, s, GraphRecords, total);
    ok, length := true, Length(src, e);
    after := AddRecord(src, s, e, total);
  }

  /** i records of a graph unit are planned. */
  ghost predicate UnitStage(src: Sources, before: State, s: State, added: nat, i: nat, total: nat) {
    && Sound(src, s, total) && Partly(before.tokens, s.tokens, added, i)
    && At(s, GraphRecords) == At(before, GraphRecords) + i && At(s, BedText) == At(before, BedText)
  }

  lemma {:induction false} UnitBegins(src: Sources, s: State, total: nat)
    requires Sound(src, s, total)
    ensures UnitStage(src, s, s, 0, 0, total)
  {
    NothingYet(s.tokens);
  }

  lemma {:induction false} UnitDone(src: Sources, before: State, s: State, added: nat, total: nat)
    requires UnitStage(src, before, s, added, 10, total)
    ensures Sound(src, s, total) && Complete(before.tokens.emitted) && Complete(before.tokens.longest)
      && Stepped(before.tokens, s.tokens, Graph, added)
    ensures At(s, GraphRecords) == At(before, GraphRecords) + 10 && At(s, BedText) == At(before, BedText)
  {
    WholeUnit(before.tokens, s.tokens, added);
  }

  method NextInUnit(src: Sources, ghost before: State, s: State, added: nat, ghost i: nat, ghost count: nat, total: nat)
    returns (ok: bool, after: State, sum: nat)
    requires Usable(src) && UnitStage(src, before, s, added, i, total) && count == i + 1
    ensures src.pass.end == G.Again ==> ok
    ensures ok ==> UnitStage(src, before, after, sum, count, total)
  {
    var length;
    ok, after, length := NextGraph(src, s, total);
    sum := added + length;
    if ok {
      OneMorePart(before.tokens, s.tokens, after.tokens, added, i, length, sum, count);
    }
  }

  /** Ten graph records, unless the stream raises. */
  method TakeGraph(src: Sources, s: State, total: nat) returns (ok: bool, after: State, added: nat)
    requires Usable(src) && Sound(src, s, total)
    ensures src.pass.end == G.Again ==> ok
    ensures ok ==> Sound(src, after, total) && Stepped(s.tokens, after.tokens, Graph, added)
    ensures ok ==> At(after, GraphRecords) == At(s, GraphRecords) + 10 && At(after, BedText) == At(s, BedText)
  {
    ok, after, added := true, s, 0;
    UnitBegins(src, s, total);
    for i := 0 to 10
      invariant ok && UnitStage(src, s, after, added, i, total)
    {
      ghost var count := i + 1;
      var more, next, sum := NextInUnit(src, s, after, added, i, count, total);
      if !more {
        return false, after, added;
      }
      after, added := next, sum;
    }
    UnitDone(src, s, after, added, total);
  }

  // ----- the loop -----

  /** The tokens of the streams the loop has a say in stay in proportion; see MixturePlan. */
  ghost predicate InMixture(t: Tokens, targets: map<Component, real>, initial: map<Component, nat>) {
    Positive(targets) && Complete(t.emitted) && Complete(t.longest) && Complete(initial)
       && Proportional(t, targets, initial) && Bounded(t, targets, initial) && forall c: Component ::
            initial[c] <= t.emitted[c]
  }

  lemma {:induction false} ThreeComplete(x: nat, y: nat, z: nat)
    ensures Complete(map[Bed := x, Graph := y, Reasoning := z])
  {
    forall c: Component
      ensures c in map[Bed := x, Graph := y, Reasoning := z]
    {
      match c { case Bed => case Graph => case Reasoning => }
    }
  }

  /** What the alias records leave. */
  ghost function AfterAliases(alias: seq<nat>, n: nat): (t: Tokens)
    requires n <= |alias|
    ensures Complete(t.emitted) && Complete(t.longest)
  {
    ThreeComplete(0, SumTo(alias, n), 0);
    ThreeComplete(0, MaxTo(alias, n), 0);
    Tokens(map[Bed := 0, Graph := SumTo(alias, n), Reasoning := 0],
      map[Bed := 0, Graph := MaxTo(alias, n), Reasoning := 0])
  }

  lemma {:induction false} OneMoreAlias(alias: seq<nat>, i: nat, after: Tokens, count: nat)
    requires i < |alias| && count == i + 1 && OneMore(AfterAliases(alias, i), after, Graph, alias[i])
    ensures after == AfterAliases(alias, count)
  {
  }

  lemma {:induction false} InitialMixture(alias: seq<nat>, targets: map<Component, real>)
    requires Positive(targets)
    ensures InMixture(AfterAliases(alias, |alias|), targets, AfterAliases(alias, |alias|).emitted)
  {
    var t := AfterAliases(alias, |alias|);
    forall a: Component, b: Component
      ensures Ahead(a, b, t, targets, t.emitted)
    {
      ApartAtFirst(t.emitted[a], t.emitted[b], Slack(a, t, t.emitted), targets[a], targets[b]);
    }
  }

  lemma {:induction false} ApartAtFirst(ea: nat, eb: nat, slack: nat, x: real, y: real)
    requires ea <= slack && x > 0.0 && y > 0.0
    ensures Apart(ea, eb, slack, x, y)
  {
    ScaleUp(ea as real, slack as real, y);
    ScaleUp(0.0, eb as real, x);
  }

  lemma {:induction false} UnitKeepsMixture(before: Tokens, after: Tokens, chosen: Component, added: nat,
                                            targets: map<Component, real>, initial: map<Component, nat>)
    requires InMixture(before, targets, initial) && Stepped(before, after, chosen, added)
    requires Needs(chosen, before, targets) && forall c: Component | Needs(c, before, targets) ::
      !MoreBehind(c, chosen, before, targets)
    ensures InMixture(after, targets, initial) && Lacking(after, targets) < Lacking(before, targets)
  {
    StepKeeps(before, after, chosen, added, targets, initial);
    StepLacksLess(before, after, chosen, added, targets);
  }

  /** i alias records are planned, and nothing else. */
  ghost predicate AliasStage(src: Sources, s: State, i: nat, total: nat) {
    && Sound(src, s, total) && i <= |src.alias| && s.tokens == AfterAliases(src.alias, i)
    && At(s, Aliases) == i && At(s, GraphRecords) == 0 && At(s, BedText) == 0
  }

  lemma {:induction false} AliasPlanned(src: Sources, before: State, i: nat, after: State, count: nat, total: nat)
    requires AliasStage(src, before, i, total) && Sound(src, after, total) && i < |src.alias|
      && count == i + 1
    requires Filled(before) && OneMore(before.tokens, after.tokens, Graph, src.alias[i])
      && Advanced(before, after, Aliases)
    ensures AliasStage(src, after, count, total)
  {
    OneMoreAlias(src.alias, i, after.tokens, count);
  }

  method PlanAlias(src: Sources, s: State, i: nat, ghost count: nat, total: nat) returns (after: State)
    requires Usable(src) && AliasStage(src, s, i, total) && i < |src.alias| && count == i + 1
    ensures AliasStage(src, after, count, total)
  {
    PlaceIsNext(src, s, Aliases, total);
    after := AddRecord(src, s, Entry(Aliases, i), total);
    AliasPlanned(src, s, i, after, count, total);
  }

  lemma {:induction false} NoAliasYet(src: Sources, total: nat)
    ensures AliasStage(src, Start(), 0, total)
  {
    StartIsSound(src, total);
  }

  method PlanAliases(src: Sources, total: nat) returns (s: State)
    requires Usable(src)
    ensures AliasStage(src, s, |src.alias|, total)
  {
    s := Start();
    NoAliasYet(src, total);
    for i := 0 to |src.alias|
      invariant AliasStage(src, s, i, total)
    {
      ghost var count := i + 1;
      s := PlanAlias(src, s, i, count, total);
    }
  }

  /** Graph steps are taken only when the alias records leave graph below its target. */
  ghost predicate GraphCourse(src: Sources, t: Tokens, graphAt: nat, targets: map<Component, real>)
    requires Complete(t.emitted) && Complete(t.longest) && Complete(targets)
  {
    && graphAt % 10 == 0 && (graphAt > 0 ==> SumTo(src.alias, |src.alias|) as real < targets[Graph])
    && (graphAt == 0 ==>
         t.emitted[Graph] == SumTo(src.alias, |src.alias|) && t.longest[Graph] == MaxTo(src.alias, |src.alias|))
  }

  ghost predicate BedCourse(src: Sources, t: Tokens, bedAt: nat)
    requires Complete(t.emitted)
  {
    bedAt <= |src.bed| && t.emitted[Bed] == SumTo(src.bed, bedAt)
  }

  /** Where the loop stands between units. */
  ghost predicate OnCourse(src: Sources, t: Tokens, graphAt: nat, bedAt: nat, targets: map<Component,
                           real>)
    ensures OnCourse(src, t, graphAt, bedAt, targets) ==>
      Complete(t.emitted) && Complete(t.longest) && Complete(targets)
  {
    InMixture(t, targets, AfterAliases(src.alias, |src.alias|).emitted)
      && GraphCourse(src, t, graphAt, targets) && BedCourse(src, t, bedAt)
  }

  lemma {:induction false} LoopStarts(src: Sources, s: State, targets: map<Component, real>, total: nat)
    requires Positive(targets) && AliasStage(src, s, |src.alias|, total)
    ensures Sound(src, s, total) && OnCourse(src, s.tokens, At(s, GraphRecords), At(s, BedText), targets)
  {
    InitialMixture(src.alias, targets);
  }

  ghost predicate Behindmost(c: Component, t: Tokens, targets: map<Component, real>)
    requires Complete(targets) && Complete(t.emitted)
  {
    Needs(c, t, targets) && forall d: Component | Needs(d, t, targets) :: !MoreBehind(d, c, t, targets)
  }

  lemma {:induction false} UnitTaken(src: Sources, before: Tokens, graphAt: nat, bedAt: nat, after: Tokens,
                                     newGraphAt: nat, newBedAt: nat, c: Component, added: nat, targets: map<Component,
                                     real>)
    requires OnCourse(src, before, graphAt, bedAt, targets) && Behindmost(c, before, targets)
      && Stepped(before, after, c, added)
    requires newGraphAt == graphAt + (if c == Graph then 10 else 0) && newBedAt == bedAt + if c == Bed then 1 else 0
    requires c == Bed ==> bedAt < |src.bed| && added == src.bed[bedAt]
    ensures OnCourse(src, after, newGraphAt, newBedAt, targets)
      && Lacking(after, targets) < Lacking(before, targets)
  {
    var initial := AfterAliases(src.alias, |src.alias|).emitted;
    UnitKeepsMixture(before, after, c, added, targets, initial);
    UnitKeepsGraph(src, before, graphAt, after, newGraphAt, c, added, targets, initial);
    UnitKeepsBed(src, before, bedAt, after, newBedAt, c, added);
  }

  lemma {:induction false} UnitKeepsGraph(src: Sources, before: Tokens, graphAt: nat, after: Tokens, newGraphAt: nat,
                                          c: Component, added: nat, targets: map<Component, real>,
                                          initial: map<Component, nat>)
    requires initial == AfterAliases(src.alias, |src.alias|).emitted && InMixture(before, targets, initial)
    requires GraphCourse(src, before, graphAt, targets) && Needs(c, before, targets) && Stepped(before, after, c, added)
    requires newGraphAt == graphAt + if c == Graph then 10 else 0
    ensures GraphCourse(src, after, newGraphAt, targets)
  {
    var sum := SumTo(src.alias, |src.alias|);
    if c == Graph {
      StartedBelow(before, targets, initial, sum);
      assert newGraphAt % 10 == 0;
    } else {
      assert after.longest[Graph] == before.longest[Graph] && after.emitted[Graph] == before.emitted[Graph];
    }
  }

  lemma {:induction false} StartedBelow(t: Tokens, targets: map<Component, real>, initial: map<Component, nat>,
                                        sum: nat)
    requires InMixture(t, targets, initial) && Needs(Graph, t, targets) && Graph in initial
      && initial[Graph] == sum
    ensures sum as real < targets[Graph]
  {
    assert initial[Graph] <= t.emitted[Graph];
  }

  lemma {:induction false} UnitKeepsBed(src: Sources, before: Tokens, bedAt: nat, after: Tokens, newBedAt: nat,
                                        c: Component, added: nat)
    requires Complete(before.emitted) && Complete(before.longest) && BedCourse(src, before, bedAt)
      && Stepped(before, after, c, added)
    requires newBedAt == bedAt + if c == Bed then 1 else 0
    requires c == Bed ==> bedAt < |src.bed| && added == src.bed[bedAt]
    ensures BedCourse(src, after, newBedAt)
  {
  }

  /** The rounding report: every component between its target and one unit of its longest record more. */
  ghost predicate RoundingHolds(t: Tokens, targets: map<Component, real>)
    requires Complete(targets) && Complete(t.emitted) && Complete(t.longest)
  {
    forall c: Component :: 0.0 <= t.emitted[c] as real - targets[c] <= (Units(c) * t.longest[c]) as real
  }

  /** The block report. */
  ghost predicate BlocksExact(kinds: map<G.Kind, nat>)
    requires AllKinds(kinds)
  {
    var all := kinds[G.Peripheral] + kinds[G.Central] + kinds[G.Rule];
    all > 0 && all % 10 == 0 && kinds[G.Peripheral] * 10 == all * 7 && kinds[G.Central] * 10 == all * 2
      && kinds[G.Rule] * 10 == all
  }

  /** A finished plan. */
  ghost predicate Finished(src: Sources, s: State, targets: map<Component, real>, total: nat) {
    && Sound(src, s, total) && Positive(targets)
    && (forall c: Component :: !Needs(c, s.tokens, targets))
    && Proportional(s.tokens, targets, AfterAliases(src.alias, |src.alias|).emitted)
    && (RoundingHolds(s.tokens, targets) <==>
         SumTo(src.alias, |src.alias|) as real <= targets[Graph] + (10 * MaxTo(src.alias, |src.alias|)) as real)
    && (BlocksExact(s.kinds) <==> SumTo(src.alias, |src.alias|) as real < targets[Graph])
  }

  lemma {:induction false} RoundingExactly(src: Sources, t: Tokens, graphAt: nat, bedAt: nat, targets: map<Component,
                                           real>)
    requires OnCourse(src, t, graphAt, bedAt, targets) && forall c: Component :: !Needs(c, t, targets)
    ensures RoundingHolds(t, targets) <==>
      SumTo(src.alias, |src.alias|) as real <= targets[Graph] + (10 * MaxTo(src.alias, |src.alias|)) as real
  {
    var initial := AfterAliases(src.alias, |src.alias|).emitted;
    assert initial[Bed] == 0 && initial[Graph] == SumTo(src.alias, |src.alias|) && initial[Reasoning] == 0;
    assert !Needs(Graph, t, targets) && Units(Graph) == 10;
    forall c: Component | c != Graph
      ensures 0.0 <= t.emitted[c] as real - targets[c] <= (Units(c) * t.longest[c]) as real
    {
      assert !Needs(c, t, targets) && initial[c] == 0;
    }
  }

  lemma {:induction false} LoopEnds(src: Sources, s: State, targets: map<Component, real>, total: nat)
    requires Sound(src, s, total) && OnCourse(src, s.tokens, At(s, GraphRecords), At(s, BedText), targets)
    requires forall c: Component :: !Needs(c, s.tokens, targets)
    ensures Finished(src, s, targets, total) && SumTo(src.bed, |src.bed|) as real >= targets[Bed]
  {
    RoundingExactly(src, s.tokens, At(s, GraphRecords), At(s, BedText), targets);
    BlocksExactly(src, s, At(s, GraphRecords), At(s, BedText), targets, total);
    SumGrows(src.bed, At(s, BedText), |src.bed|);
    assert !Needs(Bed, s.tokens, targets);
  }

  lemma {:induction false} GraphWasTaken(src: Sources, t: Tokens, graphAt: nat, bedAt: nat, targets: map<Component,
                                         real>)
    requires OnCourse(src, t, graphAt, bedAt, targets) && !Needs(Graph, t, targets)
    ensures graphAt % 10 == 0 && (graphAt >= 10 <==> SumTo(src.alias, |src.alias|) as real < targets[Graph])
  {
  }

  lemma {:induction false} BlocksExactly(src: Sources, s: State, graphAt: nat, bedAt: nat, targets: map<Component,
                                         real>, total: nat)
    requires Sound(src, s, total) && graphAt == At(s, GraphRecords)
      && OnCourse(src, s.tokens, graphAt, bedAt, targets)
    requires forall c: Component :: !Needs(c, s.tokens, targets)
    ensures BlocksExact(s.kinds) <==> SumTo(src.alias, |src.alias|) as real < targets[Graph]
  {
    assert !Needs(Graph, s.tokens, targets);
    GraphWasTaken(src, s.tokens, graphAt, bedAt, targets);
    KindsAre(src, s, graphAt, total);
    TensAreExact(s.kinds, graphAt / 10);
  }

  lemma {:induction false} TensAreExact(kinds: map<G.Kind, nat>, tens: nat)
    requires AllKinds(kinds) && kinds[G.Peripheral] == 7 * tens && kinds[G.Central] == 2 * tens && kinds[G.Rule] == tens
    ensures BlocksExact(kinds) <==> tens > 0
  {
  }

  lemma {:induction false} KindsAre(src: Sources, s: State, n: nat, total: nat)
    requires Sound(src, s, total) && n == At(s, GraphRecords) && n % 10 == 0
    ensures s.kinds[G.Peripheral] == 7 * (n / 10) && s.kinds[G.Central] == 2 * (n / 10) && s.kinds[G.Rule] == n / 10
  {
  }

  lemma {:induction false} SumGrows(s: seq<nat>, m: nat, n: nat)
    requires m <= n <= |s|
    ensures SumTo(s, m) <= SumTo(s, n)
  {
    if m < n {
      SumGrows(s, m, n - 1);
    }
  }

  // ----- the curriculum -----

  /** Reasoning records planned before a fifth of the corpus have one hop, those before half of it
      one or two. */
  ghost predicate HopsRise(src: Sources, plan: seq<Entry>, total: nat)
    requires AllAvailable(src, plan)
  {
    forall i | 0 <= i < |plan| && plan[i].stream.Reason? ::
      var share, band := AllTokens(src, plan[..i]) as real, plan[i].stream.band;
      && (share < 0.2 * total as real ==> band == One)
      && (share < 0.5 * total as real ==> band == One || band == Two)
  }

  /** No band is more than one record behind a lower one, and none ahead of it. */
  ghost predicate Even(lower: nat, higher: nat) {
    higher <= lower <= higher + 1
  }

  ghost predicate BandsShare(curriculum: map<(Phase, Band), nat>)
    requires AllBands(curriculum)
  {
    && curriculum[(Early, Two)] == curriculum[(Early, Four)] == curriculum[(Middle, Four)] == 0
    && Even(curriculum[(Middle, One)], curriculum[(Middle, Two)])
    && Even(curriculum[(Late, One)], curriculum[(Late, Two)])
    && Even(curriculum[(Late, Two)], curriculum[(Late, Four)])
    && Even(curriculum[(Late, One)], curriculum[(Late, Four)])
  }

  /** The curriculum of a plan, and its counters. */
  ghost predicate Curriculum(src: Sources, s: State, total: nat) {
    AllAvailable(src, s.plan) && HopsRise(src, s.plan, total) && AllBands(s.curriculum) && BandsShare(s.curriculum)
  }

  lemma {:induction false} PhaseShare(planned: nat, total: nat)
    ensures planned as real < 0.2 * total as real <==> PhaseAt(planned, total) == Early
    ensures planned as real < 0.5 * total as real <==> PhaseAt(planned, total) != Late
  {
  }

  lemma {:induction false} CurriculumHolds(src: Sources, s: State, total: nat)
    requires Sound(src, s, total)
    ensures Curriculum(src, s, total)
  {
    forall i | 0 <= i < |s.plan| && s.plan[i].stream.Reason?
      ensures s.plan[i].stream.band in Allowed(PhaseAt(AllTokens(src, s.plan[..i]), total))
    {
      assert Next(src, s.plan[..i], s.plan[i], total);
    }
    forall i | 0 <= i < |s.plan|
      ensures var planned := AllTokens(src, s.plan[..i]);
        && (planned as real < 0.2 * total as real <==> PhaseAt(planned, total) == Early)
        && (planned as real < 0.5 * total as real <==> PhaseAt(planned, total) != Late)
    {
      PhaseShare(AllTokens(src, s.plan[..i]), total);
    }
    BandsAreShared(src, s, total);
  }

  lemma {:induction false} BandsAreShared(src: Sources, s: State, total: nat)
    requires Sound(src, s, total)
    ensures BandsShare(s.curriculum)
  {
    BandsEven(src, s, Middle, 0, 1, total);
    BandsEven(src, s, Late, 0, 1, total);
    BandsEven(src, s, Late, 1, 2, total);
    BandsEven(src, s, Late, 0, 2, total);
    NoOtherBand(src, s, Early, Two, total);
    NoOtherBand(src, s, Early, Four, total);
    NoOtherBand(src, s, Middle, Four, total);
  }

  lemma {:induction false} NoOtherBand(src: Sources, s: State, p: Phase, b: Band, total: nat)
    requires Sound(src, s, total) && b !in Allowed(p)
    ensures s.curriculum[(p, b)] == 0
  {
    PhasesBalance(src, s, p, total);
    var rounds := TurnsAre(p, PhaseCount(s.curriculum, p));
  }

  datatype Outcome = Plan(s: State) | BedEnded | GraphFailed

  /** One unit of the chosen component. */
  method TakeUnit(src: Sources, s: State, c: Component, targets: map<Component, real>, total: nat)
    returns (outcome: Outcome, after: State)
    requires Usable(src) && Sound(src, s, total)
      && OnCourse(src, s.tokens, At(s, GraphRecords), At(s, BedText), targets)
    requires Behindmost(c, s.tokens, targets)
    ensures outcome.Plan? ==>
      outcome.s == after && Sound(src, after, total)
      && Lacking(after.tokens, targets) < Lacking(s.tokens, targets)
    ensures outcome.Plan? ==>
      OnCourse(src, after.tokens, At(after, GraphRecords), At(after, BedText), targets)
    ensures outcome.BedEnded? ==> SumTo(src.bed, |src.bed|) as real < targets[Bed]
    ensures outcome.GraphFailed? ==> src.pass.end != G.Again
  {
    var added;
    match c {
      case Bed =>
        if At(s, BedText) == |src.bed| {
          return BedEnded, s;
        }
        after, added := TakeBed(src, s, total);
      case Graph =>
        var ok;
        ok, after, added := TakeGraph(src, s, total);
        if !ok {
          return GraphFailed, s;
        }
      case Reasoning =>
        after, added := TakeReasoning(src, s, total);
    }
    UnitTaken(src, s.tokens, At(s, GraphRecords), At(s, BedText), after.tokens, At(after, GraphRecords),
      At(after, BedText), c, added, targets);
    outcome := Plan(after);
  }

  /** The whole loop ends; with worlds to render it yields a plan exactly when the natural text
      holds its target. */
  method PlanMixture(src: Sources, targets: map<Component, real>, total: nat) returns (r: Outcome)
    requires Usable(src) && Positive(targets)
    ensures r.Plan? ==> Finished(src, r.s, targets, total) && Curriculum(src, r.s, total)
    ensures r.GraphFailed? ==> src.pass.end != G.Again
    ensures !r.GraphFailed? ==> (r.Plan? <==> SumTo(src.bed, |src.bed|) as real >= targets[Bed])
  {
    var s := PlanAliases(src, total);
    LoopStarts(src, s, targets, total);
    while true
      invariant Sound(src, s, total) && OnCourse(src, s.tokens, At(s, GraphRecords), At(s, BedText), targets)
      decreases Lacking(s.tokens, targets)
    {
      var chosen := Choose(s.tokens, targets);
      if chosen.None? {
        LoopEnds(src, s, targets, total);
        CurriculumHolds(src, s, total);
        return Plan(s);
      }
      var outcome, after := TakeUnit(src, s, chosen.value, targets, total);
      if !outcome.Plan? {
        return outcome;
      }
      s := after;
    }
  }

  // ----- the rounding report can fail -----

  lemma {:induction false} SumOfEqual(alias: seq<nat>, n: nat, length: nat)
    requires n <= |alias| && forall i | 0 <= i < |alias| :: alias[i] == length
    ensures SumTo(alias, n) == n * length && MaxTo(alias, n) <= length
  {
    if n > 0 {
      SumOfEqual(alias, n - 1, length);
    }
  }

  /** The first development mixture's share of a hundred tokens. */
  const SMALL_TARGETS: map<Component, real> := map[Bed := 70.0, Graph := 15.0, Reasoning := 15.0]

  lemma {:induction false} SmallTargetsArePositive()
    ensures Positive(SMALL_TARGETS)
  {
    forall c: Component
      ensures c in SMALL_TARGETS && SMALL_TARGETS[c] > 0.0
    {
      match c { case Bed => case Graph => case Reasoning => }
    }
  }

  /** One world with a fact of each class. */
  method SmallPass() returns (worlds: seq<G.World>, pass: G.Pass)
    ensures G.InBlocks(worlds, pass.records) && pass.end == G.Again && pass.records != []
  {
    var w: G.World := [G.Peripheral, G.Central];
    assert G.CountTo(w, G.Peripheral, 1) == 1 && G.CountTo(w, G.Central, 2) == 1;
    worlds := [w];
    pass := G.RenderPass(worlds);
  }

  /** Twelve alias records of eight tokens each overshoot a target of fifteen graph tokens by
      more than ten of them: the loop plans the corpus, and its rounding report is false. */
  method RoundingCanFail() returns (src: Sources, s: State)
    ensures Usable(src) && src.pass.end == G.Again && forall i | 0 <= i < |src.alias| :: src.alias[i] == 8
    ensures Finished(src, s, SMALL_TARGETS, 100) && !RoundingHolds(s.tokens, SMALL_TARGETS)
  {
    var worlds, pass := SmallPass();
    var alias: seq<nat> := seq(12, _ => 8);
    src := Sources(worlds, pass, alias, [70], _ => 30, (_, _) => 20);
    SumOfEqual(alias, 12, 8);
    assert SumTo(src.bed, 1) == SumTo(src.bed, 0) + 70;
    SmallTargetsArePositive();
    var planned := PlanMixture(src, SMALL_TARGETS, 100);
    s := planned.s;
  }

  // ----- what a finished plan means -----

  /** Within a phase no allowed band has two records more than another. */
  lemma {:induction false} BandsEven(src: Sources, s: State, p: Phase, i: nat, j: nat, total: nat)
    requires Sound(src, s, total) && i < |Allowed(p)| && j < |Allowed(p)|
    ensures s.curriculum[(p, Allowed(p)[i])] <= s.curriculum[(p, Allowed(p)[j])] + 1
    ensures i < j ==> s.curriculum[(p, Allowed(p)[i])] >= s.curriculum[(p, Allowed(p)[j])]
  {
    assert Balanced(s.curriculum, p);
    var rounds := TurnsAre(p, PhaseCount(s.curriculum, p));
  }

  /** A record that a stream has passed is in the plan. */
  lemma {:induction false} PassedIsPlanned(src: Sources, plan: seq<Entry>, st: Stream, k: nat, total: nat)
    returns (i: nat)
    requires AllAvailable(src, plan) && InOrder(src, plan, total) && k < CountOf(plan, st)
    ensures i < |plan| && plan[i] == Entry(st, k)
  {
    var n := |plan| - 1;
    var earlier := plan[..n];
    assert Next(src, plan[..n], plan[n], total);
    if plan[n].stream == st && k == CountOf(earlier, st) {
      i := n;
    } else {
      forall m | 0 <= m < n
        ensures Next(src, earlier[..m], earlier[m], total)
      {
        assert earlier[..m] == plan[..m];
        assert Next(src, plan[..m], plan[m], total);
      }
      i := PassedIsPlanned(src, earlier, st, k, total);
    }
  }

  /** Once the graph stream has gone through a whole pass, every fact of every world is planned. */
  lemma {:induction false} EveryFactPlanned(src: Sources, s: State, total: nat, v: nat, f: nat) returns (i: nat)
    requires Sound(src, s, total) && At(s, GraphRecords) >= |src.pass.records|
    requires G.AllRendered(src.worlds, |src.worlds|, src.pass.records) && v < |src.worlds| && f < |src.worlds[v]|
    ensures i < |s.plan| && s.plan[i].stream == GraphRecords && src.pass.records != []
      && GraphAt(src, s.plan[i].index) == G.FactRecord(v, f)
  {
    assert G.FactRecord(v, f) in src.pass.records;
    var k :| 0 <= k < |src.pass.records| && src.pass.records[k] == G.FactRecord(v, f);
    SmallMod(k, |src.pass.records|);
    i := PassedIsPlanned(src, s.plan, GraphRecords, k, total);
  }

  lemma {:induction false} SmallMod(k: nat, n: nat)
    requires k < n
    ensures k % n == k
  {
  }
}
