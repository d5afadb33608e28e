/** Random dependency problems modulo 23, and the independent evaluator of their statements
    (igsm_lite.py, generate_problem and solve_from_prompt). */
module IgsmProblems {
  const MOD := 23

  datatype Op = Plus | Minus | Times

  function Apply(op: Op, a: int, b: int): nat {
    match op
    case Plus => (a + b) % MOD
    case Minus => (a - b) % MOD
    case Times => (a * b) % MOD
  }

  datatype Operand = Quantity(name: string) | Constant(value: nat)

  datatype Definition = Leaf(value: nat) | Internal(op: Op, left: Operand, right: Operand)

  datatype Statement = Statement(name: string, def: Definition)

  type Definitions = map<string, Definition>
  type Values = map<string, nat>

  ghost function Operands(def: Definition): set<string> {
    match def
    case Leaf(_) => {}
    case Internal(_, left, right) =>
      (if left.Quantity? then {left.name} else {})
      + if right.Quantity? then {right.name} else {}
  }

  /** Every quantity a definition mentions is defined, and earlier. */
  ghost predicate Grounded(defs: Definitions, rank: map<string, nat>) {
    && rank.Keys == defs.Keys
    && forall n, m | n in defs && m in Operands(defs[n]) :: m in defs && rank[m] < rank[n]
  }

  function OperandValue(o: Operand, values: Values): nat
    requires o.Quantity? ==> o.name in values
  {
    match o
    case Quantity(name) => values[name]
    case Constant(c) => c
  }

  ghost function ValueUnder(def: Definition, values: Values): nat
    requires forall m | m in Operands(def) :: m in values
  {
    match def
    case Leaf(v) => v % MOD
    case Internal(op, left, right) => Apply(op, OperandValue(left, values), OperandValue(right, values))
  }

  /** The values satisfy every definition. */
  ghost predicate Consistent(values: Values, defs: Definitions) {
    && values.Keys == defs.Keys
    && forall n | n in defs ::
         (forall m | m in Operands(defs[n]) :: m in values) && values[n] == ValueUnder(defs[n], values)
  }

  /** The value is the number reduced modulo 23. */
  ghost predicate Reduces(value: nat, number: int) {
    value < 23 && (number - value) % 23 == 0
  }

  ghost predicate Stands(o: Operand, number: nat, values: Values) {
    match o
    case Quantity(name) => name in values && number == values[name]
    case Constant(c) => number == c
  }

  /** What the statement says of its quantity is true modulo 23. */
  ghost predicate IsTrue(st: Statement, values: Values) {
    && st.name in values
    && match st.def
       case Leaf(v) => Reduces(values[st.name], v)
       case Internal(op, left, right) =>
         exists a: nat, b: nat :: Stands(left, a, values) && Stands(right, b, values)
           && match op
              case Plus => Reduces(values[st.name], a + b)
              case Minus => Reduces(values[st.name], a - b)
              case Times => Reduces(values[st.name], a * b)
  }

  lemma {:induction false} RemainderReduces(number: int)
    ensures Reduces(number % MOD, number)
  {
    assert number - number % MOD == MOD * (number / MOD);
  }

  lemma {:induction false} ApplyReduces(op: Op, a: nat, b: nat)
    ensures Reduces(Apply(op, a, b), match op case Plus => a + b case Minus => a - b case Times => a * b)
  {
    match op
    case Plus => RemainderReduces(a + b);
    case Minus => RemainderReduces(a - b);
    case Times => RemainderReduces(a * b);
  }

  lemma {:induction false} ValueIsTrue(st: Statement, values: Values)
    requires st.name in values && (forall m | m in Operands(st.def) :: m in values)
      && values[st.name] == ValueUnder(st.def, values)
    ensures IsTrue(st, values)
  {
    if st.def.Leaf? {
      RemainderReduces(st.def.value);
    } else {
      var a, b := OperandValue(st.def.left, values), OperandValue(st.def.right, values);
      assert Stands(st.def.left, a, values) && Stands(st.def.right, b, values);
      ApplyReduces(st.def.op, a, b);
    }
  }

  /** Every statement is true of the values. */
  lemma {:induction false} ListedAreTrue(statements: seq<Statement>, defs: Definitions, rank: map<string, nat>,
                                         values: Values)
    requires Lists(statements, defs, rank) && Consistent(values, defs)
    ensures forall s | s in statements :: IsTrue(s, values)
  {
    GivesOnce(statements, defs, rank);
    forall s | s in statements
      ensures IsTrue(s, values)
    {
      assert defs[s.name] == s.def;
      ValueIsTrue(s, values);
    }
  }

  /** Grounded definitions have only one consistent valuation. */
  lemma {:induction false} ValuesUnique(v: Values, w: Values, defs: Definitions, rank: map<string, nat>, n: string)
    requires Grounded(defs, rank) && Consistent(v, defs) && Consistent(w, defs) && n in defs
    ensures v[n] == w[n]
    decreases rank[n]
  {
    forall m | m in Operands(defs[n])
      ensures v[m] == w[m]
    {
      ValuesUnique(v, w, defs, rank, m);
    }
  }

  // ----- the evaluator -----

  /** These are the definitions that a list of statements gives. */
  ghost predicate Gives(statements: seq<Statement>, defs: Definitions) {
    && (forall n :: n in defs <==> exists s :: s in statements && s.name == n)
    && forall n | n in defs :: Statement(n, defs[n]) in statements
  }

  /** The definitions a list of parsed statements gives, in whatever order they come. */
  method Collect(statements: seq<Statement>) returns (defs: Definitions)
    ensures Gives(statements, defs)
  {
    defs := map[];
    for i := 0 to |statements|
      invariant forall n :: n in defs <==> exists s :: s in statements[..i] && s.name == n
      invariant forall n | n in defs :: Statement(n, defs[n]) in statements[..i]
    {
      assert statements[..i + 1] == statements[..i] + [statements[i]];
      defs := defs[statements[i].name := statements[i].def];
    }
    assert statements[..|statements|] == statements;
  }

  /** Every remembered value is the right one. */
  ghost predicate Remembers(memo: Values, values: Values) {
    forall n | n in memo :: n in values && memo[n] == values[n]
  }

  /** Recursion on operands, with a memo; memory never changes a result. */
  method Evaluate(name: string, defs: Definitions, memo: Values, ghost values: Values, ghost rank: map<string, nat>)
    returns (result: nat, after: Values)
    requires Grounded(defs, rank) && Consistent(values, defs) && name in defs && Remembers(memo, values)
    ensures result == values[name] && Remembers(after, values)
    decreases rank[name], 1
  {
    after := memo;
    if name in memo {
      return memo[name], after;
    }
    match defs[name]
    case Leaf(v) =>
      result := v % MOD;
    case Internal(op, left, right) =>
      var a, b;
      a, after := EvaluateOperand(left, name, defs, after, values, rank);
      b, after := EvaluateOperand(right, name, defs, after, values, rank);
      result := Apply(op, a, b);
    after := after[name := result];
  }

  method EvaluateOperand(o: Operand, ghost of: string, defs: Definitions, memo: Values, ghost values: Values,
                         ghost rank: map<string, nat>) returns (result: nat, after: Values)
    requires Grounded(defs, rank) && Consistent(values, defs) && of in defs && Remembers(memo, values)
    requires o.Quantity? ==> o.name in Operands(defs[of])
    ensures result == OperandValue(o, values) && Remembers(after, values)
    decreases rank[of], 0
  {
    match o
    case Constant(c) =>
      result, after := c, memo;
    case Quantity(name) =>
      result, after := Evaluate(name, defs, memo, values, rank);
  }

  // ----- the builder -----

  ghost predicate DistinctNames(statements: seq<Statement>) {
    forall i, j {:trigger statements[i], statements[j]} | 0 <= i < j < |statements| ::
      statements[i].name != statements[j].name
  }

  /** Statements in definition order, and what they define. */
  ghost predicate Lists(statements: seq<Statement>, defs: Definitions, rank: map<string, nat>) {
    && DistinctNames(statements) && Grounded(defs, rank)
    && (forall i | 0 <= i < |statements| ::
         statements[i].name in defs && defs[statements[i].name] == statements[i].def && rank[statements[i].name] == i)
    && forall n | n in defs :: exists i :: 0 <= i < |statements| && statements[i].name == n
  }

  /** A set of names that holds whatever its definitions mention. */
  ghost predicate ClosedDown(names: set<string>, defs: Definitions) {
    forall n | n in names && n in defs :: Operands(defs[n]) <= names
  }

  /** The query's dependency closure. */
  ghost predicate InClosure(name: string, query: string, defs: Definitions) {
    forall names | query in names && ClosedDown(names, defs) :: name in names
  }

  /** Everything defined so far is needed by the query. */
  ghost predicate AllNeeded(query: string, defs: Definitions) {
    query in defs && forall n | n in defs :: InClosure(n, query, defs)
  }

  /** A constant stands only on the right. */
  ghost predicate LeftIsQuantity(def: Definition) { def.Internal? ==> def.left.Quantity? }

  /** The statements list the definitions in order, and the values are theirs, below 23. */
  ghost predicate Check(values: Values, statements: seq<Statement>, defs: Definitions, rank: map<string, nat>) {
    Lists(statements, defs, rank) && Consistent(values, defs) && InBounds(values, statements)
  }

  ghost predicate InBounds(values: Values, statements: seq<Statement>) {
    (forall n | n in values :: values[n] < MOD) && forall s | s in statements :: LeftIsQuantity(s.def)
  }

  /** The closures of generate_problem that fill val, stmt and defn. */
  class Builder {
    var values: Values
    var statements: seq<Statement>
    ghost var defs: Definitions
    ghost var rank: map<string, nat>

    ghost predicate Valid()
      reads this
    {
      Check(values, statements, defs, rank)
    }

    constructor ()
      ensures Valid() && defs == map[] && statements == []
    {
      values, statements, defs, rank := map[], [], map[], map[];
    }

    method NewLeaf(name: string, v: nat)
      requires Valid() && name !in defs && v < MOD
      modifies this
      ensures Valid() && defs == old(defs)[name := Leaf(v)]
        && statements == old(statements) + [Statement(name, Leaf(v))]
    {
      Define(name, Leaf(v), v);
    }

    method NewInternal(name: string, left: Operand, op: Op, right: Operand)
      requires Valid() && name !in defs && Operands(Internal(op, left, right)) <= defs.Keys && left.Quantity?
      modifies this
      ensures Valid() && defs == old(defs)[name := Internal(op, left, right)]
        && statements == old(statements) + [Statement(name, Internal(op, left, right))]
    {
      Define(name, Internal(op, left, right), Apply(op, OperandValue(left, values), OperandValue(right, values)));
    }

    method Define(name: string, def: Definition, v: nat)
      requires Valid() && name !in defs && Operands(def) <= defs.Keys && v == ValueUnder(def, values) && v < MOD
        && LeftIsQuantity(def)
      modifies this
      ensures Valid() && defs == old(defs)[name := def] && statements == old(statements) + [Statement(name, def)]
    {
      DefinitionKeeps(values, statements, defs, rank, name, def, v);
      Store(name, def, v, rank[name := |statements|]);
    }

    /** val, stmt and defn get the new quantity. */
    method Store(name: string, def: Definition, v: nat, ghost ranked: map<string, nat>)
      requires Check(values[name := v], statements + [Statement(name, def)], defs[name := def], ranked)
      modifies this
      ensures Valid() && defs == old(defs)[name := def] && statements == old(statements) + [Statement(name, def)]
    {
      rank, defs := ranked, defs[name := def];
      values := values[name := v];
      statements := statements + [Statement(name, def)];
    }
  }

  lemma {:induction false} DefinitionKeeps(values: Values, statements: seq<Statement>, defs: Definitions,
                                           rank: map<string, nat>, name: string, def: Definition, v: nat)
    requires Check(values, statements, defs, rank) && name !in defs && Operands(def) <= defs.Keys
    requires v == ValueUnder(def, values) && v < MOD && LeftIsQuantity(def)
    ensures Check(values[name := v], statements + [Statement(name, def)], defs[name := def], rank[name := |statements|])
  {
    ListsGrow(statements, defs, rank, name, def);
    ConsistentGrows(defs, rank, values, name, def);
    BoundsGrow(values, statements, name, def, v);
  }

  lemma {:induction false} BoundsGrow(values: Values, statements: seq<Statement>, name: string, def: Definition, v: nat)
    requires InBounds(values, statements) && v < MOD && LeftIsQuantity(def)
    ensures InBounds(values[name := v], statements + [Statement(name, def)])
  {
  }

  lemma {:induction false} ListsGrow(statements: seq<Statement>, defs: Definitions, rank: map<string, nat>,
                                     name: string, def: Definition)
    requires Lists(statements, defs, rank) && name !in defs && Operands(def) <= defs.Keys
    ensures Lists(statements + [Statement(name, def)], defs[name := def], rank[name := |statements|])
  {
    var more, allDefs := statements + [Statement(name, def)], defs[name := def];
    forall n | n in allDefs
      ensures exists i :: 0 <= i < |more| && more[i].name == n
    {
      if n == name {
        assert more[|statements|].name == n;
      } else {
        var i :| 0 <= i < |statements| && statements[i].name == n;
        assert more[i].name == n;
      }
    }
    GroundedGrows(statements, defs, rank, name, def);
  }

  lemma {:induction false} GroundedGrows(statements: seq<Statement>, defs: Definitions, rank: map<string, nat>,
                                         name: string, def: Definition)
    requires Lists(statements, defs, rank) && name !in defs && Operands(def) <= defs.Keys
    ensures Grounded(defs[name := def], rank[name := |statements|])
  {
    forall n | n in defs ensures rank[n] < |statements| {
      var i :| 0 <= i < |statements| && statements[i].name == n;
    }
  }

  lemma {:induction false} ConsistentGrows(defs: Definitions, rank: map<string, nat>, values: Values, name: string,
                                           def: Definition)
    requires Grounded(defs, rank) && Consistent(values, defs) && name !in defs && Operands(def) <= defs.Keys
    ensures Consistent(values[name := ValueUnder(def, values)], defs[name := def])
  {
    var allDefs, allValues := defs[name := def], values[name := ValueUnder(def, values)];
    forall n | n in allDefs
      ensures (forall m | m in Operands(allDefs[n]) :: m in allValues)
        && allValues[n] == ValueUnder(allDefs[n], allValues)
    {
      SameUnder(allDefs[n], values, allValues);
    }
  }

  /** A definition's value depends only on its operands. */
  lemma {:induction false} SameUnder(def: Definition, values: Values, more: Values)
    requires forall m | m in Operands(def) :: m in values && m in more && values[m] == more[m]
    ensures ValueUnder(def, values) == ValueUnder(def, more)
  {
  }

  // ----- what the query needs -----

  ghost function Internals(defs: Definitions): set<string> {
    set n | n in defs && defs[n].Internal?
  }

  /** A new node over the last one, and at most one new leaf that it mentions, are all needed. */
  lemma {:induction false} NodeNeedsAll(query: string, defs: Definitions, node: string, more: Definitions)
    requires AllNeeded(query, defs) && defs.Keys <= more.Keys && (forall n | n in defs :: more[n] == defs[n])
    requires node in more && query in Operands(more[node]) && forall n | n in more ::
      n in defs || n == node || n in Operands(more[node])
    ensures AllNeeded(node, more)
  {
    forall n, names | n in more && node in names && ClosedDown(names, more)
      ensures n in names
    {
      assert Operands(more[node]) <= names;
      assert ClosedDown(names, defs);
      if n in defs {
        assert InClosure(n, query, defs);
      }
    }
  }

  /** The needed names are the query's dependency closure. */
  ghost predicate IsClosure(needed: set<string>, query: string, defs: Definitions) {
    query in needed && needed <= defs.Keys && ClosedDown(needed, defs) && forall n | n in needed ::
      InClosure(n, query, defs)
  }

  lemma {:induction false} ClosureIff(needed: set<string>, query: string, defs: Definitions, n: string)
    requires IsClosure(needed, query, defs)
    ensures InClosure(n, query, defs) <==> n in needed
  {
  }

  /** A distractor changes nobody's closure. */
  lemma {:induction false} DistractorIgnored(needed: set<string>, query: string, defs: Definitions, name: string,
                                             def: Definition)
    requires IsClosure(needed, query, defs) && name !in defs
    ensures IsClosure(needed, query, defs[name := def])
  {
    var more := defs[name := def];
    forall n, names | n in needed && query in names && ClosedDown(names, more)
      ensures n in names
    {
      assert ClosedDown(names, defs);
      assert InClosure(n, query, defs);
    }
  }

  // ----- generation -----

  datatype Second = UseConstant | UseLeaf | UseDefined

  /** The random choices of one node: its second operand, its operator and the operands' order. */
  datatype Choice = Choice(second: Second, u: nat, op: Op, swap: bool)

  datatype Distractor = ExtraLeaf(u: nat) | ExtraInternal(left: nat, op: Op, constant: bool, u: nat)

  ghost function MaxDistractors(op: nat): nat { if op <= 2 then 1 else 3 }

  // ----- the statements that the draws stand for -----

  ghost function LeafFor(u: nat, name: string): Statement { Statement(name, Leaf(u % MOD)) }

  /** A draw below n, counted down from u. */
  function Pick(u: nat, n: nat): (i: nat)
    requires n > 0
    ensures i < n && (u < n ==> i == u)
  {
    if u < n then u else Pick(u - n, n)
  }

  ghost function DefinedName(s: seq<Statement>, u: nat): string
    requires s != []
  {
    s[Pick(u, |s|)].name
  }

  /** The second operand, and the statements with its leaf when it is a new one. */
  ghost function OtherOperand(s: seq<Statement>, c: Choice, names: seq<string>): Operand
    requires s != [] && |s| < |names|
  {
    match c.second
    case UseConstant => Constant(1 + c.u % (MOD - 1))
    case UseLeaf => Quantity(names[|s|])
    case UseDefined => Quantity(DefinedName(s, c.u))
  }

  ghost function WithOther(s: seq<Statement>, c: Choice, names: seq<string>): seq<Statement>
    requires |s| < |names|
  {
    if c.second.UseLeaf? then s + [LeafFor(c.u, names[|s|])] else s
  }

  ghost function NodeOver(last: string, other: Operand, op: Op, swap: bool): Definition {
    if swap then Internal(op, other, Quantity(last)) else Internal(op, Quantity(last), other)
  }

  /** One more node over `last`. */
  ghost function Extended(s: seq<Statement>, last: string, c: Choice, names: seq<string>): seq<Statement>
    requires s != [] && |s| + 1 < |names|
  {
    var more, other := WithOther(s, c, names), OtherOperand(s, c, names);
    more + [Statement(names[|more|], NodeOver(last, other, c.op, other.Quantity? && c.swap))]
  }

  /** A leaf and the first k nodes, each over the one before; the first operands are never swapped. */
  ghost function Chain(first: nat, choices: seq<Choice>, names: seq<string>, k: nat): (s: seq<Statement>)
    requires k <= |choices| && 2 * k + 1 <= |names|
    ensures 0 < |s| <= 2 * k + 1
  {
    if k == 0 then [LeafFor(first, names[0])]
    else
      var s := Chain(first, choices, names, k - 1);
      Extended(s, s[|s| - 1].name, if k == 1 then choices[0].(swap := false) else choices[k - 1], names)
  }

  ghost function DistractorFor(s: seq<Statement>, d: Distractor): Definition
    requires s != []
  {
    match d
    case ExtraLeaf(u) => Leaf(u % MOD)
    case ExtraInternal(left, op, constant, u) =>
      Internal(op, Quantity(DefinedName(s, left)), if constant then Constant(1 + u % (MOD - 1))
        else Quantity(DefinedName(s, u)))
  }

  /** The first k distractors after these statements. */
  ghost function Distracting(s: seq<Statement>, distractors: seq<Distractor>, names: seq<string>,
                             k: nat): (more: seq<Statement>)
    requires s != [] && k <= |distractors| && |s| + k <= |names|
    ensures |more| == |s| + k
  {
    if k == 0 then s
    else
      var before := Distracting(s, distractors, names, k - 1);
      before + [Statement(names[|before|], DistractorFor(before, distractors[k - 1]))]
  }

  /** All statements of the problem, in the order of their definition. */
  ghost function Drawn(op: nat, first: nat, choices: seq<Choice>, distractors: seq<Distractor>,
                       names: seq<string>): seq<Statement>
    requires op == |choices| && 2 * op + 1 + |distractors| <= |names|
  {
    Distracting(Chain(first, choices, names, op), distractors, names, |distractors|)
  }

  /** Leaves are below the modulus, and a constant is a second operand from one up. */
  ghost predicate InRange(def: Definition) {
    match def
    case Leaf(v) => v < 23
    case Internal(_, left, right) => left.Quantity? && (right.Constant? ==> 1 <= right.value <= 22)
  }

  lemma {:induction false} ChainInRange(first: nat, choices: seq<Choice>, names: seq<string>, k: nat)
    requires k <= |choices| && 2 * k + 1 <= |names|
    ensures forall s | s in Chain(first, choices, names, k) :: InRange(s.def)
  {
    if k > 0 {
      ChainInRange(first, choices, names, k - 1);
      var s := Chain(first, choices, names, k - 1);
      ExtendedInRange(s, s[|s| - 1].name, if k == 1 then choices[0].(swap := false) else choices[k - 1], names);
    }
  }

  lemma {:induction false} ExtendedInRange(s: seq<Statement>, last: string, c: Choice, names: seq<string>)
    requires s != [] && |s| + 1 < |names| && forall st | st in s :: InRange(st.def)
    ensures forall st | st in Extended(s, last, c, names) :: InRange(st.def)
  {
    forall st | st in WithOther(s, c, names)
      ensures InRange(st.def)
    {
    }
  }

  /** Whatever is drawn. */
  lemma {:induction false} DrawnInRange(s: seq<Statement>, distractors: seq<Distractor>, names: seq<string>, k: nat)
    requires s != [] && k <= |distractors| && |s| + k <= |names| && forall st | st in s :: InRange(st.def)
    ensures forall st | st in Distracting(s, distractors, names, k) :: InRange(st.def)
  {
    if k > 0 {
      DrawnInRange(s, distractors, names, k - 1);
    }
  }

  lemma {:induction false} ChainMore(first: nat, choices: seq<Choice>, names: seq<string>, k: nat, count: nat,
                                     s: seq<Statement>, last: string)
    requires 1 <= k < |choices| && count == k + 1 && 2 * count + 1 <= |names|
    requires s == Chain(first, choices, names, k) && last == s[|s| - 1].name
    ensures Chain(first, choices, names, count) == Extended(s, last, choices[k], names)
  {
  }

  lemma {:induction false} ChainOne(first: nat, choices: seq<Choice>, names: seq<string>)
    requires |choices| >= 1 && |names| >= 3
    ensures Chain(first, choices, names, 1)
      == Extended([LeafFor(first, names[0])], names[0], choices[0].(swap := false), names)
  {
    assert Chain(first, choices, names, 0) == [LeafFor(first, names[0])];
  }

  lemma {:induction false} DistractingMore(s: seq<Statement>, distractors: seq<Distractor>, names: seq<string>, k: nat,
                                           count: nat, before: seq<Statement>)
    requires s != [] && k < |distractors| && count == k + 1 && |s| + count <= |names|
      && before == Distracting(s, distractors, names, k)
    ensures Distracting(s, distractors, names, count) == before
      + [Statement(names[|before|], DistractorFor(before, distractors[k]))]
  {
  }

  /** The names are used up in order. */
  ghost predicate NamedBy(s: seq<Statement>, names: seq<string>) {
    |s| <= |names| && forall i | 0 <= i < |s| :: s[i].name == names[i]
  }

  lemma {:induction false} ChainNames(first: nat, choices: seq<Choice>, names: seq<string>, k: nat)
    requires k <= |choices| && 2 * k + 1 <= |names|
    ensures NamedBy(Chain(first, choices, names, k), names)
  {
    if k > 0 {
      ChainNames(first, choices, names, k - 1);
    }
  }

  lemma {:induction false} DistractingNames(s: seq<Statement>, distractors: seq<Distractor>, names: seq<string>, k: nat)
    requires s != [] && k <= |distractors| && |s| + k <= |names| && NamedBy(s, names)
    ensures NamedBy(Distracting(s, distractors, names, k), names)
  {
    if k > 0 {
      DistractingNames(s, distractors, names, k - 1);
    }
  }

  /** Every statement of the problem is named by the next of the names drawn. */
  lemma {:induction false} DrawnNames(op: nat, first: nat, choices: seq<Choice>, distractors: seq<Distractor>,
                                      names: seq<string>)
    requires op == |choices| && 2 * op + 1 + |distractors| <= |names|
    ensures NamedBy(Drawn(op, first, choices, distractors, names), names)
  {
    ChainNames(first, choices, names, op);
    DistractingNames(Chain(first, choices, names, op), distractors, names, |distractors|);
  }

  // ----- drawing them -----

  /** Names the generator has not used yet. */
  ghost predicate Fresh(names: seq<string>, next: nat, defs: Definitions) {
    && next <= |names| && (forall i, j {:trigger names[i], names[j]} | 0 <= i < j < |names| :: names[i] != names[j])
    && forall i | next <= i < |names| :: names[i] !in defs
  }

  method ChooseDefined(b: Builder, u: nat) returns (name: string)
    requires b.Valid() && b.statements != []
    ensures name in b.defs && name == DefinedName(b.statements, u)
  {
    var i := Pick(u, |b.statements|);
    name := b.statements[i].name;
  }

  lemma {:induction false} TakeName(names: seq<string>, next: nat, defs: Definitions, def: Definition)
    requires Fresh(names, next, defs) && next < |names|
    ensures names[next] !in defs && Fresh(names, next + 1, defs[names[next] := def])
  {
  }

  ghost predicate Known(o: Operand, defs: Definitions) { o.Quantity? ==> o.name in defs }

  lemma {:induction false} OperandsKnown(op: Op, left: Operand, right: Operand, defs: Definitions)
    requires Known(left, defs) && Known(right, defs)
    ensures Operands(Internal(op, left, right)) <= defs.Keys
    ensures left.Quantity? ==> left.name in Operands(Internal(op, left, right))
    ensures right.Quantity? ==> right.name in Operands(Internal(op, left, right))
  {
  }

  /** The definitions grew by nothing, or by the leaf this operand names. */
  ghost predicate GrewFor(o: Operand, before: Definitions, after: Definitions) {
    after == before || (o.Quantity? && o.name !in before && exists v :: after == before[o.name := Leaf(v)])
  }

  lemma {:induction false} GrewForMeans(o: Operand, before: Definitions, after: Definitions)
    requires GrewFor(o, before, after)
    ensures before.Keys <= after.Keys && (forall n | n in before :: after[n] == before[n])
    ensures forall n | n in after && n !in before :: o == Quantity(n)
    ensures Internals(after) == Internals(before)
  {
  }

  method NewLeafOperand(b: Builder, u: nat, names: seq<string>) returns (o: Operand)
    requires b.Valid() && Fresh(names, |b.statements|, b.defs) && |b.statements| < |names|
    modifies b
    ensures b.Valid() && Fresh(names, |b.statements|, b.defs) && Known(o, b.defs) && GrewFor(o, old(b.defs), b.defs)
    ensures o == Quantity(names[|old(b.statements)|]) && o.name !in old(b.defs)
    ensures b.statements == old(b.statements) + [LeafFor(u, o.name)]
  {
    var name := names[|b.statements|];
    TakeName(names, |b.statements|, b.defs, Leaf(u % MOD));
    b.NewLeaf(name, u % MOD);
    o := Quantity(name);
  }

  /** The second operand of a node, with a new leaf when one is wanted. */
  method SecondOperand(b: Builder, choice: Choice, names: seq<string>) returns (o: Operand)
    requires b.Valid() && b.statements != [] && Fresh(names, |b.statements|, b.defs) && |b.statements| < |names|
    modifies b
    ensures b.Valid() && Fresh(names, |b.statements|, b.defs) && Known(o, b.defs) && GrewFor(o, old(b.defs), b.defs)
    ensures o == OtherOperand(old(b.statements), choice, names)
      && b.statements == WithOther(old(b.statements), choice, names)
  {
    o := Constant(1 + choice.u % (MOD - 1));
    if choice.second.UseLeaf? {
      o := NewLeafOperand(b, choice.u, names);
    } else if choice.second.UseDefined? {
      var name := ChooseDefined(b, choice.u);
      o := Quantity(name);
    }
  }

  lemma {:induction false} OneMoreInternal(defs: Definitions, node: string, def: Definition)
    requires node !in defs && def.Internal?
    ensures Internals(defs[node := def]) == Internals(defs) + {node}
      && |Internals(defs[node := def])| == |Internals(defs)| + 1
  {
    assert Internals(defs[node := def]) == Internals(defs) + {node};
  }

  /** A node over the last one and one more operand, in either order. */
  method NewNode(b: Builder, last: string, other: Operand, op: Op, swap: bool, names: seq<string>)
    returns (node: string)
    requires b.Valid() && last in b.defs && Known(other, b.defs) && Fresh(names, |b.statements|, b.defs)
      && |b.statements| < |names|
    requires swap ==> other.Quantity?
    modifies b
    ensures b.Valid() && Fresh(names, |b.statements|, b.defs)
    ensures node == names[|old(b.statements)|] && node !in old(b.defs) && node in b.defs
    ensures b.defs == old(b.defs)[node := b.defs[node]] && b.defs[node].Internal? && last in Operands(b.defs[node])
    ensures other.Quantity? ==> other.name in Operands(b.defs[node])
    ensures b.statements == old(b.statements) + [Statement(node, NodeOver(last, other, op, swap))]
  {
    node := names[|b.statements|];
    var left, right := Quantity(last), other;
    if swap {
      left, right := other, Quantity(last);
    }
    OperandsKnown(op, left, right, b.defs);
    TakeName(names, |b.statements|, b.defs, Internal(op, left, right));
    b.NewInternal(node, left, op, right);
  }

  /** A node over a query that needs everything, made after at most one leaf of its own. */
  lemma {:induction false} ChainStep(last: string, before: Definitions, other: Operand, between: Definitions,
                                     node: string, after: Definitions)
    requires AllNeeded(last, before) && GrewFor(other, before, between) && node !in between && node in after
    requires after == between[node := after[node]] && after[node].Internal? && last in Operands(after[node])
    requires other.Quantity? ==> other.name in Operands(after[node])
    ensures AllNeeded(node, after) && |Internals(after)| == |Internals(before)| + 1
  {
    GrewForMeans(other, before, between);
    NodeNeedsAll(last, before, node, after);
    OneMoreInternal(between, node, after[node]);
  }

  /** What a chain under construction keeps: its last node needs everything, and names are left. */
  ghost predicate Growing(b: Builder, last: string, names: seq<string>, nodes: nat)
    reads b
  {
    && b.Valid() && b.statements != [] && Fresh(names, |b.statements|, b.defs)
    && last in b.defs && AllNeeded(last, b.defs) && |Internals(b.defs)| == nodes
  }

  lemma {:induction false} ExtendedIs(s: seq<Statement>, last: string, c: Choice, names: seq<string>,
                                      more: seq<Statement>, node: string)
    requires s != [] && |s| + 1 < |names| && more == WithOther(s, c, names) && node == names[|more|]
    ensures var other := OtherOperand(s, c, names);
      more + [Statement(node, NodeOver(last, other, c.op, other.Quantity? && c.swap))] == Extended(s, last, c, names)
    ensures var all := Extended(s, last, c, names); all[|all| - 1].name == node
  {
  }

  /** A new node over the chain's last one and the operand chosen for it. */
  method AddNode(b: Builder, last: string, other: Operand, choice: Choice, names: seq<string>,
                 ghost was: seq<Statement>, ghost before: Definitions, ghost nodes: nat, ghost count: nat)
    returns (node: string)
    requires b.Valid() && Known(other, b.defs) && Fresh(names, |b.statements|, b.defs) && last in b.defs
    requires AllNeeded(last, before) && |Internals(before)| == nodes && count == nodes + 1
    requires GrewFor(other, before, b.defs) && was != [] && |was| + 1 < |names|
    requires other == OtherOperand(was, choice, names) && b.statements == WithOther(was, choice, names)
    modifies b
    ensures Growing(b, node, names, count)
    ensures b.statements == Extended(was, last, choice, names) && b.statements[|b.statements| - 1].name == node
  {
    ghost var between, more := b.defs, b.statements;
    node := NewNode(b, last, other, choice.op, other.Quantity? && choice.swap, names);
    ChainStep(last, before, other, between, node, b.defs);
    ExtendedIs(was, last, choice, names, more, node);
  }

  /** The chain's next node, over the last one. */
  method ExtendChain(b: Builder, last: string, choice: Choice, names: seq<string>, ghost nodes: nat, ghost count: nat)
    returns (node: string)
    requires Growing(b, last, names, nodes) && count == nodes + 1 && b.statements != []
      && |b.statements| + 1 < |names|
    modifies b
    ensures Growing(b, node, names, count)
    ensures b.statements == Extended(old(b.statements), last, choice, names)
      && b.statements[|b.statements| - 1].name == node
  {
    ghost var was, before := b.statements, b.defs;
    var other := SecondOperand(b, choice, names);
    assert last in b.defs;
    node := AddNode(b, last, other, choice, names, was, before, nodes, count);
  }

  /** The leaf that the first node is over. */
  method FirstLeaf(b: Builder, left: nat, names: seq<string>)
    requires b.Valid() && b.defs == map[] && b.statements == [] && Fresh(names, 0, b.defs) && |names| >= 3
    modifies b
    ensures Growing(b, names[0], names, 0) && b.statements == [LeafFor(left, names[0])]
  {
    var first := NewLeafOperand(b, left, names);
    LeafNeedsItself(names[0], b.defs);
    GrewForMeans(first, map[], b.defs);
    assert Internals(map[]) == {};
  }

  /** The first node, over a new leaf and a constant or another new leaf. */
  method FirstNode(b: Builder, left: nat, choice: Choice, names: seq<string>) returns (node: string)
    requires b.Valid() && b.defs == map[] && b.statements == [] && Fresh(names, 0, b.defs) && |names| >= 3
      && !choice.second.UseDefined?
    modifies b
    ensures Growing(b, node, names, 1)
    ensures b.statements == Extended([LeafFor(left, names[0])], names[0], choice.(swap := false), names)
    ensures b.statements[|b.statements| - 1].name == node
  {
    FirstLeaf(b, left, names);
    node := ExtendChain(b, names[0], choice.(swap := false), names, 0, 1);
  }

  lemma {:induction false} LeafNeedsItself(name: string, defs: Definitions)
    requires defs.Keys == {name}
    ensures AllNeeded(name, defs)
  {
  }

  /** A definition nobody needs: a leaf, or a node over any quantities. */
  method DistractorDefinition(b: Builder, d: Distractor) returns (def: Definition)
    requires b.Valid() && b.statements != []
    ensures Operands(def) <= b.defs.Keys && (def.Leaf? ==> def.value < MOD) && LeftIsQuantity(def)
    ensures def == DistractorFor(b.statements, d)
  {
    if d.ExtraLeaf? {
      return Leaf(d.u % MOD);
    }
    var left := ChooseDefined(b, d.left);
    var right := Constant(1 + d.u % (MOD - 1));
    if !d.constant {
      var name := ChooseDefined(b, d.u);
      right := Quantity(name);
    }
    OperandsKnown(d.op, Quantity(left), right, b.defs);
    def := Internal(d.op, Quantity(left), right);
  }

  /** What a distractor leaves as it was. */
  ghost predicate Distracted(before: Definitions, after: Definitions, needed: set<string>, query: string) {
    && before.Keys <= after.Keys && (forall n | n in before :: after[n] == before[n])
    && IsClosure(needed, query, after)
  }

  lemma {:induction false} DistractorKeeps(before: Definitions, name: string, def: Definition, needed: set<string>,
                                           query: string)
    requires IsClosure(needed, query, before) && name !in before
    ensures Distracted(before, before[name := def], needed, query)
  {
    DistractorIgnored(needed, query, before, name, def);
  }

  lemma {:induction false} DistractorStep(before: Definitions, def: Definition, names: seq<string>, next: nat,
                                          needed: set<string>, query: string)
    requires Fresh(names, next, before) && next < |names| && IsClosure(needed, query, before)
    ensures var after := before[names[next] := def];
      names[next] !in before && Fresh(names, next + 1, after) && Distracted(before, after, needed, query)
        && |after| == |before| + 1
  {
    TakeName(names, next, before, def);
    DistractorKeeps(before, names[next], def, needed, query);
    assert before[names[next] := def].Keys == before.Keys + {names[next]};
  }

  method AddDistractor(b: Builder, d: Distractor, names: seq<string>, next: nat, ghost needed: set<string>,
                       ghost query: string)
    requires b.Valid() && b.statements != [] && Fresh(names, next, b.defs) && next == |b.statements| < |names|
      && IsClosure(needed, query, b.defs)
    modifies b
    ensures b.Valid() && b.statements != [] && Fresh(names, |b.statements|, b.defs)
      && Distracted(old(b.defs), b.defs, needed, query)
    ensures |b.defs| == |old(b.defs)| + 1
    ensures b.statements == old(b.statements) + [Statement(names[next], DistractorFor(old(b.statements), d))]
  {
    var def := DistractorDefinition(b, d);
    var name := names[next];
    DistractorStep(b.defs, def, names, next, needed, query);
    Add(b, name, def);
  }

  method Add(b: Builder, name: string, def: Definition)
    requires b.Valid() && name !in b.defs && Operands(def) <= b.defs.Keys && (def.Leaf? ==> def.value < MOD)
      && LeftIsQuantity(def)
    modifies b
    ensures b.Valid() && b.statements == old(b.statements) + [Statement(name, def)]
      && b.defs == old(b.defs)[name := def]
  {
    if def.Leaf? {
      b.NewLeaf(name, def.value);
    } else {
      b.NewInternal(name, def.left, def.op, def.right);
    }
  }

  datatype Problem = Problem(statements: seq<Statement>, query: string, answer: nat)

  /** The problem's statements define each quantity once and in a grounded way; the query needs
      exactly the non-distractors, of which `op` are computed; the answer is the query's value. */
  ghost predicate Faithful(p: Problem, defs: Definitions, rank: map<string, nat>, values: Values, needed: set<string>,
                           op: nat, distractors: nat) {
    && Lists(p.statements, defs, rank) && Consistent(values, defs) && p.query in defs && p.answer == values[p.query]
    && (forall n :: InClosure(n, p.query, defs) <==> n in needed)
    && needed <= defs.Keys && |defs| == |needed| + distractors && |set n | n in needed && defs[n].Internal?| == op
    && forall s | s in p.statements :: LeftIsQuantity(s.def)
  }

  /** The first k nodes are these statements. */
  ghost predicate ChainTo(b: Builder, node: string, first: nat, choices: seq<Choice>, names: seq<string>,
                          k: nat)
    reads b
  {
    && Growing(b, node, names, k) && k <= |choices| && 2 * k + 1 <= |names|
    && b.statements == Chain(first, choices, names, k) && b.statements[|b.statements| - 1].name == node
  }

  method BuildNode(b: Builder, last: string, first: nat, choices: seq<Choice>, names: seq<string>, k: nat,
                   ghost count: nat) returns (node: string)
    requires 1 <= k < |choices| && count == k + 1 && 2 * count + 1 <= |names|
      && ChainTo(b, last, first, choices, names, k)
    modifies b
    ensures ChainTo(b, node, first, choices, names, count)
  {
    ChainMore(first, choices, names, k, count, b.statements, last);
    node := ExtendChain(b, last, choices[k], names, k, count);
  }

  method BuildChain(b: Builder, op: nat, first: nat, choices: seq<Choice>, names: seq<string>) returns (node: string)
    requires b.Valid() && b.defs == map[] && b.statements == [] && op >= 1 && |choices| == op
      && !choices[0].second.UseDefined?
    requires |names| >= 2 * op + 5 && Fresh(names, 0, b.defs)
    modifies b
    ensures ChainTo(b, node, first, choices, names, op)
  {
    node := FirstNode(b, first, choices[0], names);
    ChainOne(first, choices, names);
    for k: nat := 1 to op
      invariant ChainTo(b, node, first, choices, names, k)
    {
      ghost var count := k + 1;
      node := BuildNode(b, node, first, choices, names, k, count);
    }
  }

  /** The draws so far are these statements, of which `needed` are still the query's closure. */
  ghost predicate DistractedTo(b: Builder, core: Definitions, start: seq<Statement>, distractors: seq<Distractor>,
                               names: seq<string>, k: nat,
                               needed: set<string>, query: string)
    reads b
  {
    && b.Valid() && start != [] && k <= |distractors| && |start| + |distractors| <= |names|
    && b.statements == Distracting(start, distractors, names, k) && Fresh(names, |b.statements|, b.defs)
    && Distracted(core, b.defs, needed, query) && |b.defs| == |core| + k
  }

  method AddKth(b: Builder, ghost core: Definitions, ghost start: seq<Statement>, distractors: seq<Distractor>,
                names: seq<string>,
                k: nat, ghost count: nat, ghost needed: set<string>, ghost query: string)
    requires DistractedTo(b, core, start, distractors, names, k, needed, query) && k < |distractors|
      && count == k + 1
    modifies b
    ensures DistractedTo(b, core, start, distractors, names, count, needed, query)
  {
    ghost var middle := b.defs;
    DistractingMore(start, distractors, names, k, count, b.statements);
    AddDistractor(b, distractors[k], names, |b.statements|, needed, query);
    DistractedTwice(core, middle, b.defs, needed, query);
  }

  lemma {:induction false} DistractedTwice(before: Definitions, middle: Definitions, after: Definitions,
                                           needed: set<string>, query: string)
    requires Distracted(before, middle, needed, query) && Distracted(middle, after, needed, query)
    ensures Distracted(before, after, needed, query)
  {
  }

  method AddDistractors(b: Builder, distractors: seq<Distractor>, names: seq<string>, ghost needed: set<string>,
                        ghost query: string)
    requires b.Valid() && b.statements != [] && Fresh(names, |b.statements|, b.defs)
    requires |b.statements| + |distractors| <= |names| && Distracted(b.defs, b.defs, needed, query)
    modifies b
    ensures b.Valid() && Distracted(old(b.defs), b.defs, needed, query) && |b.defs| == |old(b.defs)| + |distractors|
    ensures b.statements == Distracting(old(b.statements), distractors, names, |distractors|)
  {
    ghost var start, core := b.statements, b.defs;
    assert DistractedTo(b, core, start, distractors, names, 0, needed, query);
    for k: nat := 0 to |distractors|
      invariant DistractedTo(b, core, start, distractors, names, k, needed, query)
    {
      ghost var count := k + 1;
      AddKth(b, core, start, distractors, names, k, count, needed, query);
    }
  }

  /** The statements that the draws stand for: whatever they are, the last node of the chain needs
      exactly `op` internal definitions. */
  method GenerateProblem(op: nat, first: nat, choices: seq<Choice>, distractors: seq<Distractor>, names: seq<string>)
    returns (p: Problem, ghost defs: Definitions, ghost rank: map<string, nat>, ghost values: Values,
      ghost needed: set<string>)
    requires op >= 1 && |choices| == op && !choices[0].second.UseDefined? && |distractors| <= MaxDistractors(op)
    requires |names| >= 2 * op + 5 && Fresh(names, 0, map[])
    ensures Faithful(p, defs, rank, values, needed, op, |distractors|)
    ensures p.statements == Drawn(op, first, choices, distractors, names)
    ensures var chain := Chain(first, choices, names, op); p.query == chain[|chain| - 1].name
    ensures forall s | s in p.statements :: IsTrue(s, values) && InRange(s.def)
  {
    var b := new Builder();
    var node := BuildChain(b, op, first, choices, names);
    needed := b.defs.Keys;
    ghost var core := b.defs;
    CoreCloses(b.statements, core, b.rank, node);
    AddDistractors(b, distractors, names, needed, node);
    defs, rank, values := b.defs, b.rank, b.values;
    Finished(core, defs, needed, node, op);
    p := Problem(b.statements, node, b.values[node]);
    ListedAreTrue(p.statements, defs, rank, values);
    ChainInRange(first, choices, names, op);
    DrawnInRange(Chain(first, choices, names, op), distractors, names, |distractors|);
  }

  lemma {:induction false} CoreCloses(statements: seq<Statement>, defs: Definitions, rank: map<string, nat>,
                                      query: string)
    requires AllNeeded(query, defs) && Lists(statements, defs, rank)
    ensures Distracted(defs, defs, defs.Keys, query)
  {
    AllClosed(defs, rank);
  }

  lemma {:induction false} AllClosed(defs: Definitions, rank: map<string, nat>)
    requires Grounded(defs, rank)
    ensures ClosedDown(defs.Keys, defs)
  {
  }

  lemma {:induction false} Finished(core: Definitions, defs: Definitions, needed: set<string>, query: string, op: nat)
    requires Distracted(core, defs, needed, query) && needed == core.Keys && |Internals(core)| == op
    ensures (forall n :: InClosure(n, query, defs) <==> n in needed) && needed <= defs.Keys && query in defs
    ensures |set n | n in needed && defs[n].Internal?| == op
  {
    forall n
      ensures InClosure(n, query, defs) <==> n in needed
    {
      ClosureIff(needed, query, defs, n);
    }
    assert Internals(core) == set n | n in needed && defs[n].Internal?;
  }

  /** However the statements are shuffled, the evaluator finds the query's value. */
  method SolveShuffled(shuffled: seq<Statement>, query: string, ghost statements: seq<Statement>,
                       ghost defs: Definitions, ghost rank: map<string, nat>, ghost values: Values)
    returns (answer: nat)
    requires Lists(statements, defs, rank) && Consistent(values, defs) && query in defs
    requires multiset(shuffled) == multiset(statements)
    ensures answer == values[query]
  {
    var parsed := Collect(shuffled);
    ShuffledSame(statements, shuffled, defs, rank, parsed);
    var after;
    answer, after := Evaluate(query, parsed, map[], values, rank);
  }

  /** A shuffled list gives the same definitions, and no others. */
  lemma {:induction false} ShuffledSame(statements: seq<Statement>, shuffled: seq<Statement>, defs: Definitions,
                                        rank: map<string, nat>, parsed: Definitions)
    requires Lists(statements, defs, rank) && multiset(shuffled) == multiset(statements)
    ensures Gives(shuffled, parsed) ==> parsed == defs
    ensures Gives(shuffled, defs)
  {
    forall s
      ensures s in shuffled <==> s in statements
    {
      assert s in shuffled <==> s in multiset(shuffled);
    }
    GivesOnce(statements, defs, rank);
    if Gives(shuffled, parsed) {
      forall n
        ensures n in parsed <==> n in defs
      {
        assert n in parsed <==> exists s :: s in shuffled && s.name == n;
        assert n in defs <==> exists s :: s in statements && s.name == n;
      }
      forall n | n in parsed
        ensures parsed[n] == defs[n]
      {
        assert Statement(n, parsed[n]) in statements;
      }
    }
  }

  lemma {:induction false} GivesOnce(statements: seq<Statement>, defs: Definitions, rank: map<string, nat>)
    requires Lists(statements, defs, rank)
    ensures Gives(statements, defs) && forall s | s in statements :: s.name in defs && defs[s.name] == s.def
  {
    forall n | n in defs
      ensures exists s :: s in statements && s.name == n
      ensures Statement(n, defs[n]) in statements
    {
      var i :| 0 <= i < |statements| && statements[i].name == n;
      assert statements[i] in statements && statements[i] == Statement(n, defs[n]);
    }
  }
}
