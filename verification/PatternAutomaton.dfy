/** The multi-pattern automaton that the leakage check builds and runs
    (mask_ledger.py, _iter_pattern_matches).

    A state is an index into the three lists the source grows in place. The proofs
    follow a ghost list `words`: words[s] is the token string spelled by the edges
    from the root to state s. */
module PatternAutomaton {
  import opened Tokens

  type Pattern = seq<Token>
  type Edges = seq<map<Token, nat>>

  // ----- what the lists mean -----

  /** `edges` is a trie over `words`: an edge appends its token, every word that extends
      another by one token is reached by an edge, and the words are prefix-closed. */
  ghost predicate Trie(edges: Edges, words: seq<seq<Token>>) {
    && |edges| == |words| > 0
    && words[0] == []
    && (forall s, t | 0 <= s < |words| && t in edges[s] :: IsEdge(edges, words, s, t))
    && (forall u | 0 < u < |words| :: words[u] != [])
    && (forall u {:trigger HasParent(edges, words, u)} | 0 < u < |words| :: HasParent(edges, words, u))
    && (forall s, u | 0 <= s < |words| && 0 <= u < |words| :: words[s] == words[u] ==> s == u)
  }

  ghost predicate IsEdge(edges: Edges, words: seq<seq<Token>>, s: nat, t: Token)
    requires |edges| == |words| && s < |words| && t in edges[s]
  {
    0 < edges[s][t] < |words| && words[edges[s][t]] == words[s] + [t]
  }

  ghost predicate HasParent(edges: Edges, words: seq<seq<Token>>, u: nat)
    requires |edges| == |words| && u < |words| && words[u] != []
  {
    var w := words[u];
    exists p :: 0 <= p < u && words[p] == w[..|w| - 1] && w[|w| - 1] in edges[p] && edges[p][w[|w| - 1]] == u
  }

  ghost predicate Distinct(patterns: seq<Pattern>) {
    forall i, j | 0 <= i < j < |patterns| :: patterns[i] != patterns[j]
  }

  /** Pattern `id` ends where x ends. */
  ghost predicate EndsHere(patterns: seq<Pattern>, x: seq<Token>, id: nat) {
    id < |patterns| && IsSuffix(patterns[id], x)
  }

  ghost predicate LongestFirst(patterns: seq<Pattern>, ids: seq<nat>) {
    && (forall i | 0 <= i < |ids| :: ids[i] < |patterns|)
    && (forall i, j | 0 <= i < j < |ids| :: |patterns[ids[i]]| > |patterns[ids[j]]|)
  }

  /** The output list `ids` names all patterns that end where x ends, longest first. */
  ghost predicate Lists(patterns: seq<Pattern>, x: seq<Token>, ids: seq<nat>) {
    && LongestFirst(patterns, ids)
    && (forall i | 0 <= i < |ids| :: EndsHere(patterns, x, ids[i]))
    && (forall id {:trigger EndsHere(patterns, x, id)} | EndsHere(patterns, x, id) :: id in ids)
  }

  /** State s spells the longest word of the trie that is a suffix of x. */
  ghost predicate Longest(words: seq<seq<Token>>, x: seq<Token>, s: nat) {
    && s < |words|
    && IsSuffix(words[s], x)
    && forall g {:trigger IsSuffix(words[g], x)} | 0 <= g < |words| && IsSuffix(words[g], x) :: |words[g]| <= |words[s]|
  }

  /** The failure link of s: the longest proper suffix of its word. */
  ghost predicate Linked(words: seq<seq<Token>>, failures: seq<nat>, s: nat) {
    s < |words| == |failures| && words[s] != [] && Longest(words, words[s][1..], failures[s])
  }

  /** Every failure link out of a non-root state no deeper than `depth` is right. */
  ghost predicate LinkedTo(words: seq<seq<Token>>, failures: seq<nat>, depth: nat) {
    |failures| == |words| && forall s {:trigger Linked(words, failures, s)} | 0 < s < |words| && |words[s]| <= depth ::
      Linked(words, failures, s)
  }

  // ----- one automaton step -----

  /** No state that spells a suffix of x longer than `depth` has an edge for t. */
  ghost predicate NoEdgeAbove(edges: Edges, words: seq<seq<Token>>, x: seq<Token>, t: Token, depth: nat) {
    |edges| == |words| &&
    forall g {:trigger IsSuffix(words[g], x)} | 0 <= g < |words| && IsSuffix(words[g], x) && |words[g]| > depth ::
      t !in edges[g]
  }

  lemma FailureStep(edges: Edges, words: seq<seq<Token>>, x: seq<Token>, t: Token, s: nat, f: nat)
    requires Trie(edges, words) && 0 < s < |words| && IsSuffix(words[s], x) && t !in edges[s]
    requires NoEdgeAbove(edges, words, x, t, |words[s]|)
    requires Longest(words, words[s][1..], f)
    ensures f < |words| && |words[f]| < |words[s]| && IsSuffix(words[f], x)
    ensures NoEdgeAbove(edges, words, x, t, |words[f]|)
  {
    var w := words[s];
    assert IsSuffix(w[1..], w);
    SuffixTrans(words[f], w[1..], w);
    SuffixTrans(words[f], w, x);
    forall g | 0 <= g < |words| && IsSuffix(words[g], x) && |words[g]| > |words[f]|
      ensures t !in edges[g]
    {
      if |words[g]| <= |w| {
        SuffixOfSuffix(words[g], w, x);
        if |words[g]| == |w| {
          assert words[g] == w;
          assert g == s;
        } else {
          SuffixOfSuffix(words[g], w[1..], w);
          assert false;
        }
      }
    }
  }

  lemma EdgeFor(edges: Edges, words: seq<seq<Token>>, g: nat, t: Token, x: seq<Token>) returns (p: nat)
    requires Trie(edges, words) && g < |words| && words[g] != [] && IsSuffix(words[g], x + [t])
    ensures p < |words| && t in edges[p] && edges[p][t] == g && IsSuffix(words[p], x)
    ensures words[g] == words[p] + [t]
  {
    SuffixUnsnoc(words[g], x, t);
    assert HasParent(edges, words, g);
    p :| 0 <= p < g && words[p] == words[g][..|words[g]| - 1] && words[g][|words[g]| - 1] in edges[p]
         && edges[p][words[g][|words[g]| - 1]] == g;
  }

  /** The scan invariant: `state` spells a suffix of x, and no longer suffix leads on by t. */
  ghost predicate Falling(edges: Edges, words: seq<seq<Token>>, x: seq<Token>, t: Token, state: nat) {
    state < |words| && IsSuffix(words[state], x) && NoEdgeAbove(edges, words, x, t, |words[state]|)
  }

  lemma FinalStep(edges: Edges, words: seq<seq<Token>>, x: seq<Token>, t: Token, s: nat, next: nat)
    requires Trie(edges, words) && s < |words| && IsSuffix(words[s], x)
    requires s == 0 || t in edges[s]
    requires NoEdgeAbove(edges, words, x, t, |words[s]|)
    requires next == if t in edges[s] then edges[s][t] else 0
    ensures Longest(words, x + [t], next)
  {
    if t in edges[s] {
      assert IsEdge(edges, words, s, t);
      SuffixSnoc(words[s], x, t);
    }
    forall g | 0 <= g < |words| && IsSuffix(words[g], x + [t])
      ensures |words[g]| <= |words[next]|
    {
      if words[g] != [] {
        var p := EdgeFor(edges, words, g, t, x);
        assert |words[p]| <= |words[s]|;
        if t !in edges[s] {
          assert false;
        }
      }
    }
  }

  /** Reading one token: fall back along failure links until the token has an edge. */
  method Advance(edges: Edges, failures: seq<nat>, start: nat, token: Token,
                 ghost words: seq<seq<Token>>, ghost x: seq<Token>)
    returns (next: nat)
    requires Trie(edges, words) && Longest(words, x, start) && LinkedTo(words, failures, |words[start]|)
    ensures Longest(words, x + [token], next)
  {
    var state := start;
    assert NoEdgeAbove(edges, words, x, token, |words[start]|);
    while state != 0 && token !in edges[state]
      invariant Falling(edges, words, x, token, state) && |words[state]| <= |words[start]|
      decreases |words[state]|
    {
      assert Linked(words, failures, state);
      FailureStep(edges, words, x, token, state, failures[state]);
      state := failures[state];
    }
    next := if token in edges[state] then edges[state][token] else 0;
    FinalStep(edges, words, x, token, state, next);
  }

  // ----- building the trie -----

  /** The output lists after the first n patterns: a state lists the pattern it spells. */
  ghost predicate Spelled(patterns: seq<Pattern>, n: nat, words: seq<seq<Token>>, outputs: seq<seq<nat>>) {
    && n <= |patterns| && |outputs| == |words|
    && (forall id | 0 <= id < n :: patterns[id] in words)
    && (forall s | 0 <= s < |words| :: SpelledAt(patterns, n, words[s], outputs[s]))
  }

  ghost predicate SpelledAt(patterns: seq<Pattern>, n: nat, w: seq<Token>, ids: seq<nat>) {
    && n <= |patterns|
    && (ids != [] ==> |ids| == 1 && ids[0] < n && patterns[ids[0]] == w)
    && (forall id | 0 <= id < n && patterns[id] == w :: ids == [id])
  }

  /** The edge lists after state s gets an edge by t to a fresh state. */
  function WithEdge(edges: Edges, s: nat, t: Token): Edges
    requires s < |edges|
  {
    var row: map<Token, nat> := edges[s][t := |edges|];
    edges[s := row] + [map[]]
  }

  lemma FreshWord(edges: Edges, words: seq<seq<Token>>, s: nat, t: Token)
    requires Trie(edges, words) && s < |words| && t !in edges[s]
    ensures words[s] + [t] !in words
  {
    var w := words[s] + [t];
    assert w[..|w| - 1] == words[s];
    forall u | 0 < u < |words|
      ensures words[u] != w
    {
      assert HasParent(edges, words, u);
    }
  }

  lemma ParentKept(edges: Edges, words: seq<seq<Token>>, edges': Edges, words': seq<seq<Token>>, u: nat)
    requires |edges| == |words| && |edges'| == |words'| && words <= words' && u < |words| && words[u] != []
    requires forall s, t | 0 <= s < |edges| && t in edges[s] :: t in edges'[s] && edges'[s][t] == edges[s][t]
    requires HasParent(edges, words, u)
    ensures HasParent(edges', words', u)
  {
    var w := words[u];
    var p :| 0 <= p < u && words[p] == w[..|w| - 1] && w[|w| - 1] in edges[p] && edges[p][w[|w| - 1]] == u;
    assert words'[p] == w[..|w| - 1] && edges'[p][w[|w| - 1]] == u;
  }

  lemma GrowEdges(edges: Edges, words: seq<seq<Token>>, s: nat, t: Token)
    requires Trie(edges, words) && s < |words| && t !in edges[s]
    ensures var edges', words' := WithEdge(edges, s, t), words + [words[s] + [t]];
            forall r, k | 0 <= r < |words'| && k in edges'[r] :: IsEdge(edges', words', r, k)
  {
    var edges', words' := WithEdge(edges, s, t), words + [words[s] + [t]];
    forall r, k | 0 <= r < |words'| && k in edges'[r]
      ensures IsEdge(edges', words', r, k)
    {
      if r < |words| && !(r == s && k == t) {
        assert IsEdge(edges, words, r, k);
      }
    }
  }

  /** Growing one edge from s by t to a fresh state keeps the trie. */
  lemma Grow(edges: Edges, words: seq<seq<Token>>, s: nat, t: Token)
    requires Trie(edges, words) && s < |words| && t !in edges[s]
    ensures words[s] + [t] !in words
    ensures Trie(WithEdge(edges, s, t), words + [words[s] + [t]])
  {
    FreshWord(edges, words, s, t);
    GrowEdges(edges, words, s, t);
    var w := words[s] + [t];
    var edges', words' := WithEdge(edges, s, t), words + [w];
    forall u | 0 < u < |words'|
      ensures words'[u] != [] && HasParent(edges', words', u)
    {
      if u < |words| {
        ParentKept(edges, words, edges', words', u);
      } else {
        assert words'[s] == w[..|w| - 1] && w[|w| - 1] == t && edges'[s][t] == u;
      }
    }
  }

  /** What holds of the lists after the first n patterns. */
  ghost predicate Built(patterns: seq<Pattern>, n: nat, edges: Edges, words: seq<seq<Token>>,
                        failures: seq<nat>, outputs: seq<seq<nat>>)
  {
    && Trie(edges, words) && Spelled(patterns, n, words, outputs)
    && |failures| == |words| && forall s | 0 <= s < |failures| :: failures[s] == 0
  }

  lemma SpelledRecord(patterns: seq<Pattern>, n: nat, words: seq<seq<Token>>, outputs: seq<seq<nat>>, state: nat)
    requires Distinct(patterns) && n < |patterns| && Spelled(patterns, n, words, outputs)
    requires state < |words| && words[state] == patterns[n]
    requires forall s, u | 0 <= s < |words| && 0 <= u < |words| :: words[s] == words[u] ==> s == u
    ensures Spelled(patterns, n + 1, words, outputs[state := outputs[state] + [n]])
  {
    assert SpelledAt(patterns, n, words[state], outputs[state]);
    var outputs' := outputs[state := outputs[state] + [n]];
    forall s | 0 <= s < |words|
      ensures SpelledAt(patterns, n + 1, words[s], outputs'[s])
    {
      assert SpelledAt(patterns, n, words[s], outputs[s]);
    }
  }

  method BuildTrie(patterns: seq<Pattern>)
    returns (edges: Edges, failures: seq<nat>, outputs: seq<seq<nat>>, ghost words: seq<seq<Token>>)
    requires Distinct(patterns)
    ensures Built(patterns, |patterns|, edges, words, failures, outputs)
  {
    edges, failures, outputs, words := [map[]], [0], [[]], [[]];
    for patternId := 0 to |patterns|
      invariant Built(patterns, patternId, edges, words, failures, outputs)
    {
      var pattern := patterns[patternId];
      var state: nat := 0;
      for i := 0 to |pattern|
        invariant Built(patterns, patternId, edges, words, failures, outputs)
        invariant state < |words| && words[state] == pattern[..i]
      {
        var token := pattern[i];
        assert pattern[..i + 1] == pattern[..i] + [token];
        if token in edges[state] {
          assert IsEdge(edges, words, state, token);
          state := edges[state][token];
        } else {
          var next := |edges|;
          Grow(edges, words, state, token);
          words := words + [words[state] + [token]];
          edges := WithEdge(edges, state, token);
          failures, outputs := failures + [0], outputs + [[]];
          state := next;
        }
      }
      SpelledRecord(patterns, patternId, words, outputs, state);
      outputs := outputs[state := outputs[state] + [patternId]];
    }
  }
}
