/** The breadth-first pass that sets failure links and closes the output lists under them
    (mask_ledger.py, lines 673-684).

    Ghost sets follow the queue: `finished` states have been expanded, `queued` ones have
    been put on the queue (the root counts), and `current` is being expanded: the children
    by the tokens `done` are already on the queue. */
module FailureLinks {
  import opened Tokens
  import opened PatternAutomaton

  ghost function ParentOf(edges: Edges, words: seq<seq<Token>>, u: nat): (p: nat)
    requires Trie(edges, words) && 0 < u < |words|
    ensures p < |words| && words[u] == words[p] + [words[u][|words[u]| - 1]]
    ensures words[u][|words[u]| - 1] in edges[p] && edges[p][words[u][|words[u]| - 1]] == u
  {
    assert HasParent(edges, words, u);
    var w := words[u];
    var p :| 0 <= p < u && words[p] == w[..|w| - 1] && w[|w| - 1] in edges[p] && edges[p][w[|w| - 1]] == u;
    p
  }

  lemma ParentOfChild(edges: Edges, words: seq<seq<Token>>, p: nat, t: Token)
    requires Trie(edges, words) && p < |words| && t in edges[p]
    ensures 0 < edges[p][t] < |words| && words[edges[p][t]] == words[p] + [t]
    ensures ParentOf(edges, words, edges[p][t]) == p
  {
    assert IsEdge(edges, words, p, t);
    var q := ParentOf(edges, words, edges[p][t]);
    assert (words[q] + [t])[..|words[q]|] == words[q];
    assert (words[p] + [t])[..|words[p]|] == words[p];
  }

  /** State u is a child that has already been put on the queue. */
  ghost predicate Expanded(edges: Edges, words: seq<seq<Token>>, finished: set<nat>, current: nat, done: set<Token>,
                           u: nat)
    requires Trie(edges, words) && 0 < u < |words|
  {
    var p := ParentOf(edges, words, u);
    p in finished || (p == current && words[u][|words[u]| - 1] in done)
  }

  /** The queue discipline: breadth-first order, and the queued states are exactly the root
      and the expanded children. */
  ghost predicate Frontier(edges: Edges, words: seq<seq<Token>>, finished: set<nat>, queued: set<nat>,
                           current: nat, done: set<Token>, pending: seq<nat>)
    requires Trie(edges, words)
  {
    && 0 in queued && current in queued && current !in finished && finished <= queued
    && (forall u | u in queued :: u < |words|)
    && (forall u | u in finished :: |words[u]| <= |words[current]|)
    && Waiting(finished, queued, current, pending)
    && Line(words, current, pending)
    && (forall u | 0 < u < |words| :: u in queued <==> Expanded(edges, words, finished, current, done, u))
  }

  /** The states in line are the queued ones that are neither finished nor current, once each. */
  ghost predicate Waiting(finished: set<nat>, queued: set<nat>, current: nat, pending: seq<nat>) {
    multiset(pending) == multiset(queued - finished - {current})
  }

  /** The states in line are in depth order, at most one level below the current one. */
  ghost predicate Line(words: seq<seq<Token>>, current: nat, pending: seq<nat>)
    requires current < |words|
  {
    && (forall i | 0 <= i < |pending| :: pending[i] < |words|)
    && (forall i | 0 <= i < |pending| :: |words[current]| <= |words[pending[i]]| <= |words[current]| + 1)
    && (forall i, j | 0 <= i < j < |pending| :: |words[pending[i]]| <= |words[pending[j]]|)
  }

  lemma LineOf(finished: set<nat>, queued: set<nat>, current: nat, pending: seq<nat>, u: nat)
    requires Waiting(finished, queued, current, pending)
    ensures u in pending <==> u in queued && u !in finished && u != current
  {
    assert u in multiset(pending) <==> u in multiset(queued - finished - {current});
  }

  /** Every queued state has its final link and final outputs; the others still list only
      the pattern they spell. */
  ghost predicate Closed(patterns: seq<Pattern>, words: seq<seq<Token>>, queued: set<nat>,
                         failures: seq<nat>, outputs: seq<seq<nat>>)
  {
    && |failures| == |words| == |outputs|
    && (forall u {:trigger Linked(words, failures, u)} | 0 < u < |words| && u in queued :: Linked(words, failures, u))
    && (forall u {:trigger outputs[u]} | 0 <= u < |words| && u in queued :: Lists(patterns, words[u], outputs[u]))
    && (forall u {:trigger outputs[u]} | 0 <= u < |words| && u !in queued ::
         SpelledAt(patterns, |patterns|, words[u], outputs[u]))
  }

  /** Every pattern has a state of its own. */
  ghost predicate Known(patterns: seq<Pattern>, words: seq<seq<Token>>) {
    forall id {:trigger patterns[id]} | 0 <= id < |patterns| :: patterns[id] in words
  }

  /** Breadth-first order: while a state of depth d is being expanded, every state of depth
      at most d has been queued. */
  lemma {:induction false} ShallowQueued(edges: Edges, words: seq<seq<Token>>, finished: set<nat>, queued: set<nat>,
                                         current: nat, done: set<Token>, pending: seq<nat>, u: nat)
    requires Trie(edges, words) && Frontier(edges, words, finished, queued, current, done, pending)
    requires u < |words| && |words[u]| <= |words[current]|
    ensures u in queued
    decreases |words[u]|
  {
    if u > 0 {
      var p := ParentOf(edges, words, u);
      ShallowQueued(edges, words, finished, queued, current, done, pending, p);
      LineOf(finished, queued, current, pending, p);
      assert Expanded(edges, words, finished, current, done, u);
    }
  }

  lemma AddToSet(s: set<nat>, x: nat)
    requires x !in s
    ensures multiset(s + {x}) == multiset(s) + multiset{x}
  {
    assert (multiset(s) + multiset{x})[x] == 1;
  }

  lemma ExpandedMore(edges: Edges, words: seq<seq<Token>>, finished: set<nat>, current: nat, done: set<Token>, t: Token)
    requires Trie(edges, words) && current < |words| && current !in finished && t in edges[current] && t !in done
    ensures 0 < edges[current][t] < |words| && words[edges[current][t]] == words[current] + [t]
    ensures !Expanded(edges, words, finished, current, done, edges[current][t])
    ensures forall u | 0 < u < |words| ::
      Expanded(edges, words, finished, current, done + {t}, u) <==>
      (u == edges[current][t] || Expanded(edges, words, finished, current, done, u))
  {
    ParentOfChild(edges, words, current, t);
  }

  lemma LineGrows(words: seq<seq<Token>>, finished: set<nat>, queued: set<nat>, current: nat, pending: seq<nat>,
                  child: nat)
    requires current < |words| && Line(words, current, pending) && Waiting(finished, queued, current, pending)
    requires child < |words| && |words[child]| == |words[current]| + 1 && child !in queued
    requires current in queued && finished <= queued
    ensures Waiting(finished, queued + {child}, current, pending + [child]) && Line(words, current, pending + [child])
  {
    AddToSet(queued - finished - {current}, child);
    assert (queued + {child}) - finished - {current} == (queued - finished - {current}) + {child};
  }

  lemma Enqueue(edges: Edges, words: seq<seq<Token>>, finished: set<nat>, queued: set<nat>,
                current: nat, done: set<Token>, pending: seq<nat>, t: Token)
    requires Trie(edges, words) && Frontier(edges, words, finished, queued, current, done, pending)
    requires t in edges[current] && t !in done
    ensures var child := edges[current][t];
      && 0 < child < |words| && child !in queued && words[child] == words[current] + [t]
      && Frontier(edges, words, finished, queued + {child}, current, done + {t}, pending + [child])
  {
    ExpandedMore(edges, words, finished, current, done, t);
    LineGrows(words, finished, queued, current, pending, edges[current][t]);
  }

  lemma LineMoves(words: seq<seq<Token>>, finished: set<nat>, queued: set<nat>, current: nat, pending: seq<nat>)
    requires current < |words| && pending != [] && Line(words, current, pending)
    requires Waiting(finished, queued, current, pending) && current in queued && current !in finished
    ensures pending[0] in queued && pending[0] !in finished + {current}
    ensures Waiting(finished + {current}, queued, pending[0], pending[1..]) && Line(words, pending[0], pending[1..])
  {
    var next, rest := pending[0], queued - (finished + {current}) - {pending[0]};
    LineOf(finished, queued, current, pending, next);
    assert pending == [next] + pending[1..];
    var after: multiset<nat> := multiset(rest);
    forall u: nat
      ensures multiset(pending[1..])[u] == after[u]
    {
      var before: multiset<nat> := multiset(queued - finished - {current});
      assert multiset(pending)[u] == before[u];
    }
  }

  /** What is expanded while the current state is left is expanded once it is finished. */
  lemma {:induction false} ExpandedMoves(edges: Edges, words: seq<seq<Token>>, finished: set<nat>, current: nat,
                                         next: nat, u: nat)
    requires Trie(edges, words) && current < |words| && 0 < u < |words|
    ensures Expanded(edges, words, finished, current, edges[current].Keys, u)
       <==> Expanded(edges, words, finished + {current}, next, {}, u)
  {
  }

  /** All children of the current state are queued: the next state in line becomes current. */
  lemma {:induction false} Finish(edges: Edges, words: seq<seq<Token>>, finished: set<nat>, queued: set<nat>,
                                  current: nat,
                                  pending: seq<nat>)
    requires Trie(edges, words) && current < |words|
    requires Frontier(edges, words, finished, queued, current, edges[current].Keys, pending) && pending != []
    ensures Frontier(edges, words, finished + {current}, queued, pending[0], {}, pending[1..])
  {
    LineMoves(words, finished, queued, current, pending);
    forall u | 0 < u < |words|
      ensures u in queued <==> Expanded(edges, words, finished + {current}, pending[0], {}, u)
    {
      ExpandedMoves(edges, words, finished, current, pending[0], u);
    }
  }

  /** When the queue runs dry every state has been queued. */
  lemma {:induction false} AllQueued(edges: Edges, words: seq<seq<Token>>, finished: set<nat>, queued: set<nat>,
                                     current: nat, u: nat)
    requires Trie(edges, words) && current < |words| && u < |words|
    requires Frontier(edges, words, finished, queued, current, edges[current].Keys, [])
    ensures u in queued
    decreases |words[u]|
  {
    if u > 0 {
      var p := ParentOf(edges, words, u);
      AllQueued(edges, words, finished, queued, current, p);
      LineOf(finished, queued, current, [], p);
      assert Expanded(edges, words, finished, current, edges[current].Keys, u);
    }
  }

  /** The longest suffix that the trie knows carries every pattern that ends here. */
  lemma ListsOfLongest(patterns: seq<Pattern>, words: seq<seq<Token>>, x: seq<Token>, s: nat, ids: seq<nat>)
    requires Longest(words, x, s) && Known(patterns, words) && Lists(patterns, words[s], ids)
    ensures Lists(patterns, x, ids)
  {
    forall id: nat | EndsHere(patterns, x, id)
      ensures EndsHere(patterns, words[s], id)
    {
      var g :| 0 <= g < |words| && words[g] == patterns[id];
      assert IsSuffix(words[g], x);
      SuffixOfSuffix(patterns[id], words[s], x);
    }
    forall i | 0 <= i < |ids|
      ensures EndsHere(patterns, x, ids[i])
    {
      assert EndsHere(patterns, words[s], ids[i]);
      SuffixTrans(patterns[ids[i]], words[s], x);
    }
  }

  lemma TailEndsHere(patterns: seq<Pattern>, w: seq<Token>, id: nat)
    requires w != [] && id < |patterns|
    ensures EndsHere(patterns, w[1..], id) ==> EndsHere(patterns, w, id) && |patterns[id]| < |w|
    ensures EndsHere(patterns, w, id) ==> patterns[id] == w || EndsHere(patterns, w[1..], id)
  {
    assert IsSuffix(w[1..], w) && IsSuffix(w, w);
    if EndsHere(patterns, w[1..], id) {
      SuffixTrans(patterns[id], w[1..], w);
    }
    if EndsHere(patterns, w, id) && |patterns[id]| < |w| {
      SuffixOfSuffix(patterns[id], w[1..], w);
    }
  }

  /** A word ends with itself and with what its tail ends with. */
  lemma {:induction false} ListedEndsHere(patterns: seq<Pattern>, w: seq<Token>, own: seq<nat>, rest: seq<nat>, i: nat)
    requires w != [] && SpelledAt(patterns, |patterns|, w, own) && Lists(patterns, w[1..], rest) && i < |own + rest|
    ensures EndsHere(patterns, w, (own + rest)[i])
    ensures i >= |own| ==> |patterns[(own + rest)[i]]| < |w|
  {
    if i >= |own| {
      TailEndsHere(patterns, w, rest[i - |own|]);
    } else {
      assert IsSuffix(w, w);
    }
  }

  lemma {:induction false} ListsOfWord(patterns: seq<Pattern>, w: seq<Token>, own: seq<nat>, rest: seq<nat>)
    requires w != [] && SpelledAt(patterns, |patterns|, w, own) && Lists(patterns, w[1..], rest)
    ensures Lists(patterns, w, own + rest)
  {
    var ids := own + rest;
    forall i | 0 <= i < |ids|
      ensures EndsHere(patterns, w, ids[i])
      ensures i >= |own| ==> |patterns[ids[i]]| < |w|
    {
      ListedEndsHere(patterns, w, own, rest, i);
    }
    forall id: nat | EndsHere(patterns, w, id)
      ensures id in ids
    {
      TailEndsHere(patterns, w, id);
      assert id in own || id in rest;
    }
  }

  /** Linking a child to the longest proper suffix f, and appending f's outputs. */
  lemma LinkChild(patterns: seq<Pattern>, words: seq<seq<Token>>, queued: set<nat>,
                  failures: seq<nat>, outputs: seq<seq<nat>>, child: nat, f: nat)
    requires Closed(patterns, words, queued, failures, outputs) && Known(patterns, words)
    requires 0 < child < |words| && child !in queued && words[child] != []
    requires Longest(words, words[child][1..], f) && f in queued
    ensures Closed(patterns, words, queued + {child}, failures[child := f],
      outputs[child := outputs[child] + outputs[f]])
  {
    ListsOfLongest(patterns, words, words[child][1..], f, outputs[f]);
    ListsOfWord(patterns, words[child], outputs[child], outputs[f]);
    var failures' := failures[child := f];
    forall u | 0 < u < |words| && u in queued + {child}
      ensures Linked(words, failures', u)
    {
      assert u != child ==> Linked(words, failures, u);
    }
  }

  /** What holds whenever the main loop looks at a queue that is not empty. */
  ghost predicate Progress(patterns: seq<Pattern>, edges: Edges, words: seq<seq<Token>>, finished: set<nat>,
                           queued: set<nat>,
                           pending: seq<nat>, failures: seq<nat>, outputs: seq<seq<nat>>)
    requires Trie(edges, words)
  {
    && Closed(patterns, words, queued, failures, outputs)
    && 0 in finished
    && (if pending != [] then Frontier(edges, words, finished, queued, pending[0], {}, pending[1..])
        else forall u | 0 <= u < |words| :: u in queued)
  }

  lemma Conclude(patterns: seq<Pattern>, edges: Edges, words: seq<seq<Token>>, finished: set<nat>, queued: set<nat>,
                 current: nat, pending: seq<nat>, failures: seq<nat>, outputs: seq<seq<nat>>)
    requires Trie(edges, words) && current < |words|
    requires Frontier(edges, words, finished, queued, current, edges[current].Keys, pending)
    requires Closed(patterns, words, queued, failures, outputs) && 0 in finished + {current}
    ensures Progress(patterns, edges, words, finished + {current}, queued, pending, failures, outputs)
  {
    if pending != [] {
      Finish(edges, words, finished, queued, current, pending);
    } else {
      forall u | 0 <= u < |words| ensures u in queued {
        AllQueued(edges, words, finished, queued, current, u);
      }
    }
  }

  lemma RootFrontier(edges: Edges, words: seq<seq<Token>>)
    requires Trie(edges, words)
    ensures Frontier(edges, words, {}, {0}, 0, {}, [])
  {
    assert {0} - {} - {0} == {};
    forall u | 0 < u < |words|
      ensures !Expanded(edges, words, {}, 0, {}, u)
    {
    }
  }

  lemma RootClosed(patterns: seq<Pattern>, edges: Edges, words: seq<seq<Token>>, failures: seq<nat>,
                   outputs: seq<seq<nat>>)
    requires Built(patterns, |patterns|, edges, words, failures, outputs)
    requires forall id | 0 <= id < |patterns| :: patterns[id] != []
    ensures Closed(patterns, words, {0}, failures, outputs) && outputs[0] == [] && Known(patterns, words)
  {
    assert SpelledAt(patterns, |patterns|, words[0], outputs[0]);
    forall u | 0 < u < |words| ensures SpelledAt(patterns, |patterns|, words[u], outputs[u]) {
    }
  }

  lemma MoveToken(all: set<Token>, tokens: set<Token>, token: Token)
    requires token in tokens && tokens <= all
    ensures (all - tokens) + {token} == all - (tokens - {token})
    ensures token in all && token !in all - tokens
  {
  }

  /** A child of the root keeps the link to the root it was created with. */
  lemma LinkRootChild(patterns: seq<Pattern>, words: seq<seq<Token>>, queued: set<nat>,
                      failures: seq<nat>, outputs: seq<seq<nat>>, child: nat)
    requires Closed(patterns, words, queued, failures, outputs) && 0 in queued
    requires 0 < child < |words| && child !in queued && |words[child]| == 1 && words[0] == []
    requires failures[child] == 0 && outputs[0] == [] && Known(patterns, words)
    ensures Closed(patterns, words, queued + {child}, failures, outputs)
  {
    LinkChild(patterns, words, queued, failures, outputs, child, 0);
    assert failures[child := 0] == failures;
    assert outputs[child] + [] == outputs[child];
    assert outputs[child := outputs[child] + outputs[0]] == outputs;
  }

  /** The children of the root go on the queue with the links they were created with. */
  method QueueRootChildren(patterns: seq<Pattern>, edges: Edges, ghost failures: seq<nat>, ghost outputs: seq<seq<nat>>,
                           ghost words: seq<seq<Token>>)
    returns (pending: seq<nat>, ghost queued: set<nat>)
    requires forall id | 0 <= id < |patterns| :: patterns[id] != []
    requires Built(patterns, |patterns|, edges, words, failures, outputs)
    ensures Progress(patterns, edges, words, {0}, queued, pending, failures, outputs)
  {
    pending, queued := [], {0};
    RootFrontier(edges, words);
    RootClosed(patterns, edges, words, failures, outputs);
    var tokens := edges[0].Keys;
    while tokens != {}
      invariant tokens <= edges[0].Keys
      invariant Frontier(edges, words, {}, queued, 0, edges[0].Keys - tokens, pending)
      invariant Closed(patterns, words, queued, failures, outputs)
    {
      var token :| token in tokens;
      var child := edges[0][token];
      MoveToken(edges[0].Keys, tokens, token);
      Enqueue(edges, words, {}, queued, 0, edges[0].Keys - tokens, pending, token);
      LinkRootChild(patterns, words, queued, failures, outputs, child);
      pending, queued, tokens := pending + [child], queued + {child}, tokens - {token};
    }
    assert edges[0].Keys - tokens == edges[0].Keys;
    assert {} + {0} == {0};
    Conclude(patterns, edges, words, {}, queued, 0, pending, failures, outputs);
  }

  lemma ShallowLinked(patterns: seq<Pattern>, edges: Edges, words: seq<seq<Token>>, finished: set<nat>,
                      queued: set<nat>,
                      current: nat, done: set<Token>, pending: seq<nat>, failures: seq<nat>, outputs: seq<seq<nat>>)
    requires Trie(edges, words) && Frontier(edges, words, finished, queued, current, done, pending)
    requires Closed(patterns, words, queued, failures, outputs)
    requires 0 in finished
    ensures Linked(words, failures, current) && LinkedTo(words, failures, |words[current]|)
  {
    forall u | 0 < u < |words| && |words[u]| <= |words[current]|
      ensures Linked(words, failures, u)
    {
      ShallowQueued(edges, words, finished, queued, current, done, pending, u);
    }
  }

  lemma AppendTail(w: seq<Token>, t: Token)
    requires w != []
    ensures (w + [t])[1..] == w[1..] + [t]
  {
  }

  /** One child of the current state: `failure` is where the automaton goes from the link. */
  lemma ExpandStep(patterns: seq<Pattern>, edges: Edges, words: seq<seq<Token>>, finished: set<nat>, queued: set<nat>,
                   state: nat, done: set<Token>, pending: seq<nat>, failures: seq<nat>, outputs: seq<seq<nat>>,
                   token: Token, child: nat, failure: nat)
    requires Trie(edges, words) && Known(patterns, words)
    requires 0 < state < |words| && Frontier(edges, words, finished, queued, state, done, pending)
    requires Closed(patterns, words, queued, failures, outputs)
    requires token in edges[state] && token !in done && edges[state][token] == child
    requires Longest(words, words[state][1..] + [token], failure)
    ensures 0 < child < |words| == |failures| == |outputs| && failure < |words|
    ensures Frontier(edges, words, finished, queued + {child}, state, done + {token}, pending + [child])
    ensures Closed(patterns, words, queued + {child}, failures[child := failure],
                   outputs[child := outputs[child] + outputs[failure]])
  {
    assert |words[failure]| <= |words[state][1..] + [token]| == |words[state]|;
    ShallowQueued(edges, words, finished, queued, state, done, pending, failure);
    Enqueue(edges, words, finished, queued, state, done, pending, token);
    AppendTail(words[state], token);
    LinkChild(patterns, words, queued, failures, outputs, child, failure);
  }

  /** Taking one state off the queue: link and queue each of its children. */
  method Expand(patterns: seq<Pattern>, edges: Edges, pending0: seq<nat>, failures0: seq<nat>, outputs0: seq<seq<nat>>,
                ghost words: seq<seq<Token>>, ghost finished: set<nat>, ghost queued0: set<nat>)
    returns (pending: seq<nat>, failures: seq<nat>, outputs: seq<seq<nat>>, ghost queued: set<nat>)
    requires Trie(edges, words) && Known(patterns, words)
    requires pending0 != [] && Progress(patterns, edges, words, finished, queued0, pending0, failures0, outputs0)
    ensures Progress(patterns, edges, words, finished + {pending0[0]}, queued, pending, failures, outputs)
  {
    var state := pending0[0];
    pending, failures, outputs, queued := pending0[1..], failures0, outputs0, queued0;
    var tokens := edges[state].Keys;
    assert edges[state].Keys - tokens == {};
    while tokens != {}
      invariant tokens <= edges[state].Keys
      invariant Frontier(edges, words, finished, queued, state, edges[state].Keys - tokens, pending)
      invariant Closed(patterns, words, queued, failures, outputs)
    {
      var token :| token in tokens;
      var child := edges[state][token];
      ghost var done := edges[state].Keys - tokens;
      MoveToken(edges[state].Keys, tokens, token);
      ShallowLinked(patterns, edges, words, finished, queued, state, done, pending, failures, outputs);
      var failure := Advance(edges, failures, failures[state], token, words, words[state][1..]);
      ExpandStep(patterns, edges, words, finished, queued, state, done, pending, failures, outputs, token, child,
        failure);
      pending, queued, tokens := pending + [child], queued + {child}, tokens - {token};
      failures := failures[child := failure];
      outputs := outputs[child := outputs[child] + outputs[failure]];
    }
    assert edges[state].Keys - tokens == edges[state].Keys;
    Conclude(patterns, edges, words, finished, queued, state, pending, failures, outputs);
  }

  ghost function Below(n: nat): (states: set<nat>)
    ensures forall s: nat :: s in states <==> s < n
  {
    if n == 0 then {} else Below(n - 1) + {n - 1}
  }

  /** Afterwards every link is the longest proper suffix, and every output list names all
      patterns that are suffixes of the state's word, longest first. */
  method LinkFailures(patterns: seq<Pattern>, edges: Edges, failures0: seq<nat>, outputs0: seq<seq<nat>>,
                      ghost words: seq<seq<Token>>)
    returns (failures: seq<nat>, outputs: seq<seq<nat>>)
    requires forall id | 0 <= id < |patterns| :: patterns[id] != []
    requires Built(patterns, |patterns|, edges, words, failures0, outputs0)
    ensures |failures| == |words| == |outputs|
    ensures forall s {:trigger Linked(words, failures, s)} | 0 < s < |words| :: Linked(words, failures, s)
    ensures forall s {:trigger outputs[s]} | 0 <= s < |words| :: Lists(patterns, words[s], outputs[s])
    ensures Known(patterns, words)
  {
    failures, outputs := failures0, outputs0;
    ghost var finished, queued := {0}, {};
    var pending;
    pending, queued := QueueRootChildren(patterns, edges, failures, outputs, words);
    while pending != []
      invariant Progress(patterns, edges, words, finished, queued, pending, failures, outputs)
      decreases Below(|words|) - finished
    {
      var state := pending[0];
      pending, failures, outputs, queued :=
        Expand(patterns, edges, pending, failures, outputs, words, finished, queued);
      finished := finished + {state};
    }
  }
}
