/** The token trie of candidate query keys and its walker (constrain.py). */
module QueryTries {
  import opened Wrappers
  import opened Tokens

  class Node {
    var children: map<Token, Node>
    var terminal: bool

    constructor ()
      ensures children == map[] && !terminal
    {
      children, terminal := map[], false;
    }
  }

  ghost predicate IsPrefix(p: seq<Token>, q: seq<Token>) {
    p <= q
  }

  /** Some key begins with `path`. */
  ghost predicate OnWay(path: seq<Token>, keys: set<seq<Token>>) {
    exists key :: key in keys && IsPrefix(path, key)
  }

  lemma SnocInjective(p: seq<Token>, s: Token, q: seq<Token>, t: Token)
    requires p + [s] == q + [t]
    ensures p == q && s == t
  {
    assert p == (p + [s])[..|p|] && q == (q + [t])[..|q|];
    assert (p + [s])[|p|] == s && (q + [t])[|q|] == t;
  }

  /** A child is exactly a path one token longer. */
  ghost predicate Branches(node: Node, path: seq<Token>, nodeAt: map<seq<Token>, Node>)
    reads node
  {
    forall t :: (t in node.children <==> path + [t] in nodeAt)
      && (t in node.children ==> node.children[t] == nodeAt[path + [t]])
  }

  ghost predicate ParentsIn(nodeAt: map<seq<Token>, Node>) {
    forall p: seq<Token>, t {:trigger p + [t]} | p + [t] in nodeAt :: p in nodeAt
  }

  /** The paths are those of the keys, and the first i steps of one more. */
  ghost predicate Paths(paths: set<seq<Token>>, keys: set<seq<Token>>, extra: seq<Token>) {
    forall p :: p in paths <==> p == [] || OnWay(p, keys) || IsPrefix(p, extra)
  }

  lemma PathsStep(paths: set<seq<Token>>, keys: set<seq<Token>>, key: seq<Token>, i: nat)
    requires i < |key| && Paths(paths, keys, key[..i])
    ensures key[..i + 1] == key[..i] + [key[i]]
    ensures Paths(paths + {key[..i + 1]}, keys, key[..i + 1])
  {
    forall p
      ensures p in paths + {key[..i + 1]} <==> p == [] || OnWay(p, keys) || IsPrefix(p, key[..i + 1])
    {
      assert IsPrefix(p, key[..i + 1]) <==> IsPrefix(p, key[..i]) || p == key[..i + 1];
    }
  }

  lemma PathsDone(paths: set<seq<Token>>, keys: set<seq<Token>>, key: seq<Token>)
    requires Paths(paths, keys, key[..|key|])
    ensures Paths(paths, keys + {key}, [])
  {
    assert key[..|key|] == key;
    forall p
      ensures OnWay(p, keys + {key}) <==> OnWay(p, keys) || IsPrefix(p, key)
    {
      if IsPrefix(p, key) {
        assert key in keys + {key};
      }
      if OnWay(p, keys) {
        var k :| k in keys && IsPrefix(p, k);
        assert k in keys + {key};
      }
    }
  }

  /** The keys of the first n spans, and of the first m relations of the next. */
  ghost function KeysOf(encode: string -> seq<Token>, spans: seq<string>, relations: seq<string>, n: nat,
                        m: nat): set<seq<Token>>
    requires n <= |spans| && m <= |relations| && (m > 0 ==> n < |spans|)
    decreases n, m
  {
    if m > 0 then KeysOf(encode, spans, relations, n, m - 1) + {encode(spans[n] + ", " + relations[m - 1])}
    else if n > 0 then KeysOf(encode, spans, relations, n - 1, |relations|)
    else {}
  }

  lemma {:induction false} KeysOfAre(encode: string -> seq<Token>, spans: seq<string>, relations: seq<string>, n: nat,
                                     m: nat, key: seq<Token>)
    requires n <= |spans| && m <= |relations| && (m > 0 ==> n < |spans|)
    ensures key in KeysOf(encode, spans, relations, n, m) <==>
            exists i, j ::
              0 <= i < |spans| && 0 <= j < |relations| && (i < n || (i == n && j < m))
              && key == encode(spans[i] + ", " + relations[j])
    decreases n, m
  {
    if m > 0 {
      KeysOfAre(encode, spans, relations, n, m - 1, key);
    } else if n > 0 {
      KeysOfAre(encode, spans, relations, n - 1, |relations|, key);
    }
  }

  class QueryTrie {
    const retrieve: Token
    const root: Node
    /** The node each path reaches, and the keys inserted so far. */
    ghost var nodeAt: map<seq<Token>, Node>
    ghost var keys: set<seq<Token>>
    ghost var nodes: set<Node>

    /** The trie's shape, whatever its keys. */
    ghost predicate Shaped()
      reads this, nodes
    {
      && [] in nodeAt && nodeAt[[]] == root
      && (forall p | p in nodeAt :: nodeAt[p] in nodes && Branches(nodeAt[p], p, nodeAt))
      && (forall p, q | p in nodeAt && q in nodeAt && nodeAt[p] == nodeAt[q] :: p == q)
      && ParentsIn(nodeAt) && keys <= nodeAt.Keys
      && (forall p | p in nodeAt :: nodeAt[p].terminal <==> p in keys)
    }

    /** Every path leads to a key, and every key is spelled out. */
    ghost predicate Valid()
      reads this, nodes
    {
      Shaped() && Paths(nodeAt.Keys, keys, [])
    }

    constructor (retrieve: Token, encode: string -> seq<Token>, spans: seq<string>, relations: seq<string>)
      ensures Valid() && fresh(nodes) && this.retrieve == retrieve
      ensures keys == KeysOf(encode, spans, relations, |spans|, 0)
    {
      this.retrieve := retrieve;
      var top := new Node();
      root := top;
      nodeAt, keys, nodes := map[[] := top], {}, {top};
      new;
      for i := 0 to |spans|
        invariant Valid() && fresh(nodes) && keys == KeysOf(encode, spans, relations, i, 0)
      {
        for j := 0 to |relations|
          invariant Valid() && fresh(nodes) && keys == KeysOf(encode, spans, relations, i, j)
        {
          Insert(encode(spans[i] + ", " + relations[j]));
        }
      }
    }

    /** children.setdefault: the child for t, made if missing. */
    method Child(node: Node, ghost path: seq<Token>, t: Token) returns (child: Node)
      requires Shaped() && path in nodeAt && node == nodeAt[path]
      modifies this`nodeAt, this`nodes, node`children
      ensures Shaped() && fresh(nodes - old(nodes)) && old(nodes) <= nodes
      ensures nodeAt.Keys == old(nodeAt).Keys + {path + [t]} && child == nodeAt[path + [t]]
    {
      if t !in node.children {
        child := new Node();
        ghost var was := nodeAt;
        ghost var longer := path + [t];
        assert longer !in was;
        label Before:
        node.children := node.children[t := child];
        nodeAt, nodes := nodeAt[longer := child], nodes + {child};
        forall p | p in nodeAt
          ensures Branches(nodeAt[p], p, nodeAt)
        {
          Grown(p, path, t, was);
          if p != longer && p != path {
            assert nodeAt[p] == was[p] && was[p] != node && was[p] != child;
            assert old@Before(Branches(was[p], p, was));
          }
        }
        Grown(path, path, t, was);
        forall p: seq<Token>, s {:trigger p + [s]} | p + [s] in nodeAt
          ensures p in nodeAt
        {
          Grown(p, path, t, was);
        }
      }
      child := node.children[t];
      assert path + [t] in nodeAt;
    }

    /** Which one-token extensions a new path makes present: only its own. */
    lemma Grown(p: seq<Token>, path: seq<Token>, t: Token, was: map<seq<Token>, Node>)
      requires path + [t] !in was && ParentsIn(was)
      ensures forall s :: p + [s] == path + [t] <==> p == path && s == t
      ensures p == path + [t] ==> forall s :: p + [s] !in was && p + [s] != path + [t]
    {
      forall s
        ensures p + [s] == path + [t] <==> p == path && s == t
      {
        if p + [s] == path + [t] {
          SnocInjective(p, s, path, t);
        }
      }
      if p == path + [t] {
        forall s
          ensures p + [s] !in was
        {
        }
      }
    }

    /** After i tokens of a key being inserted. */
    ghost predicate Inserting(node: Node, key: seq<Token>, i: nat)
      requires i <= |key|
      reads this, nodes
    {
      Shaped() && Paths(nodeAt.Keys, keys, key[..i]) && key[..i] in nodeAt && node == nodeAt[key[..i]]
    }

    method Descend(node: Node, key: seq<Token>, i: nat) returns (child: Node)
      requires i < |key| && Inserting(node, key, i)
      modifies this`nodeAt, this`nodes, node`children
      ensures Inserting(child, key, i + 1)
      ensures fresh(nodes - old(nodes)) && old(nodes) <= nodes
    {
      PathsStep(nodeAt.Keys, keys, key, i);
      child := Child(node, key[..i], key[i]);
    }

    method Insert(key: seq<Token>)
      requires Valid()
      modifies this, nodes
      ensures Valid() && keys == old(keys) + {key} && fresh(nodes - old(nodes))
    {
      var node := root;
      for i := 0 to |key|
        invariant Inserting(node, key, i) && keys == old(keys)
        invariant node in nodes && fresh(nodes - old(nodes)) && old(nodes) <= nodes
      {
        node := Descend(node, key, i);
      }
      assert key[..|key|] == key;
      End(node, key);
    }

    method End(node: Node, ghost key: seq<Token>)
      requires Shaped() && key in nodeAt && node == nodeAt[key] && Paths(nodeAt.Keys, keys, key)
      modifies this`keys, node`terminal
      ensures Valid() && keys == old(keys) + {key}
    {
      assert key[..|key|] == key;
      PathsDone(nodeAt.Keys, keys, key);
      node.terminal := true;
      keys := keys + {key};
    }
  }

  /** What a walker that has spelled `spelled` may emit next. */
  ghost predicate MayEmit(t: Token, spelled: seq<Token>, keys: set<seq<Token>>, retrieve: Token) {
    OnWay(spelled + [t], keys) || (t == retrieve && spelled in keys)
  }

  /** A walker on the way to a key always has a next token. */
  lemma NoDeadEnd(spelled: seq<Token>, keys: set<seq<Token>>, retrieve: Token) returns (t: Token)
    requires keys != {} && (spelled == [] || OnWay(spelled, keys))
    ensures MayEmit(t, spelled, keys, retrieve)
  {
    var key :| key in keys && IsPrefix(spelled, key);
    if key == spelled {
      t := retrieve;
    } else {
      t := key[|spelled|];
      assert IsPrefix(spelled + [t], key);
    }
  }

  class QueryWalker {
    const trie: QueryTrie
    var node: Node
    ghost var spelled: seq<Token>

    /** The path the cursor stands at, when it stands where it has spelled to in a valid trie. */
    ghost function At(): Option<seq<Token>>
      reads this, trie, trie.nodes
    {
      if trie.Valid() && spelled in trie.nodeAt && node == trie.nodeAt[spelled] then Some(spelled) else None
    }

    ghost predicate Valid()
      reads this, trie, trie.nodes
    {
      At() == Some(spelled)
    }

    constructor (trie: QueryTrie)
      requires trie.Valid()
      ensures Valid() && this.trie == trie && spelled == []
    {
      this.trie, node, spelled := trie, trie.root, [];
    }

    /** The ids are exactly what may come next: some, unless the trie holds no key at all. */
    method Allowed() returns (ids: seq<Token>)
      requires Valid()
      ensures forall t :: t in ids <==> MayEmit(t, spelled, trie.keys, trie.retrieve)
      ensures ids == [] <==> trie.keys == {}
    {
      ids := [];
      var left := node.children.Keys;
      while left != {}
        invariant left <= node.children.Keys
        invariant forall t :: t in ids <==> t in node.children && t !in left
      {
        var t :| t in left;
        ids := ids + [t];
        left := left - {t};
      }
      if node.terminal {
        ids := ids + [trie.retrieve];
      }
      assert forall t :: t in ids <==> MayEmit(t, spelled, trie.keys, trie.retrieve);
      assert ids != [] ==> ids[0] in ids;
      if trie.keys != {} {
        ghost var t := NoDeadEnd(spelled, trie.keys, trie.retrieve);
        assert t in ids;
      }
    }

    method Advance(t: Token)
      requires Valid()
      modifies this
      ensures Valid()
      ensures spelled == if t != trie.retrieve && OnWay(old(spelled) + [t], trie.keys) then old(spelled) + [t] else []
    {
      if t != trie.retrieve && t in node.children {
        node, spelled := node.children[t], spelled + [t];
      } else {
        node, spelled := trie.root, [];
      }
    }

    method Reset()
      requires Valid()
      modifies this
      ensures Valid() && spelled == []
    {
      node, spelled := trie.root, [];
    }
  }
}
