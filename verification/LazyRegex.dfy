/** The regular expressions that the problem parser uses, with Python's backtracking: lazy
    groups take as little as they can, digit groups as much (re.fullmatch and re.search). */
module LazyRegex {
  import opened Wrappers

  /** End matches the end only, Stop anywhere; Lazy is (.+?), Number (\d+), OneOf (a|b|c). */
  datatype Pattern = End | Stop | Lit(text: string, rest: Pattern) | Lazy(rest: Pattern) | Number(rest: Pattern)
    | OneOf(words: seq<string>, rest: Pattern)

  ghost function Groups(p: Pattern): nat {
    match p
    case End => 0
    case Stop => 0
    case Lit(_, rest) => Groups(rest)
    case Lazy(rest) => 1 + Groups(rest)
    case Number(rest) => 1 + Groups(rest)
    case OneOf(_, rest) => 1 + Groups(rest)
  }

  predicate IsDigit(c: char) { '0' <= c <= '9' }

  function DigitRun(s: string): (n: nat)
    ensures n <= |s|
  {
    if s != "" && IsDigit(s[0]) then 1 + DigitRun(s[1..]) else 0
  }

  /** The groups of the first match that starts at the front, as backtracking finds it. */
  function Run(p: Pattern, s: string): (groups: Option<seq<string>>)
    ensures groups.Some? ==> |groups.value| == Groups(p)
    decreases p, 0
  {
    match p
    case End => if s == "" then Some([]) else None
    case Stop => Some([])
    case Lit(text, rest) => if text <= s then Run(rest, s[|text|..]) else None
    case Lazy(rest) => FirstLazy(rest, s, 1)
    case Number(rest) => LongestDigits(rest, s, DigitRun(s))
    case OneOf(words, rest) => FirstWord(words, rest, s)
  }

  /** One more character at a time, never a line break. */
  function FirstLazy(rest: Pattern, s: string, n: nat): (groups: Option<seq<string>>)
    requires 1 <= n
    ensures groups.Some? ==> |groups.value| == 1 + Groups(rest)
    decreases rest, 1, |s| + 1 - n
  {
    if n > |s| || s[n - 1] == '\n' then None
    else
      match Run(rest, s[n..])
      case Some(groups) => Some([s[..n]] + groups)
      case None => FirstLazy(rest, s, n + 1)
  }

  /** One digit fewer at a time. */
  function LongestDigits(rest: Pattern, s: string, n: nat): (groups: Option<seq<string>>)
    requires n <= |s|
    ensures groups.Some? ==> |groups.value| == 1 + Groups(rest)
    decreases rest, 1, n
  {
    if n == 0 then None
    else
      match Run(rest, s[n..])
      case Some(groups) => Some([s[..n]] + groups)
      case None => LongestDigits(rest, s, n - 1)
  }

  function FirstWord(words: seq<string>, rest: Pattern, s: string): (groups: Option<seq<string>>)
    ensures groups.Some? ==> |groups.value| == 1 + Groups(rest)
    decreases rest, 1, |words|
  {
    if words == [] then None
    else
      match if words[0] <= s then Run(rest, s[|words[0]|..]) else None
      case Some(groups) => Some([words[0]] + groups)
      case None => FirstWord(words[1..], rest, s)
  }

  /** re.search: the leftmost start that matches. */
  function Search(p: Pattern, s: string): (groups: Option<seq<string>>)
    ensures groups.Some? ==> |groups.value| == Groups(p)
    decreases |s|
  {
    if Run(p, s).Some? || s == "" then Run(p, s) else Search(p, s[1..])
  }

  // ----- what a match is -----

  /** These groups match: the text is the pattern's literals with the groups between them. */
  ghost predicate Matches(p: Pattern, s: string, groups: seq<string>) {
    match p
    case End => s == "" && groups == []
    case Stop => groups == []
    case Lit(text, rest) => text <= s && Matches(rest, s[|text|..], groups)
    case Lazy(rest) => groups != [] && groups[0] != "" && '\n' !in groups[0] && Leads(rest, s, groups)
    case Number(rest) =>
      groups != [] && groups[0] != "" && (forall c | c in groups[0] :: '0' <= c <= '9') && Leads(rest, s, groups)
    case OneOf(words, rest) => groups != [] && groups[0] in words && Leads(rest, s, groups)
  }

  /** The first group is in front, and the others match what follows it. */
  ghost predicate Leads(rest: Pattern, s: string, groups: seq<string>)
    requires groups != []
  {
    groups[0] <= s && Matches(rest, s[|groups[0]|..], groups[1..])
  }

  /** Of two matches backtracking finds the one with the shorter lazy group, the longer number or
      the earlier word, wherever they differ first. */
  ghost predicate Prefers(p: Pattern, a: seq<string>, b: seq<string>) {
    match p
    case End => true
    case Stop => true
    case Lit(_, rest) => Prefers(rest, a, b)
    case Lazy(rest) =>
      a != [] && b != [] && (|a[0]| < |b[0]| || (a[0] == b[0] && Prefers(rest, a[1..], b[1..])))
    case Number(rest) =>
      a != [] && b != [] && (|a[0]| > |b[0]| || (a[0] == b[0] && Prefers(rest, a[1..], b[1..])))
    case OneOf(words, rest) =>
      a != [] && b != []
      && (Earlier(words, a[0], b[0]) || (a[0] == b[0] && Prefers(rest, a[1..], b[1..])))
  }

  ghost predicate Earlier(words: seq<string>, v: string, w: string) {
    exists i :: 0 <= i < |words| && words[i] == v && w !in words[..i + 1]
  }

  /** What is found matches. */
  lemma {:induction false} FoundMatches(p: Pattern, s: string)
    requires Run(p, s).Some?
    ensures Matches(p, s, Run(p, s).value)
    decreases p, 0
  {
    match p
    case End =>
    case Stop =>
    case Lit(text, rest) => FoundMatches(rest, s[|text|..]);
    case Lazy(rest) => LazyMatches(rest, s, 1);
    case Number(rest) => NumberMatches(rest, s, DigitRun(s));
    case OneOf(words, rest) => WordMatches(words, rest, s);
  }

  lemma {:induction false} Continues(rest: Pattern, s: string, n: nat)
    requires n <= |s| && Run(rest, s[n..]).Some? && Matches(rest, s[n..], Run(rest, s[n..]).value)
    ensures Leads(rest, s, [s[..n]] + Run(rest, s[n..]).value)
  {
    var groups := [s[..n]] + Run(rest, s[n..]).value;
    assert groups[1..] == Run(rest, s[n..]).value;
  }

  lemma {:induction false} LazyMatches(rest: Pattern, s: string, n: nat)
    requires 1 <= n && FirstLazy(rest, s, n).Some? && (n <= |s| ==> '\n' !in s[..n - 1])
    ensures Matches(Lazy(rest), s, FirstLazy(rest, s, n).value)
    decreases rest, 1, |s| + 1 - n
  {
    assert s[..n] == s[..n - 1] + [s[n - 1]];
    if Run(rest, s[n..]).Some? {
      FoundMatches(rest, s[n..]);
      Continues(rest, s, n);
    } else {
      LazyMatches(rest, s, n + 1);
    }
  }

  lemma {:induction false} NumberMatches(rest: Pattern, s: string, n: nat)
    requires n <= DigitRun(s) && LongestDigits(rest, s, n).Some?
    ensures Matches(Number(rest), s, LongestDigits(rest, s, n).value)
    decreases rest, 1, n
  {
    if Run(rest, s[n..]).Some? {
      FoundMatches(rest, s[n..]);
      Continues(rest, s, n);
      DigitsInRun(s, n);
    } else {
      NumberMatches(rest, s, n - 1);
    }
  }

  lemma {:induction false} DigitsInRun(s: string, n: nat)
    requires n <= |s|
    ensures n <= DigitRun(s) <==> forall i | 0 <= i < n :: '0' <= s[i] <= '9'
  {
    if n > 0 {
      if IsDigit(s[0]) {
        DigitsInRun(s[1..], n - 1);
        assert forall i | 0 <= i < n - 1 :: s[1..][i] == s[i + 1];
        assert forall i | 1 <= i < n :: s[i] == s[1..][i - 1];
      }
    }
  }

  lemma {:induction false} WordMatches(words: seq<string>, rest: Pattern, s: string)
    requires FirstWord(words, rest, s).Some?
    ensures Matches(OneOf(words, rest), s, FirstWord(words, rest, s).value)
    decreases rest, 1, |words|
  {
    if words[0] <= s && Run(rest, s[|words[0]|..]).Some? {
      FoundMatches(rest, s[|words[0]|..]);
      Continues(rest, s, |words[0]|);
    } else {
      WordMatches(words[1..], rest, s);
    }
  }

  /** Whatever matches, something is found, and nothing is preferred to it. */
  lemma {:induction false} MatchIsFound(p: Pattern, s: string, groups: seq<string>)
    requires Matches(p, s, groups)
    ensures Run(p, s).Some? && (Run(p, s).value == groups || Prefers(p, Run(p, s).value, groups))
    decreases p, 0
  {
    match p
    case End =>
    case Stop =>
    case Lit(text, rest) => MatchIsFound(rest, s[|text|..], groups);
    case Lazy(rest) => LazyIsFound(rest, s, groups, 1);
    case Number(rest) =>
      assert forall i | 0 <= i < |groups[0]| :: s[i] == groups[0][i] && s[i] in groups[0];
      DigitsInRun(s, |groups[0]|);
      NumberIsFound(rest, s, groups, DigitRun(s));
    case OneOf(words, rest) => WordIsFound(words, rest, s, groups);
  }

  lemma {:induction false} SameHead(rest: Pattern, s: string, groups: seq<string>, n: nat)
    requires groups != [] && Leads(rest, s, groups) && n == |groups[0]| && Run(rest, s[n..]).Some?
    requires Run(rest, s[n..]).value == groups[1..] || Prefers(rest, Run(rest, s[n..]).value, groups[1..])
    ensures s[..n] == groups[0]
    ensures var found := [s[..n]] + Run(rest, s[n..]).value;
      found == groups || Prefers(rest, found[1..], groups[1..])
  {
    var found := [s[..n]] + Run(rest, s[n..]).value;
    assert found[1..] == Run(rest, s[n..]).value && groups == [groups[0]] + groups[1..];
  }

  lemma {:induction false} LazyIsFound(rest: Pattern, s: string, groups: seq<string>, n: nat)
    requires Matches(Lazy(rest), s, groups) && 1 <= n <= |groups[0]|
    ensures FirstLazy(rest, s, n).Some?
    ensures var found := FirstLazy(rest, s, n).value; found == groups || Prefers(Lazy(rest), found, groups)
    decreases rest, 1, |s| + 1 - n
  {
    assert s[n - 1] == groups[0][n - 1];
    if n == |groups[0]| {
      MatchIsFound(rest, s[n..], groups[1..]);
      SameHead(rest, s, groups, n);
    } else if Run(rest, s[n..]).None? {
      LazyIsFound(rest, s, groups, n + 1);
    }
  }

  lemma {:induction false} NumberIsFound(rest: Pattern, s: string, groups: seq<string>, n: nat)
    requires Matches(Number(rest), s, groups) && |groups[0]| <= n <= |s|
    ensures LongestDigits(rest, s, n).Some?
    ensures var found := LongestDigits(rest, s, n).value; found == groups || Prefers(Number(rest), found, groups)
    decreases rest, 1, n
  {
    if n == |groups[0]| {
      MatchIsFound(rest, s[n..], groups[1..]);
      SameHead(rest, s, groups, n);
    } else if Run(rest, s[n..]).None? {
      NumberIsFound(rest, s, groups, n - 1);
    }
  }

  lemma {:induction false} WordIsFound(words: seq<string>, rest: Pattern, s: string, groups: seq<string>)
    requires Matches(OneOf(words, rest), s, groups)
    ensures FirstWord(words, rest, s).Some?
    ensures var found := FirstWord(words, rest, s).value; found == groups || Prefers(OneOf(words, rest), found, groups)
    decreases rest, 1, |words|
  {
    if words[0] == groups[0] {
      MatchIsFound(rest, s[|words[0]|..], groups[1..]);
      SameHead(rest, s, groups, |words[0]|);
    } else if words[0] <= s && Run(rest, s[|words[0]|..]).Some? {
      assert words[0] == words[0] && groups[0] !in words[..1];
      assert Earlier(words, words[0], groups[0]);
    } else {
      WordIsFound(words[1..], rest, s, groups);
      LaterWords(words, rest, FirstWord(words[1..], rest, s).value, groups);
    }
  }

  lemma {:induction false} LaterWords(words: seq<string>, rest: Pattern, found: seq<string>, groups: seq<string>)
    requires words != [] && groups != [] && words[0] != groups[0]
    requires found == groups || Prefers(OneOf(words[1..], rest), found, groups)
    ensures found == groups || Prefers(OneOf(words, rest), found, groups)
  {
    if found != groups && Earlier(words[1..], found[0], groups[0]) {
      var i :| 0 <= i < |words[1..]| && words[1..][i] == found[0] && groups[0] !in words[1..][..i + 1];
      assert words[i + 1] == found[0] && words[..i + 2] == [words[0]] + words[1..][..i + 1];
    }
  }

  /** A search takes the leftmost place at which something matches. */
  lemma {:induction false} SearchIsLeftmost(p: Pattern, s: string) returns (i: nat)
    ensures i <= |s| && Search(p, s) == Run(p, s[i..])
    ensures Search(p, s).Some? ==> forall j | 0 <= j < i :: Run(p, s[j..]) == None
    ensures Search(p, s).None? ==> forall j | 0 <= j <= |s| :: Run(p, s[j..]) == None
    decreases |s|
  {
    assert s[0..] == s;
    if Run(p, s).Some? || s == "" {
      i := 0;
    } else {
      var k := SearchIsLeftmost(p, s[1..]);
      i := k + 1;
      assert forall j | 0 <= j < |s| :: s[1..][j..] == s[j + 1..];
      assert forall j | 1 <= j <= |s| :: s[j..] == s[1..][j - 1..];
    }
  }

  // ----- matching a known text -----

  lemma {:induction false} LitTakes(text: string, rest: Pattern, x: string)
    ensures Run(Lit(text, rest), text + x) == Run(rest, x)
  {
    assert (text + x)[|text|..] == x && text <= text + x;
  }

  /** The lazy group is the first k characters when what follows matches there and at no earlier place. */
  lemma {:induction false} LazyTakes(rest: Pattern, s: string, k: nat, n: nat)
    requires 1 <= n <= k <= |s| && '\n' !in s[..k] && Run(rest, s[k..]).Some?
    requires forall m | n <= m < k :: Run(rest, s[m..]) == None
    ensures FirstLazy(rest, s, n) == Some([s[..k]] + Run(rest, s[k..]).value)
    decreases k - n
  {
    assert s[n - 1] in s[..k];
    if n < k {
      LazyTakes(rest, s, k, n + 1);
    }
  }

  /** The same, for a text put together. */
  lemma {:induction false} LazyIs(rest: Pattern, a: string, x: string, s: string)
    requires s == a + x && a != "" && '\n' !in a && Run(rest, x).Some? && forall m | 1 <= m < |a| ::
      Run(rest, s[m..]) == None
    ensures Run(Lazy(rest), s) == Some([a] + Run(rest, x).value)
  {
    assert s[|a|..] == x && s[..|a|] == a;
    LazyTakes(rest, s, |a|, 1);
  }

  lemma {:induction false} LazyNever(rest: Pattern, s: string, n: nat)
    requires 1 <= n && forall m | n <= m <= |s| :: Run(rest, s[m..]) == None
    ensures FirstLazy(rest, s, n) == None
    decreases |s| + 1 - n
  {
    if n <= |s| && s[n - 1] != '\n' {
      LazyNever(rest, s, n + 1);
    }
  }

  ghost predicate AllDigits(d: string) { forall i | 0 <= i < |d| :: IsDigit(d[i]) }

  lemma {:induction false} RunOfDigits(d: string, x: string)
    requires AllDigits(d) && (x == "" || !IsDigit(x[0]))
    ensures DigitRun(d + x) == |d|
  {
    if d == "" {
      assert d + x == x;
    } else {
      assert (d + x)[1..] == d[1..] + x;
      RunOfDigits(d[1..], x);
    }
  }

  /** The digit group is the whole run of digits. */
  lemma {:induction false} NumberTakes(rest: Pattern, d: string, x: string)
    requires d != "" && AllDigits(d) && (x == "" || !IsDigit(x[0])) && Run(rest, x).Some?
    ensures Run(Number(rest), d + x) == Some([d] + Run(rest, x).value)
  {
    RunOfDigits(d, x);
    assert (d + x)[|d|..] == x && (d + x)[..|d|] == d;
  }

  /** The first alternative is `w` when no earlier one is in front. */
  lemma {:induction false} WordTakes(words: seq<string>, rest: Pattern, i: nat, x: string)
    requires i < |words| && Run(rest, x).Some? && forall j | 0 <= j < i :: !(words[j] <= words[i] + x)
    ensures FirstWord(words, rest, words[i] + x) == Some([words[i]] + Run(rest, x).value)
    decreases i
  {
    if i == 0 {
      LitTakes(words[0], rest, x);
    } else {
      WordTakes(words[1..], rest, i - 1, x);
    }
  }

  lemma {:induction false} WordNever(words: seq<string>, rest: Pattern, s: string)
    requires forall j | 0 <= j < |words| :: Run(Lit(words[j], rest), s) == None
    ensures FirstWord(words, rest, s) == None
    decreases |words|
  {
    if words != [] {
      assert Run(Lit(words[0], rest), s) == None;
      WordNever(words[1..], rest, s);
    }
  }

  // ----- words that do not occur -----

  /** No word of s after a space begins like this. */
  ghost predicate Avoids(s: string, key: string) {
    forall p | 0 <= p < |s| && s[p] == ' ' :: !(key <= s[p + 1..])
  }

  lemma {:induction false} FrontMeans(text: string, key: string, s: string)
    requires text != "" && text[0] == ' ' && key <= text[1..] && text <= s
    ensures s[0] == ' ' && key <= s[1..]
  {
    assert text[1..] <= s[1..];
  }

  /** Text that begins with a space and the key is nowhere in front. */
  lemma {:induction false} MissesAvoided(text: string, key: string, s: string, m: nat)
    requires Avoids(s, key) && m <= |s| && text != "" && text[0] == ' ' && key <= text[1..]
    ensures !(text <= s[m..])
  {
    if m < |s| {
      assert s[m..][1..] == s[m + 1..];
    }
    if text <= s[m..] {
      FrontMeans(text, key, s[m..]);
      assert false;
    }
  }

  ghost predicate NoSpace(s: string) { forall i | 0 <= i < |s| :: s[i] != ' ' }

  /** A key in front of two texts lies in the first, or reaches into the second. */
  lemma {:induction false} KeyStraddles(key: string, left: string, x: string)
    requires key <= left + x && !(key <= left)
    ensures |left| < |key| && x != "" && key[|left|] == x[0]
  {
    assert forall i | 0 <= i < |key| :: key[i] == (left + x)[i];
  }

  /** Nor is it in front of what is left of such a text before another space. */
  lemma {:induction false} MissesBefore(text: string, key: string, a: string, x: string, m: nat)
    requires Avoids(a, key) && NoSpace(key) && x != "" && x[0] == ' ' && m < |a| && text != "" && text[0] == ' '
      && key <= text[1..]
    ensures !(text <= (a + x)[m..])
  {
    if text <= (a + x)[m..] {
      FrontMeans(text, key, (a + x)[m..]);
      assert (a + x)[m..][1..] == a[m + 1..] + x;
      KeyStraddles(key, a[m + 1..], x);
      assert false;
    }
  }

  lemma {:induction false} AvoidsJoin(a: string, x: string, key: string)
    requires Avoids(a, key) && Avoids(x, key) && (x == "" || forall i | 0 <= i < |key| :: key[i] != x[0])
    ensures Avoids(a + x, key)
  {
    forall p | 0 <= p < |a + x| && (a + x)[p] == ' '
      ensures !(key <= (a + x)[p + 1..])
    {
      if p >= |a| {
        assert (a + x)[p + 1..] == x[p - |a| + 1..];
      } else {
        assert (a + x)[p + 1..] == a[p + 1..] + x;
        if key <= a[p + 1..] + x {
          KeyStraddles(key, a[p + 1..], x);
          assert false;
        }
      }
    }
  }

  lemma {:induction false} AvoidsSpaced(a: string, x: string, key: string)
    requires Avoids(a, key) && Avoids(x, key) && NoSpace(key) && x != "" && x[0] == ' '
    ensures Avoids(a + x, key)
  {
    AvoidsJoin(a, x, key);
  }

  lemma {:induction false} AvoidsSolid(s: string, key: string)
    requires NoSpace(s)
    ensures Avoids(s, key)
  {
  }

  /** A word that does not begin like the key, after a space. */
  lemma {:induction false} AvoidsWord(word: string, key: string)
    requires NoSpace(word) && !(key <= word)
    ensures Avoids(" " + word, key)
  {
    assert (" " + word)[1..] == word;
    assert forall p | 0 < p <= |word| :: (" " + word)[p] == word[p - 1];
  }

  lemma {:induction false} AvoidsTail(s: string, key: string)
    requires Avoids(s, key) && s != ""
    ensures Avoids(s[1..], key)
  {
    forall p | 0 <= p < |s| - 1 && s[1..][p] == ' '
      ensures !(key <= s[1..][p + 1..])
    {
      assert s[1..][p + 1..] == s[p + 2..] && s[p + 1] == ' ';
    }
  }
}
