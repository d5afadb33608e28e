/** A decoded text cut into what it says: plain tokens, answered queries with the answer they
    spell out, and queries that were never answered (generate.py, _advance_state). The protocol
    that drives the rows reads exactly these pieces. */
module QuerySegments {
  import opened Wrappers
  import opened Tokens
  import opened Decoding

  datatype Segment =
    | Plain(token: Token)
    | Answered(query: seq<Token>, value: Option<string>, spelled: nat)
    | Unanswered(ids: seq<Token>)

  /** What a hit puts into the text. */
  ghost function Spelling(value: string, setup: Setup): (tokens: seq<Token>)
    ensures |tokens| == |setup.encode(" " + value)| + 1 && tokens[|tokens| - 1] == setup.dbEnd
    ensures tokens[..|tokens| - 1] == setup.encode(" " + value)
  {
    setup.encode(" " + value) + [setup.dbEnd]
  }

  /** A possible piece of a text. A query is asked before its 32nd token; a hit spells its value
      and DB_END, a miss spells nothing. */
  ghost predicate Possible(s: Segment, setup: Setup, lookup: string -> Option<string>) {
    match s
    case Plain(token) => token != setup.dbStart
    case Answered(query, value, spelled) =>
      && |query| < 32 && setup.dbRetrieve !in query && value == lookup(setup.decode(query))
      && spelled <= if value.Some? then |Spelling(value.value, setup)| else 0
    case Unanswered(ids) => |ids| <= 32 && setup.dbRetrieve !in ids
  }

  /** Nothing is left of the piece: only the last one of a text may be cut short. */
  ghost predicate Whole(s: Segment, setup: Setup) {
    match s
    case Plain(token) => true
    case Answered(query, value, spelled) => value.Some? ==> spelled == |Spelling(value.value, setup)|
    case Unanswered(ids) => |ids| == 32
  }

  /** The tokens of one piece. */
  ghost function Piece(s: Segment, setup: Setup): seq<Token> {
    match s
    case Plain(token) => [token]
    case Answered(query, value, spelled) =>
      [setup.dbStart] + query + [setup.dbRetrieve]
      + (if value.Some? && spelled <= |Spelling(value.value, setup)| then Spelling(value.value, setup)[..spelled]
         else [])
    case Unanswered(ids) => [setup.dbStart] + ids
  }

  ghost function Pieces(segs: seq<Segment>, n: nat, setup: Setup): seq<Token>
    requires n <= |segs|
  {
    if n == 0 then [] else Pieces(segs, n - 1, setup) + Piece(segs[n - 1], setup)
  }

  /** The text is these pieces, all but the last one whole. */
  ghost predicate Segmented(text: seq<Token>, segs: seq<Segment>, setup: Setup, lookup: string -> Option<string>) {
    && text == Pieces(segs, |segs|, setup)
    && (forall j | 0 <= j < |segs| :: Possible(segs[j], setup, lookup))
    && (forall j | 0 <= j < |segs| - 1 :: Whole(segs[j], setup))
  }

  datatype Totals = Totals(begun: nat, asked: seq<seq<Token>>, hits: nat, misses: nat, malformed: nat)

  /** What the first n pieces say: queries begun, asked and abandoned, hits and misses. */
  ghost function Said(segs: seq<Segment>, n: nat): Totals
    requires n <= |segs|
  {
    if n == 0 then Totals(0, [], 0, 0, 0)
    else
      var before := Said(segs, n - 1);
      match segs[n - 1]
      case Plain(token) => before
      case Answered(query, value, spelled) =>
        before.(begun := before.begun + 1, asked := before.asked + [query],
          hits := before.hits + (if value.Some? then 1 else 0),
            misses := before.misses + (if value.None? then 1 else 0))
      case Unanswered(ids) =>
        before.(begun := before.begun + 1, malformed := before.malformed + (if |ids| == 32 then 1 else 0))
  }

  /** The text is cut into pieces that say what the protocol counts. */
  ghost predicate Explains(text: seq<Token>, segs: seq<Segment>, p: Protocol, setup: Setup,
                           lookup: string -> Option<string>) {
    && Segmented(text, segs, setup, lookup)
    && Said(segs, |segs|) == Totals(p.begun, p.asked, p.hits, p.misses, p.malformed)
    && (p.state == InQuery <==> segs != [] && segs[|segs| - 1].Unanswered? && |segs[|segs| - 1].ids| < 32)
  }

  /** Where the protocol stands is where the last piece stands. */
  ghost predicate Stands(p: Protocol, segs: seq<Segment>, setup: Setup) {
    if segs == [] then p.state == Free && p.force == []
    else
      match segs[|segs| - 1]
      case Plain(token) => p.state == Free && p.force == []
      case Answered(query, value, spelled) =>
        && p.state == Free
        && p.force == if value.Some? && spelled <= |Spelling(value.value, setup)| then
             Spelling(value.value, setup)[spelled..] else []
      case Unanswered(ids) =>
        && p.force == [] && (p.state == InQuery <==> |ids| < 32) && (p.state == InQuery ==> p.queryIds == ids)
  }

  lemma {:induction false} SamePrefix(a: seq<Segment>, b: seq<Segment>, n: nat, setup: Setup)
    requires n <= |a| && n <= |b| && a[..n] == b[..n]
    ensures Pieces(a, n, setup) == Pieces(b, n, setup) && Said(a, n) == Said(b, n)
  {
    if n > 0 {
      assert a[..n][n - 1] == b[..n][n - 1];
      assert a[..n][..n - 1] == a[..n - 1] && b[..n][..n - 1] == b[..n - 1];
      SamePrefix(a, b, n - 1, setup);
    }
  }

  /** A new piece behind whole ones. */
  lemma {:induction false} OnePieceMore(text: seq<Token>, segs: seq<Segment>, s: Segment, setup: Setup,
                                        lookup: string -> Option<string>, more: seq<Segment>)
    requires Segmented(text, segs, setup, lookup) && more == segs + [s] && Possible(s, setup, lookup)
    requires segs != [] ==> Whole(segs[|segs| - 1], setup)
    ensures Segmented(text + Piece(s, setup), more, setup, lookup) && Said(more, |segs|) == Said(segs, |segs|)
  {
    SamePrefix(more, segs, |segs|, setup);
  }

  /** The last piece grows by one token. */
  lemma {:induction false} LastPieceGrows(text: seq<Token>, segs: seq<Segment>, s: Segment, t: Token, setup: Setup,
                                          lookup: string -> Option<string>, more: seq<Segment>)
    requires Segmented(text, segs, setup, lookup) && segs != [] && Possible(s, setup, lookup)
    requires more == segs[|segs| - 1 := s] && Piece(s, setup) == Piece(segs[|segs| - 1], setup) + [t]
    ensures Segmented(text + [t], more, setup, lookup) && Said(more, |segs| - 1) == Said(segs, |segs| - 1)
  {
    SamePrefix(more, segs, |segs| - 1, setup);
    OtherPiecesStay(segs, more, s, setup, lookup);
    var front := Pieces(segs, |segs| - 1, setup);
    assert text + [t] == front + (Piece(segs[|segs| - 1], setup) + [t]);
  }

  lemma {:induction false} SpellOne(value: string, setup: Setup, k: nat)
    requires k < |Spelling(value, setup)|
    ensures Spelling(value, setup)[..k + 1] == Spelling(value, setup)[..k] + [Spelling(value, setup)[k]]
    ensures Spelling(value, setup)[k..][1..] == Spelling(value, setup)[k + 1..]
  {
  }

  /** The pieces after one more token. */
  ghost function Grown(segs: seq<Segment>, p: Protocol, t: Token, setup: Setup, lookup: string -> Option<string>)
    : seq<Segment>
    requires Stands(p, segs, setup)
  {
    if p.force == [] && p.state == Free then segs + [if t == setup.dbStart then Unanswered([]) else Plain(t)]
    else
      segs[|segs| - 1 :=
        match segs[|segs| - 1]
        case Answered(query, value, spelled) => Answered(query, value, spelled + 1)
        case Plain(token) => Plain(token)
        case Unanswered(ids) =>
          if t == setup.dbRetrieve then Answered(ids, lookup(setup.decode(ids)), 0) else Unanswered(ids + [t])]
  }

  /** A token that a hit forces continues its piece. */
  lemma {:induction false} ForcedPiece(text: seq<Token>, segs: seq<Segment>, p: Protocol, t: Token, setup: Setup,
                                       lookup: string -> Option<string>)
    requires Explains(text, segs, p, setup, lookup) && Stands(p, segs, setup) && p.force != [] && t == p.force[0]
    ensures var q, more := Next(p, t, lookup, setup), Grown(segs, p, t, setup, lookup);
      Explains(text + [t], more, q, setup, lookup) && Stands(q, more, setup)
  {
    var last := segs[|segs| - 1];
    var s := Answered(last.query, last.value, last.spelled + 1);
    SpellOne(last.value.value, setup, last.spelled);
    assert Piece(s, setup) == Piece(last, setup) + [t];
    LastPieceGrows(text, segs, s, t, setup, lookup, segs[|segs| - 1 := s]);
  }

  /** Outside a query a token is plain or opens one. */
  lemma {:induction false} FreePiece(text: seq<Token>, segs: seq<Segment>, p: Protocol, t: Token, setup: Setup,
                                     lookup: string -> Option<string>)
    requires Explains(text, segs, p, setup, lookup) && Stands(p, segs, setup) && p.force == [] && p.state == Free
    ensures var q, more := Next(p, t, lookup, setup), Grown(segs, p, t, setup, lookup);
      Explains(text + [t], more, q, setup, lookup) && Stands(q, more, setup)
  {
    var s := if t == setup.dbStart then Unanswered([]) else Plain(t);
    assert Piece(s, setup) == [t];
    OnePieceMore(text, segs, s, setup, lookup, segs + [s]);
  }

  /** Inside a query the retrieve token asks it, and any other token lengthens it. */
  lemma {:induction false} QueryPiece(text: seq<Token>, segs: seq<Segment>, p: Protocol, t: Token, setup: Setup,
                                      lookup: string -> Option<string>)
    requires Explains(text, segs, p, setup, lookup) && Stands(p, segs, setup) && p.force == [] && p.state == InQuery
    ensures var q, more := Next(p, t, lookup, setup), Grown(segs, p, t, setup, lookup);
      Explains(text + [t], more, q, setup, lookup) && Stands(q, more, setup)
  {
    var ids := segs[|segs| - 1].ids;
    if t == setup.dbRetrieve {
      var value := lookup(setup.decode(ids));
      var s := Answered(ids, value, 0);
      assert Piece(s, setup) == Piece(Unanswered(ids), setup) + [t];
      LastPieceGrows(text, segs, s, t, setup, lookup, segs[|segs| - 1 := s]);
      if value.Some? {
        assert Spelling(value.value, setup)[0..] == Spelling(value.value, setup);
      }
    } else {
      var s := Unanswered(ids + [t]);
      assert Piece(s, setup) == Piece(Unanswered(ids), setup) + [t];
      LastPieceGrows(text, segs, s, t, setup, lookup, segs[|segs| - 1 := s]);
    }
  }

  /** One more token, forced if a hit forces it. */
  lemma {:induction false} PiecesGrow(text: seq<Token>, segs: seq<Segment>, p: Protocol, t: Token, setup: Setup,
                                      lookup: string -> Option<string>)
    requires Explains(text, segs, p, setup, lookup) && Stands(p, segs, setup) && (p.force != [] ==> t == p.force[0])
    ensures var q, more := Next(p, t, lookup, setup), Grown(segs, p, t, setup, lookup);
      Explains(text + [t], more, q, setup, lookup) && Stands(q, more, setup)
  {
    if p.force != [] {
      ForcedPiece(text, segs, p, t, setup, lookup);
    } else if p.state == Free {
      FreePiece(text, segs, p, t, setup, lookup);
    } else {
      QueryPiece(text, segs, p, t, setup, lookup);
    }
  }

  lemma {:induction false} Segments(text: seq<Token>, n: nat, setup: Setup) returns (segs: seq<Segment>)
    requires Follows(text, setup) && n <= |text| && setup.organizer.Some?
    ensures Explains(text[..n], segs, After(text, n, setup), setup, setup.organizer.value)
    ensures Stands(After(text, n, setup), segs, setup)
  {
    if n == 0 {
      segs := [];
    } else {
      var before := Segments(text, n - 1, setup);
      var p, t := After(text, n - 1, setup), text[n - 1];
      assert text[..n] == text[..n - 1] + [t];
      PiecesGrow(text[..n - 1], before, p, t, setup, setup.organizer.value);
      segs := Grown(before, p, t, setup, setup.organizer.value);
    }
  }

  /** The text is cut into pieces that say what the protocol counts of it, if the store is on. */
  ghost predicate Explained(text: seq<Token>, setup: Setup) {
    setup.organizer.Some? ==>
      exists segs :: Explains(text, segs, After(text, |text|, setup), setup, setup.organizer.value)
  }

  lemma {:induction false} TextExplained(text: seq<Token>, setup: Setup)
    requires Follows(text, setup)
    ensures Explained(text, setup)
  {
    if setup.organizer.Some? {
      var segs := Segments(text, |text|, setup);
      assert text[..|text|] == text;
    }
  }

  // ----- and back -----

  /** The pieces before the last token. */
  ghost function Shorter(segs: seq<Segment>): seq<Segment>
    requires segs != []
  {
    var n := |segs| - 1;
    match segs[n]
    case Plain(token) => segs[..n]
    case Answered(query, value, spelled) =>
      segs[n := if spelled > 0 then Answered(query, value, spelled - 1) else Unanswered(query)]
    case Unanswered(ids) => if ids == [] then segs[..n] else segs[n := Unanswered(ids[..|ids| - 1])]
  }

  lemma {:induction false} WithoutLast(text: seq<Token>, segs: seq<Segment>, setup: Setup,
                                       lookup: string -> Option<string>)
    requires Segmented(text, segs, setup, lookup) && segs != [] && |Piece(segs[|segs| - 1], setup)| == 1
    ensures text != [] && Segmented(text[..|text| - 1], segs[..|segs| - 1], setup, lookup)
    ensures Piece(segs[|segs| - 1], setup) == [text[|text| - 1]]
  {
    SamePrefix(segs, segs[..|segs| - 1], |segs| - 1, setup);
    assert text[..|text| - 1] == Pieces(segs, |segs| - 1, setup);
  }

  lemma {:induction false} LastPieceShrinks(text: seq<Token>, segs: seq<Segment>, s: Segment, setup: Setup,
                                            lookup: string -> Option<string>, fewer: seq<Segment>)
    requires Segmented(text, segs, setup, lookup) && segs != [] && fewer == segs[|segs| - 1 := s]
    requires text != [] && Possible(s, setup, lookup)
    requires Piece(segs[|segs| - 1], setup) == Piece(s, setup) + [text[|text| - 1]]
    ensures Segmented(text[..|text| - 1], fewer, setup, lookup)
  {
    var n, front := |segs| - 1, Pieces(segs, |segs| - 1, setup);
    SamePrefix(segs, fewer, n, setup);
    WithoutEnd(text, front, Piece(s, setup), text[|text| - 1]);
    OtherPiecesStay(segs, fewer, s, setup, lookup);
  }

  lemma {:induction false} WithoutEnd(text: seq<Token>, front: seq<Token>, piece: seq<Token>, t: Token)
    requires text == front + (piece + [t])
    ensures text[..|text| - 1] == front + piece
  {
  }

  /** Replacing the last piece leaves the others possible and whole. */
  lemma {:induction false} OtherPiecesStay(segs: seq<Segment>, others: seq<Segment>, s: Segment, setup: Setup,
                                           lookup: string -> Option<string>)
    requires segs != [] && others == segs[|segs| - 1 := s] && Possible(s, setup, lookup)
    requires (forall j | 0 <= j < |segs| :: Possible(segs[j], setup, lookup))
      && forall j | 0 <= j < |segs| - 1 :: Whole(segs[j], setup)
    ensures (forall j | 0 <= j < |others| :: Possible(others[j], setup, lookup))
      && forall j | 0 <= j < |others| - 1 :: Whole(others[j], setup)
  {
  }

  lemma {:induction false} Shrunk(text: seq<Token>, segs: seq<Segment>, setup: Setup,
                                  lookup: string -> Option<string>)
    requires Segmented(text, segs, setup, lookup) && segs != []
    ensures text != [] && Segmented(text[..|text| - 1], Shorter(segs), setup, lookup)
  {
    PiecesNonempty(text, segs, setup, lookup);
    match segs[|segs| - 1]
    case Plain(token) => WithoutLast(text, segs, setup, lookup);
    case Answered(query, value, spelled) =>
      var s := Shorter(segs)[|segs| - 1];
      if spelled > 0 {
        SpellOne(value.value, setup, spelled - 1);
      }
      PieceShrinks(text, segs, s, setup, lookup);
    case Unanswered(ids) =>
      if ids == [] {
        WithoutLast(text, segs, setup, lookup);
      } else {
        assert ids == ids[..|ids| - 1] + [ids[|ids| - 1]];
        PieceShrinks(text, segs, Shorter(segs)[|segs| - 1], setup, lookup);
      }
  }

  lemma {:induction false} PiecesNonempty(text: seq<Token>, segs: seq<Segment>, setup: Setup,
                                          lookup: string -> Option<string>)
    requires Segmented(text, segs, setup, lookup) && segs != []
    ensures text != [] && Piece(segs[|segs| - 1], setup) != []
    ensures text[|text| - 1] == Piece(segs[|segs| - 1], setup)[|Piece(segs[|segs| - 1], setup)| - 1]
  {
  }

  lemma {:induction false} PieceShrinks(text: seq<Token>, segs: seq<Segment>, s: Segment, setup: Setup,
                                        lookup: string -> Option<string>)
    requires Segmented(text, segs, setup, lookup) && segs != [] && text != [] && Possible(s, setup, lookup)
    requires var whole := Piece(segs[|segs| - 1], setup);
      whole != [] && text[|text| - 1] == whole[|whole| - 1] && Piece(s, setup) == whole[..|whole| - 1]
    ensures Segmented(text[..|text| - 1], segs[|segs| - 1 := s], setup, lookup)
  {
    LastPieceShrinks(text, segs, s, setup, lookup, segs[|segs| - 1 := s]);
  }

  lemma {:induction false} FirstTokenBack(segs: seq<Segment>, s: Segment, p: Protocol, t: Token, setup: Setup,
                                          lookup: string -> Option<string>)
    requires Stands(p, segs, setup) && (segs != [] ==> Whole(segs[|segs| - 1], setup))
    requires s == if t == setup.dbStart then Unanswered([]) else Plain(t)
    ensures p.force == [] && Grown(segs, p, t, setup, lookup) == segs + [s]
  {
  }

  lemma {:induction false} SpelledBack(segs: seq<Segment>, s: Segment, p: Protocol, t: Token, setup: Setup,
                                       lookup: string -> Option<string>)
    requires s.Answered? && s.spelled > 0 && Possible(s, setup, lookup)
    requires segs != [] && segs[|segs| - 1] == s.(spelled := s.spelled - 1) && Stands(p, segs, setup)
    requires t == Piece(s, setup)[|Piece(s, setup)| - 1]
    ensures p.force != [] && t == p.force[0]
    ensures Grown(segs, p, t, setup, lookup) == segs[|segs| - 1 := s]
  {
    SpellOne(s.value.value, setup, s.spelled - 1);
  }

  lemma {:induction false} QueryBack(segs: seq<Segment>, s: Segment, p: Protocol, t: Token, setup: Setup,
                                     lookup: string -> Option<string>)
    requires Possible(s, setup, lookup) && segs != [] && Stands(p, segs, setup)
    requires if t == setup.dbRetrieve then s.Answered? && s.spelled == 0 && segs[|segs| - 1] == Unanswered(s.query)
      else s.Unanswered? && s.ids != [] && t == s.ids[|s.ids| - 1]
           && segs[|segs| - 1] == Unanswered(s.ids[..|s.ids| - 1])
    ensures p.force == [] && Grown(segs, p, t, setup, lookup) == segs[|segs| - 1 := s]
  {
    if s.Unanswered? {
      assert s.ids == s.ids[..|s.ids| - 1] + [t];
    }
  }

  lemma {:induction false} GrowsBack(segs: seq<Segment>, p: Protocol, t: Token, setup: Setup,
                                     lookup: string -> Option<string>)
    requires segs != [] && Stands(p, Shorter(segs), setup) && Possible(segs[|segs| - 1], setup, lookup)
    requires |segs| > 1 ==> Whole(segs[|segs| - 2], setup)
    requires var piece := Piece(segs[|segs| - 1], setup); t == piece[|piece| - 1]
    ensures p.force != [] ==> t == p.force[0]
    ensures Grown(Shorter(segs), p, t, setup, lookup) == segs
  {
    var s := segs[|segs| - 1];
    if s.Plain? || (s.Unanswered? && s.ids == []) {
      FirstTokenBack(segs[..|segs| - 1], s, p, t, setup, lookup);
    } else if s.Answered? && s.spelled > 0 {
      SpelledBack(Shorter(segs), s, p, t, setup, lookup);
    } else {
      QueryBack(Shorter(segs), s, p, t, setup, lookup);
    }
  }

  /** A text made of such pieces spells its hits out, and says what its pieces say. */
  lemma {:induction false} PiecesAreRead(text: seq<Token>, segs: seq<Segment>, setup: Setup)
    requires setup.organizer.Some? && Segmented(text, segs, setup, setup.organizer.value)
    ensures Follows(text, setup) && Stands(After(text, |text|, setup), segs, setup)
    ensures Explains(text, segs, After(text, |text|, setup), setup, setup.organizer.value)
    decreases |text|
  {
    var lookup := setup.organizer.value;
    if segs != [] {
      Shrunk(text, segs, setup, lookup);
      var before, t := text[..|text| - 1], text[|text| - 1];
      PiecesAreRead(before, Shorter(segs), setup);
      var p := After(before, |before|, setup);
      PiecesNonempty(text, segs, setup, lookup);
      GrowsBack(segs, p, t, setup, lookup);
      PiecesGrow(before, Shorter(segs), p, t, setup, lookup);
      assert before + [t] == text;
      AfterOneMore(before, t, setup);
    }
  }

  /** Spelling every hit out is being made of such pieces, whichever they are. */
  lemma {:induction false} FollowsIffSegmented(text: seq<Token>, setup: Setup)
    requires setup.organizer.Some?
    ensures Follows(text, setup) <==> exists segs :: Segmented(text, segs, setup, setup.organizer.value)
    ensures forall segs | Segmented(text, segs, setup, setup.organizer.value) ::
      Explains(text, segs, After(text, |text|, setup), setup, setup.organizer.value)
  {
    if Follows(text, setup) {
      var segs := Segments(text, |text|, setup);
      assert text[..|text|] == text;
    }
    forall segs | Segmented(text, segs, setup, setup.organizer.value)
      ensures Follows(text, setup) && Explains(text, segs, After(text, |text|, setup), setup, setup.organizer.value)
    {
      PiecesAreRead(text, segs, setup);
    }
  }
}
