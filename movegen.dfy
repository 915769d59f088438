/** generate_all_moves: every move the player to move could try, as a value and as the loop that builds it. */
module MoveGen {
  import opened Wrappers
  import opened Ranks
  import opened GameStates
  import opened Engine
  import opened BoundedArrays
  import opened Additions

  /** The patterns tried for a card: ADDITIONS_BY_RANK[rank_to_int(card)]. */
  function Patterns(card: Rank): seq<RankMask> {
    ADDITIONS_BY_RANK[RankToInt(card)]
  }

  /**
   * One pass of the inner loop: a pattern whose ranks are all among the low table cards gives the
   * move `pattern | card`, which is appended unless the list already holds it.
   */
  function TryPattern(acc: seq<RankMask>, card: Rank, p: RankMask, low: RankMask): seq<RankMask> {
    if p * low == p && p + card.Bit() !in acc then acc + [p + card.Bit()] else acc
  }

  /** The inner loop over a prefix of a card's patterns, in table order. */
  function TryPatterns(acc: seq<RankMask>, card: Rank, pats: seq<RankMask>, low: RankMask): seq<RankMask>
    decreases |pats|
  {
    if pats == [] then acc
    else TryPattern(TryPatterns(acc, card, pats[..|pats| - 1], low), card, pats[|pats| - 1], low)
  }

  /** The moves one card adds: its own bit first, then its patterns found on the table. */
  function CardMoves(acc: seq<RankMask>, card: Rank, low: RankMask): seq<RankMask> {
    TryPatterns(acc + [card.Bit()], card, Patterns(card), low)
  }

  /**
   * generate_all_moves for a hand, given the table cards masked with LOW_MASK: the cards are
   * taken in hand order, and each adds its own move and then its addition moves.
   */
  function Generated(hand: seq<Rank>, low: RankMask): seq<RankMask> {
    if hand == [] then [] else CardMoves(Generated(hand[..|hand| - 1], low), hand[|hand| - 1], low)
  }

  // ---------------------------------------------------------------------------
  // Where each listed move comes from

  /** A move built from a card: the card's bit alone, or over one of its patterns that is among the low table cards. */
  predicate FromCard(x: RankMask, c: Rank, p: RankMask, low: RankMask) {
    x == p + c.Bit() && (p == {} || (p in Patterns(c) && p <= low))
  }

  /** The inner loop only appends: what was listed stays listed, at the same place. */
  lemma {:induction false} TryPatternsKeeps(acc: seq<RankMask>, card: Rank, pats: seq<RankMask>, low: RankMask)
    ensures |acc| <= |TryPatterns(acc, card, pats, low)|
    ensures TryPatterns(acc, card, pats, low)[..|acc|] == acc
    decreases |pats|
  {
    if pats != [] {
      TryPatternsKeeps(acc, card, pats[..|pats| - 1], low);
    }
  }

  /** Whatever the inner loop appends is `pattern | card` for one of the card's patterns found on the table. */
  lemma {:induction false} TryPatternsAppends(acc: seq<RankMask>, card: Rank, pats: seq<RankMask>, low: RankMask, i: int)
    returns (p: RankMask)
    requires forall q :: q in pats ==> q in Patterns(card)
    requires |acc| <= i < |TryPatterns(acc, card, pats, low)|
    ensures p in Patterns(card) && p <= low && TryPatterns(acc, card, pats, low)[i] == p + card.Bit()
    decreases |pats|
  {
    var init := pats[..|pats| - 1];
    var before := TryPatterns(acc, card, init, low);
    assert forall q :: q in init ==> q in pats;
    if i < |before| {
      p := TryPatternsAppends(acc, card, init, low, i);
      LastPatternKeeps(acc, card, pats, low, i);
    } else {
      p := pats[|pats| - 1];
      LastPatternAppends(acc, card, pats, low, i);
    }
  }

  /** An entry past those of the earlier passes is the one the last pass appended. */
  lemma LastPatternAppends(acc: seq<RankMask>, card: Rank, pats: seq<RankMask>, low: RankMask, i: int)
    requires pats != [] && |TryPatterns(acc, card, pats[..|pats| - 1], low)| <= i < |TryPatterns(acc, card, pats, low)|
    ensures pats[|pats| - 1] <= low && TryPatterns(acc, card, pats, low)[i] == pats[|pats| - 1] + card.Bit()
  {
  }

  /** The last pass of the inner loop leaves the entries before it in place. */
  lemma LastPatternKeeps(acc: seq<RankMask>, card: Rank, pats: seq<RankMask>, low: RankMask, i: int)
    requires pats != [] && 0 <= i < |TryPatterns(acc, card, pats[..|pats| - 1], low)|
    ensures TryPatterns(acc, card, pats, low)[i] == TryPatterns(acc, card, pats[..|pats| - 1], low)[i]
  {
    var before := TryPatterns(acc, card, pats[..|pats| - 1], low);
    TryPatternsKeeps(before, card, [pats[|pats| - 1]], low);
    assert TryPattern(before, card, pats[|pats| - 1], low)[..|before|] == before;
  }

  /** Adding a card to the hand extends the list: the earlier moves, then the card's own move, then its additions. */
  lemma GeneratedExtends(hand: seq<Rank>, low: RankMask)
    requires hand != []
    ensures
      var before := Generated(hand[..|hand| - 1], low);
      |before| < |Generated(hand, low)| && Generated(hand, low)[..|before| + 1] == before + [hand[|hand| - 1].Bit()]
  {
    var last := hand[|hand| - 1];
    TryPatternsKeeps(Generated(hand[..|hand| - 1], low) + [last.Bit()], last, Patterns(last), low);
  }

  /** An entry listed before the hand's last card, or that card's own move, stays listed. */
  lemma GeneratedKeeps(hand: seq<Rank>, low: RankMask, i: int)
    requires hand != [] && 0 <= i <= |Generated(hand[..|hand| - 1], low)|
    ensures (Generated(hand[..|hand| - 1], low) + [hand[|hand| - 1].Bit()])[i] in Generated(hand, low)
  {
    GeneratedExtends(hand, low);
    var before := Generated(hand[..|hand| - 1], low);
    assert Generated(hand, low)[i] == Generated(hand, low)[..|before| + 1][i];
  }

  /** Every listed move comes from a card of the hand. */
  lemma {:induction false} GeneratedOrigin(hand: seq<Rank>, low: RankMask, i: int) returns (c: Rank, p: RankMask)
    requires 0 <= i < |Generated(hand, low)|
    ensures c in hand && FromCard(Generated(hand, low)[i], c, p, low)
    decreases |hand|
  {
    var init := hand[..|hand| - 1];
    var last := hand[|hand| - 1];
    var before := Generated(init, low);
    GeneratedExtends(hand, low);
    if i < |before| {
      c, p := GeneratedOrigin(init, low, i);
      assert Generated(hand, low)[i] == (before + [last.Bit()])[i];
    } else if i == |before| {
      c, p := last, {};
      assert Generated(hand, low)[i] == (before + [last.Bit()])[i];
    } else {
      c := last;
      p := TryPatternsAppends(before + [last.Bit()], last, Patterns(last), low, i);
    }
  }

  /** A card's own move plays that card; it counts as an addition only for Invalid, whose mask is empty. */
  lemma SimpleMovePlays(c: Rank)
    ensures Move(c.Bit()).PlayedRank() == Ok(c)
    ensures IsAddition(Move(c.Bit())) <==> c == Invalid
  {
    if c == Invalid {
      assert CountLZero(c.Bit()) == 16;
    } else {
      PlayedRankOfTopBit(c, {});
      assert c.Bit() + {} == c.Bit();
    }
  }

  /** The ranks of a card's pattern all lie below the card, which is a real rank. */
  lemma PatternBelowCard(c: Rank, p: RankMask)
    requires p in Patterns(c)
    ensures c != Invalid && forall i :: i in p ==> i < Ordinal(c) - 1
  {
    var j :| 0 <= j < |Patterns(c)| && Patterns(c)[j] == p;
    PatternFacts(RankToInt(c), j);
  }

  /** A move whose other bits all lie below its card's plays that card: so does every pattern move. */
  lemma PatternMovePlays(c: Rank, p: RankMask)
    requires c != Invalid && forall i :: i in p ==> i < Ordinal(c) - 1
    ensures Move(p + c.Bit()).PlayedRank() == Ok(c)
  {
    assert p + c.Bit() == c.Bit() + p;
    PlayedRankOfTopBit(c, p);
  }

  /**
   * A pattern move is an addition whose targets, the mask without the card's bit, are the
   * pattern; so they are among any cards that hold the pattern.
   */
  lemma PatternMoveTargets(c: Rank, p: RankMask, cards: RankMask)
    requires p in Patterns(c) && p <= cards
    ensures IsAddition(Move(p + c.Bit()))
    ensures (p + c.Bit()) - c.Bit() == p && ContainsRanks(cards, (p + c.Bit()) - c.Bit())
  {
    PatternBelowCard(c, p);
    assert Ordinal(c) - 1 !in p;
    var j :| 0 <= j < |Patterns(c)| && Patterns(c)[j] == p;
    PatternFacts(RankToInt(c), j);
    assert |p + c.Bit()| == |p| + 1;
  }

  /** A pattern move has at least three bits: the card's and two or more targets. */
  lemma PatternMoveSize(c: Rank, p: RankMask)
    requires p in Patterns(c)
    ensures |p + c.Bit()| >= 3
  {
    PatternBelowCard(c, p);
    assert Ordinal(c) - 1 !in p;
    var j :| 0 <= j < |Patterns(c)| && Patterns(c)[j] == p;
    PatternFacts(RankToInt(c), j);
    assert |p + c.Bit()| == |p| + 1;
  }

  /** What make_move_in_place checks of a move whose played rank is known. */
  predicate Acceptable(s: State, m: Move, played: Rank) {
    && m.PlayedRank() == Ok(played) && played in CurrentPlayerState(s).hand.cards && played != Invalid
    && (IsAddition(m) ==> ContainsRanks(s.table.cards, m.targetsMask - played.Bit()))
  }

  /** The conditions under which make_move_in_place accepts a move, for a move whose played rank is known. */
  lemma MoveAccepted(s: State, m: Move, played: Rank)
    requires Acceptable(s, m, played)
    ensures Apply(s, m).Ok?
  {
    ApplyAccepts(s, m);
  }

  /**
   * Soundness: every listed move plays a card of the mover's hand, and make_move_in_place
   * accepts it unless that card is Invalid.
   */
  lemma GeneratedMovesAccepted(s: State, i: int)
    requires 0 <= i < |Generated(CurrentPlayerState(s).hand.cards, s.table.cards * LOW_MASK)|
    ensures
      var x := Generated(CurrentPlayerState(s).hand.cards, s.table.cards * LOW_MASK)[i];
      && Move(x).PlayedRank().Ok?
      && Move(x).PlayedRank().value in CurrentPlayerState(s).hand.cards
      && (Move(x).PlayedRank().value != Invalid ==>
            Acceptable(s, Move(x), Move(x).PlayedRank().value) && Apply(s, Move(x)).Ok?)
  {
    var x := Generated(CurrentPlayerState(s).hand.cards, s.table.cards * LOW_MASK)[i];
    var c, p := GeneratedOrigin(CurrentPlayerState(s).hand.cards, s.table.cards * LOW_MASK, i);
    if p == {} {
      assert x == c.Bit();
      SimpleMovePlays(c);
    } else {
      PatternBelowCard(c, p);
      PatternMovePlays(c, p);
      PatternMoveTargets(c, p, s.table.cards);
    }
    if c != Invalid {
      MoveAccepted(s, Move(x), c);
    }
  }

  // ---------------------------------------------------------------------------
  // Every move a card allows is listed

  /** A pattern found on the table is listed once the inner loop has passed it. */
  lemma {:induction false} TryPatternsIncludes(acc: seq<RankMask>, card: Rank, pats: seq<RankMask>, low: RankMask, p: RankMask)
    requires p in pats && p <= low
    ensures p + card.Bit() in TryPatterns(acc, card, pats, low)
    decreases |pats|
  {
    var init := pats[..|pats| - 1];
    var last := pats[|pats| - 1];
    var before := TryPatterns(acc, card, init, low);
    TryPatternsKeeps(before, card, [last], low);
    assert TryPattern(before, card, last, low)[..|before|] == before;
    if p != last {
      assert p in init by {
        assert pats == init + [last];
      }
      TryPatternsIncludes(acc, card, init, low, p);
    }
  }

  /** A move listed for the cards before the last stays listed. */
  lemma EarlierMoveStaysListed(hand: seq<Rank>, low: RankMask, x: RankMask)
    requires hand != [] && x in Generated(hand[..|hand| - 1], low)
    ensures x in Generated(hand, low)
  {
    var before := Generated(hand[..|hand| - 1], low);
    var i :| 0 <= i < |before| && before[i] == x;
    GeneratedKeeps(hand, low, i);
  }

  /** The last card's own bit is listed. */
  lemma LastCardListed(hand: seq<Rank>, low: RankMask)
    requires hand != []
    ensures hand[|hand| - 1].Bit() in Generated(hand, low)
  {
    GeneratedKeeps(hand, low, |Generated(hand[..|hand| - 1], low)|);
  }

  /** Each pattern of the last card that is among the low table cards gives a listed move. */
  lemma LastCardPatternListed(hand: seq<Rank>, low: RankMask, p: RankMask)
    requires hand != [] && p in Patterns(hand[|hand| - 1]) && p <= low
    ensures p + hand[|hand| - 1].Bit() in Generated(hand, low)
  {
    var last := hand[|hand| - 1];
    TryPatternsIncludes(Generated(hand[..|hand| - 1], low) + [last.Bit()], last, Patterns(last), low, p);
  }

  /** Every move a card of the hand allows is listed: its own bit, and each of its patterns found on the table. */
  lemma {:induction false} GeneratedIncludes(hand: seq<Rank>, low: RankMask, x: RankMask, c: Rank, p: RankMask)
    requires c in hand && FromCard(x, c, p, low)
    ensures x in Generated(hand, low)
    decreases |hand|
  {
    var init := hand[..|hand| - 1];
    var last := hand[|hand| - 1];
    if c != last {
      assert c in init by {
        assert hand == init + [last];
      }
      GeneratedIncludes(init, low, x, c, p);
      EarlierMoveStaysListed(hand, low, x);
    } else if p == {} {
      assert x == last.Bit();
      LastCardListed(hand, low);
    } else {
      LastCardPatternListed(hand, low, p);
    }
  }

  // ---------------------------------------------------------------------------
  // How many moves are listed

  /** The move `pattern | card` of every pattern in the table, eleven in all. */
  const ADDITION_MOVES: seq<RankMask> := [
    {0, 1, 2}, {0, 2, 3}, {0, 3, 4}, {1, 2, 4}, {0, 4, 5}, {1, 3, 5}, {0, 1, 2, 5},
    {0, 5, 6}, {1, 4, 6}, {2, 3, 6}, {0, 1, 3, 6}]

  /** The move of pattern j of index k is one of ADDITION_MOVES. */
  lemma PatternMoveListedAt(k: int, j: int)
    requires 0 <= k < |ADDITIONS_BY_RANK| && 0 <= j < |ADDITIONS_BY_RANK[k]|
    ensures ADDITIONS_BY_RANK[k][j] + OrdinalRank(k).Bit() in ADDITION_MOVES
  {
    var x := ADDITIONS_BY_RANK[k][j] + OrdinalRank(k).Bit();
    if k == 3 {
      assert x == ADDITION_MOVES[0];
    } else if k == 4 {
      assert x == ADDITION_MOVES[1];
    } else if k == 5 {
      assert x == ADDITION_MOVES[2 + j];
    } else if k == 6 {
      assert x == ADDITION_MOVES[4 + j];
    } else {
      assert x == ADDITION_MOVES[7 + j];
    }
  }

  /** Every pattern move is one of ADDITION_MOVES. */
  lemma PatternMoveListed(c: Rank, p: RankMask)
    requires p in Patterns(c)
    ensures p + c.Bit() in ADDITION_MOVES
  {
    var j :| 0 <= j < |Patterns(c)| && Patterns(c)[j] == p;
    OrdinalInjective(c, c);
    PatternMoveListedAt(RankToInt(c), j);
  }

  /** The addition moves in a list: the entries of two or more bits. */
  function AdditionsIn(out: seq<RankMask>): set<RankMask> {
    set x | x in out && |x| >= 2
  }

  /** No addition move appears twice; a card's own move may. */
  predicate AdditionsUnique(out: seq<RankMask>) {
    forall i, j :: 0 <= i < j < |out| && |out[i]| >= 2 ==> out[i] != out[j]
  }

  /**
   * A list built from n cards: n own moves plus its distinct addition moves, all of them among
   * ADDITION_MOVES.
   */
  predicate Tallied(out: seq<RankMask>, n: int) {
    && |out| == n + |AdditionsIn(out)|
    && (forall x :: x in AdditionsIn(out) ==> x in ADDITION_MOVES)
    && AdditionsUnique(out)
  }

  lemma {:induction false} SetOfSeqCard<T>(q: seq<T>)
    ensures |set x | x in q| <= |q|
  {
    if q != [] {
      var init := q[..|q| - 1];
      SetOfSeqCard(init);
      assert (set x | x in q) == (set x | x in init) + {q[|q| - 1]} by {
        assert q == init + [q[|q| - 1]];
      }
    }
  }

  lemma SubsetCard<T>(a: set<T>, b: set<T>)
    requires a <= b
    ensures |a| <= |b|
  {
    assert b == a + (b - a);
  }

  /** At most eleven addition moves fit a tallied list, and only ten before a new one is appended. */
  lemma AdditionsBound(out: seq<RankMask>, x: RankMask)
    requires forall y :: y in AdditionsIn(out) ==> y in ADDITION_MOVES
    ensures |AdditionsIn(out)| <= 11
    ensures x in ADDITION_MOVES && x !in out ==> |AdditionsIn(out)| <= 10
  {
    SetOfSeqCard(ADDITION_MOVES);
    var all := set y | y in ADDITION_MOVES;
    SubsetCard(AdditionsIn(out), all);
    if x in ADDITION_MOVES && x !in out {
      assert x !in AdditionsIn(out);
      SubsetCard(AdditionsIn(out) + {x}, all);
    }
  }

  /** Appending a card's own move counts one more card. */
  lemma TallyOwnMove(out: seq<RankMask>, n: int, c: Rank)
    requires Tallied(out, n)
    ensures Tallied(out + [c.Bit()], n + 1)
  {
    assert AdditionsIn(out + [c.Bit()]) == AdditionsIn(out);
  }

  /** Appending an addition move not yet listed counts one more addition. */
  lemma TallyAddition(out: seq<RankMask>, n: int, x: RankMask)
    requires Tallied(out, n) && x in ADDITION_MOVES && |x| >= 2 && x !in out
    ensures Tallied(out + [x], n)
  {
    assert AdditionsIn(out + [x]) == AdditionsIn(out) + {x};
    assert x !in AdditionsIn(out);
  }

  /** The inner loop keeps the tally. */
  lemma {:induction false} TryPatternsTally(acc: seq<RankMask>, card: Rank, pats: seq<RankMask>, low: RankMask, n: int)
    requires Tallied(acc, n) && forall q :: q in pats ==> q in Patterns(card)
    ensures Tallied(TryPatterns(acc, card, pats, low), n)
    decreases |pats|
  {
    if pats != [] {
      var init := pats[..|pats| - 1];
      var last := pats[|pats| - 1];
      assert forall q :: q in init ==> q in pats;
      TryPatternsTally(acc, card, init, low, n);
      var before := TryPatterns(acc, card, init, low);
      if last * low == last && last + card.Bit() !in before {
        PatternMoveListed(card, last);
        PatternMoveSize(card, last);
        TallyAddition(before, n, last + card.Bit());
      }
    }
  }

  /** The moves of a hand are tallied against the hand's size. */
  lemma {:induction false} GeneratedTally(hand: seq<Rank>, low: RankMask)
    ensures Tallied(Generated(hand, low), |hand|)
    decreases |hand|
  {
    if hand != [] {
      var init := hand[..|hand| - 1];
      var last := hand[|hand| - 1];
      GeneratedTally(init, low);
      TallyOwnMove(Generated(init, low), |init|, last);
      TryPatternsTally(Generated(init, low) + [last.Bit()], last, Patterns(last), low, |hand|);
    }
  }

  /**
   * The list holds one own move per card and at most eleven more, none of the additions twice;
   * so a hand of five never fills the sixteen slots past their capacity.
   */
  lemma GeneratedSize(hand: seq<Rank>, low: RankMask)
    ensures |hand| <= |Generated(hand, low)| <= |hand| + 11
    ensures AdditionsUnique(Generated(hand, low))
  {
    GeneratedTally(hand, low);
    AdditionsBound(Generated(hand, low), {});
  }

  // ---------------------------------------------------------------------------
  // The loop

  /** One pass of the inner loop: push `pattern | card` when the pattern is on the table and the move is not listed. */
  method TryPushPattern(moves: BoundedArray<RankMask>, card: Rank, pattern: RankMask, lowTableMask: RankMask, ghost n: int)
    requires moves.Valid() && moves.capacity == MAX_MOVES_PER_TABLE
    requires n <= 5 && Tallied(moves.Contents(), n) && pattern in Patterns(card)
    modifies moves, moves.arr
    ensures moves.Valid()
    ensures moves.Contents() == TryPattern(old(moves.Contents()), card, pattern, lowTableMask)
    ensures Tallied(moves.Contents(), n)
  {
    if pattern * lowTableMask == pattern {
      var move := pattern + card.Bit();
      var listed := moves.Contains(move);
      if !listed {
        PatternMoveListed(card, pattern);
        PatternMoveSize(card, pattern);
        AdditionsBound(moves.Contents(), move);
        TallyAddition(moves.Contents(), n, move);
        moves.PushBack(move);
      }
    }
  }

  /**
   * The inner loop of generate_all_moves for one card: each of its patterns found among the low
   * table cards gives `pattern | card`, pushed unless the list already contains it. A list
   * tallied against at most five cards always has room.
   */
  method PushPatternMoves(moves: BoundedArray<RankMask>, card: Rank, lowTableMask: RankMask, ghost n: int)
    requires moves.Valid() && moves.capacity == MAX_MOVES_PER_TABLE
    requires n <= 5 && Tallied(moves.Contents(), n)
    modifies moves, moves.arr
    ensures moves.Valid() && Tallied(moves.Contents(), n)
    ensures moves.Contents() == TryPatterns(old(moves.Contents()), card, Patterns(card), lowTableMask)
  {
    ghost var start := moves.Contents();
    var patterns := ADDITIONS_BY_RANK[RankToInt(card)];
    for j := 0 to |patterns|
      invariant moves.Valid()
      invariant moves.Contents() == TryPatterns(start, card, patterns[..j], lowTableMask)
      invariant Tallied(moves.Contents(), n)
    {
      TryPatternsStep(start, card, patterns, lowTableMask, j);
      TryPushPattern(moves, card, patterns[j], lowTableMask, n);
    }
    assert patterns[..|patterns|] == patterns;
  }

  /** One more pass of the inner loop tries the next pattern on what the earlier passes listed. */
  lemma TryPatternsStep(acc: seq<RankMask>, card: Rank, pats: seq<RankMask>, low: RankMask, j: int)
    requires 0 <= j < |pats|
    ensures TryPatterns(acc, card, pats[..j + 1], low) == TryPattern(TryPatterns(acc, card, pats[..j], low), card, pats[j], low)
  {
    assert pats[..j + 1][..j] == pats[..j];
  }

  /** The body of the outer loop for one card: its own move, then its addition moves. */
  method PushCardMoves(moves: BoundedArray<RankMask>, card: Rank, lowTableMask: RankMask, ghost n: int)
    requires moves.Valid() && moves.capacity == MAX_MOVES_PER_TABLE
    requires n < 5 && Tallied(moves.Contents(), n)
    modifies moves, moves.arr
    ensures moves.Valid() && Tallied(moves.Contents(), n + 1)
    ensures moves.Contents() == CardMoves(old(moves.Contents()), card, lowTableMask)
  {
    AdditionsBound(moves.Contents(), {});
    TallyOwnMove(moves.Contents(), n, card);
    moves.PushBack(card.Bit());
    PushPatternMoves(moves, card, lowTableMask, n + 1);
  }

  /**
   * generate_all_moves: for each card of the mover's hand, in order, its own move and then each
   * of its patterns found among the low table cards that is not listed yet. The hand has at most
   * five cards, as dealt, so the capacity asserts hold; the game is only read.
   */
  method GenerateAllMoves(game: GameState) returns (moves: BoundedArray<RankMask>)
    requires |CurrentPlayerState(game.Snapshot()).hand.cards| <= 5
    ensures fresh(moves) && fresh(moves.arr) && moves.Valid() && moves.capacity == MAX_MOVES_PER_TABLE
    ensures moves.Contents() == Generated(CurrentPlayerState(game.Snapshot()).hand.cards, game.table.cards * LOW_MASK)
  {
    moves := new BoundedArray(MAX_MOVES_PER_TABLE);
    var lowTableMask := game.table.cards * LOW_MASK;
    var hand := game.players.Get(game.toMove).hand.cards;
    for i := 0 to |hand|
      invariant fresh(moves) && fresh(moves.arr) && moves.Valid()
      invariant moves.Contents() == Generated(hand[..i], lowTableMask)
      invariant Tallied(moves.Contents(), i)
    {
      PushCardMoves(moves, hand[i], lowTableMask, i);
      assert hand[..i + 1][..i] == hand[..i];
    }
    assert hand[..|hand|] == hand;
  }
}
