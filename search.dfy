/**
 * The deterministic part of the bot in bot.cpp: the two integer evaluations and minimax, a
 * negamax that makes each generated move in place, passes the turn, searches, passes the turn
 * back and undoes the move.
 */
module Search {
  import opened Wrappers
  import opened Ranks
  import opened GameStates
  import opened Engine
  import opened BoundedArrays
  import opened Additions
  import opened MoveGen

  // ---------------------------------------------------------------------------
  // Evaluations

  /** heuristic_value: the mover's score minus the opponent's. */
  function HeuristicValue(s: State): int {
    CurrentPlayerState(s).score - OpposingPlayerState(s).score
  }

  /**
   * deterministic_value: the score difference, plus 6 + 2 * ((n - 20) / 2) for a mover holding
   * n >= 20 captured cards, minus the same for an opponent holding that many.
   */
  function DeterministicValue(s: State): int {
    var player := CurrentPlayerState(s);
    var enemy := OpposingPlayerState(s);
    var mine := if player.numCapturedCards >= 20 then 6 + 2 * TruncDiv(player.numCapturedCards - 20, 2) else 0;
    var theirs := if enemy.numCapturedCards >= 20 then 6 + 2 * TruncDiv(enemy.numCapturedCards - 20, 2) else 0;
    player.score - enemy.score + (mine - theirs)
  }

  /** Both evaluations are zero-sum: passing the turn negates them. */
  lemma EvaluationsAreAntisymmetric(s: State)
    ensures HeuristicValue(Flip(s)) == -HeuristicValue(s)
    ensures DeterministicValue(Flip(s)) == -DeterministicValue(s)
  {
    AccessorsAreRelative(s);
  }

  /**
   * deterministic_value scores a finished hand by the intended round-end rule: it is the
   * heuristic value after both players' captured cards are turned into points.
   */
  lemma DeterministicIsIntendedRoundEnd(s: State)
    ensures DeterministicValue(s) == HeuristicValue(s)
      + CapturedCardsPoints(CurrentPlayerState(s).numCapturedCards)
      - CapturedCardsPoints(OpposingPlayerState(s).numCapturedCards)
    ensures DeterministicValue(s) ==
      RoundEndIntended(CurrentPlayerState(s)).score - RoundEndIntended(OpposingPlayerState(s)).score
  {
  }

  // ---------------------------------------------------------------------------
  // Search values

  /**
   * The double values minimax returns: an integer, numeric_limits<double>::lowest(), or its
   * negation, the largest double. Every integer lies strictly between the two.
   */
  datatype ExtInt = NegInf | Fin(v: int) | PosInf

  /** Unary minus; the negation of lowest() is the largest double. */
  function Neg(x: ExtInt): ExtInt {
    match x
    case NegInf => PosInf
    case Fin(v) => Fin(-v)
    case PosInf => NegInf
  }

  predicate Le(a: ExtInt, b: ExtInt) {
    a == NegInf || b == PosInf || (a.Fin? && b.Fin? && a.v <= b.v)
  }

  /** std::max(a, b): b when a < b, otherwise a. */
  function Max(a: ExtInt, b: ExtInt): (m: ExtInt)
    ensures Le(a, m) && Le(b, m)
    ensures m == a || m == b
  {
    if Le(a, b) && a != b then b else a
  }

  /** Le is a total order, and negation is an involution that reverses it. */
  lemma LeIsTotalOrder(a: ExtInt, b: ExtInt, c: ExtInt)
    ensures Le(a, a)
    ensures Le(a, b) && Le(b, a) ==> a == b
    ensures Le(a, b) && Le(b, c) ==> Le(a, c)
    ensures Le(a, b) || Le(b, a)
    ensures Le(a, b) <==> Le(Neg(b), Neg(a))
    ensures Neg(Neg(a)) == a
  {
  }

  // ---------------------------------------------------------------------------
  // The states a search runs on

  /** The cards the two players hold together: one fewer after each move. */
  function HandTotal(s: State): nat {
    |CurrentPlayerState(s).hand.cards| + |OpposingPlayerState(s).hand.cards|
  }

  /**
   * A position dealt by the game: no Invalid card in either hand, at most five cards in each,
   * and the last played card Invalid or on the table.
   */
  predicate Searchable(s: State) {
    && LastPlayedOnTable(s)
    && Invalid !in CurrentPlayerState(s).hand.cards && Invalid !in OpposingPlayerState(s).hand.cards
    && |CurrentPlayerState(s).hand.cards| <= 5 && |OpposingPlayerState(s).hand.cards| <= 5
  }

  /** The same player state, with the hand possibly in another order. */
  predicate SamePlayer(a: PlayerState, b: PlayerState) {
    a.score == b.score && a.numCapturedCards == b.numCapturedCards && multiset(a.hand.cards) == multiset(b.hand.cards)
  }

  /** t is s with each hand possibly reordered: the table, deck, turn, scores and counts are the same. */
  predicate SameUpToHandOrder(s: State, t: State) {
    && t.table == s.table && t.deck == s.deck && t.toMove == s.toMove
    && SamePlayer(CurrentPlayerState(s), CurrentPlayerState(t))
    && SamePlayer(OpposingPlayerState(s), OpposingPlayerState(t))
  }

  /** The moves generate_all_moves lists for the player to move. */
  function Moves(s: State): seq<RankMask> {
    Generated(CurrentPlayerState(s).hand.cards, s.table.cards * LOW_MASK)
  }

  lemma SameUpToHandOrderIsEquivalence(s: State, t: State, u: State)
    ensures SameUpToHandOrder(s, s)
    ensures SameUpToHandOrder(s, t) ==> SameUpToHandOrder(t, s)
    ensures SameUpToHandOrder(s, t) && SameUpToHandOrder(t, u) ==> SameUpToHandOrder(s, u)
  {
  }

  /** Reordering hands keeps a position searchable and keeps the number of cards. */
  lemma SearchableUpToHandOrder(s: State, t: State)
    requires Searchable(s) && SameUpToHandOrder(s, t)
    ensures Searchable(t) && HandTotal(t) == HandTotal(s)
  {
    var a, b := CurrentPlayerState(s).hand.cards, CurrentPlayerState(t).hand.cards;
    var c, d := OpposingPlayerState(s).hand.cards, OpposingPlayerState(t).hand.cards;
    assert |multiset(a)| == |multiset(b)| && |multiset(c)| == |multiset(d)|;
    assert Invalid !in multiset(a) && Invalid !in multiset(c);
  }

  /** Passing the turn swaps the two players and keeps everything else. */
  lemma FlipUpToHandOrder(s: State, t: State)
    requires SameUpToHandOrder(s, t)
    ensures SameUpToHandOrder(Flip(s), Flip(t))
    ensures Searchable(s) ==> Searchable(Flip(s)) && HandTotal(Flip(s)) == HandTotal(s)
  {
    AccessorsAreRelative(s);
    AccessorsAreRelative(t);
  }

  /** make_move_in_place checks the hand by membership only, so a reordered hand accepts the same moves. */
  lemma AcceptedUpToHandOrder(s: State, t: State, m: Move, played: Rank)
    requires SameUpToHandOrder(s, t) && Acceptable(s, m, played)
    ensures Acceptable(t, m, played)
  {
    assert played in multiset(CurrentPlayerState(s).hand.cards);
  }

  /**
   * A move made from a searchable position leads, once the turn is passed, to a searchable
   * position with one card fewer, and its undo record fits undo_move_in_place.
   */
  lemma ChildFacts(s: State, m: Move)
    requires Searchable(s) && Apply(s, m).Ok?
    ensures
      var (s1, u) := Apply(s, m).value;
      Searchable(Flip(s1)) && HandTotal(Flip(s1)) == HandTotal(s) - 1 && UndoFits(u)
  {
    var (s1, u) := Apply(s, m).value;
    var hand, hand1 := CurrentPlayerState(s).hand.cards, CurrentPlayerState(s1).hand.cards;
    ApplyFrame(s, m);
    ApplyEstablishesLastPlayedOnTable(s, m);
    ApplyAccepts(s, m);
    UnapplyInvertsApply(s, m);
    assert Invalid !in multiset(hand1);
    assert |multiset(hand1)| == |multiset(hand)| - 1;
    SameUpToHandOrderIsEquivalence(s1, s1, s1);
    FlipUpToHandOrder(s1, s1);
  }

  /** undo_move_in_place only reads the table and appends to the mover's hand, so it respects hand order. */
  lemma UnapplyUpToHandOrder(a: State, b: State, u: Undo)
    requires UndoFits(u) && SameUpToHandOrder(a, b)
    ensures SameUpToHandOrder(Unapply(a, u), Unapply(b, u))
  {
    UnapplyFrame(a, u);
    UnapplyFrame(b, u);
    var played := u.move.PlayedRank().value;
    var ha, hb := CurrentPlayerState(a).hand.cards, CurrentPlayerState(b).hand.cards;
    assert multiset(ha + [played]) == multiset(hb + [played]);
  }

  /**
   * Undoing a move after a search below it that reordered the hands gives back, up to hand
   * order, the position the move was made from.
   */
  lemma UndoFacts(s: State, m: Move, t: State)
    requires Searchable(s) && Apply(s, m).Ok?
    requires SameUpToHandOrder(Flip(Apply(s, m).value.0), t)
    ensures UndoFits(Apply(s, m).value.1)
    ensures SameUpToHandOrder(s, Unapply(Flip(t), Apply(s, m).value.1))
  {
    var (s1, u) := Apply(s, m).value;
    UnapplyInvertsApply(s, m);
    ApplyFrame(s, m);
    var back := Unapply(s1, u);
    assert SameUpToHandOrder(s, back);
    FlipUpToHandOrder(Flip(s1), t);
    FlipTwiceRestores(s1);
    UnapplyUpToHandOrder(s1, Flip(t), u);
    SameUpToHandOrderIsEquivalence(s, back, Unapply(Flip(t), u));
  }

  /**
   * A move listed for s can be made on any reordering of s, which is itself searchable and holds
   * as many cards.
   */
  lemma StepFacts(s: State, cur: State, i: int)
    requires Searchable(s) && SameUpToHandOrder(s, cur) && 0 <= i < |Moves(s)|
    ensures Searchable(cur) && HandTotal(cur) == HandTotal(s)
    ensures Apply(cur, Move(Moves(s)[i])).Ok?
    ensures Searchable(Flip(Apply(cur, Move(Moves(s)[i])).value.0))
    ensures HandTotal(Flip(Apply(cur, Move(Moves(s)[i])).value.0)) < HandTotal(s)
    ensures UndoFits(Apply(cur, Move(Moves(s)[i])).value.1)
  {
    var m := Move(Moves(s)[i]);
    GeneratedMovesAccepted(s, i);
    var played := m.PlayedRank().value;
    AcceptedUpToHandOrder(s, cur, m, played);
    MoveAccepted(cur, m, played);
    SearchableUpToHandOrder(s, cur);
    ChildFacts(cur, m);
  }

  // ---------------------------------------------------------------------------
  // Negamax on values

  /** What a search returns, and the position it leaves the game in. */
  datatype Outcome = Outcome(value: ExtInt, final: State)

  /**
   * minimax on the value of the game. The cut-offs come in the code's order: a lost position
   * (the opponent has 40 points), then an empty hand, then depth 0; otherwise the loop over the
   * generated moves. The game is left as it was found, up to the order of the hands. The
   * search ends whatever the depth, even a negative one: every move takes a card out of a hand.
   */
  function Negamax(s: State, depth: int): (r: Outcome)
    requires Searchable(s)
    ensures SameUpToHandOrder(s, r.final)
    decreases HandTotal(s), 1, 0, 0
  {
    SameUpToHandOrderIsEquivalence(s, s, s);
    if OpposingPlayerState(s).score >= 40 then Outcome(NegInf, s)
    else if |CurrentPlayerState(s).hand.cards| == 0 then Outcome(Fin(DeterministicValue(s)), s)
    else if depth == 0 then Outcome(Fin(HeuristicValue(s)), s)
    else SearchMoves(s, depth, |Moves(s)|)
  }

  /**
   * The loop of minimax after its first k moves: the best value so far, and the position
   * reached.
   */
  function SearchMoves(s: State, depth: int, k: int): (r: Outcome)
    requires Searchable(s) && 0 <= k <= |Moves(s)|
    ensures SameUpToHandOrder(s, r.final)
    decreases HandTotal(s), 0, k, 0
  {
    if k == 0 then
      SameUpToHandOrderIsEquivalence(s, s, s);
      Outcome(NegInf, s)
    else
      SearchStep(s, depth, k - 1, SearchMoves(s, depth, k - 1))
  }

  /**
   * One turn of the loop, from the outcome of the turns before it: move j is made on the
   * position the previous move was undone to, the turn passes, the opponent searches one ply
   * less, the turn passes back and the move is undone; the value is the larger of the best so
   * far and the negated value of the search below.
   */
  function SearchStep(s: State, depth: int, j: int, prev: Outcome): (r: Outcome)
    requires Searchable(s) && 0 <= j < |Moves(s)| && SameUpToHandOrder(s, prev.final)
    ensures SameUpToHandOrder(s, r.final)
    decreases HandTotal(s), 0, j, 1
  {
    var cur := prev.final;
    var m := Move(Moves(s)[j]);
    StepFacts(s, cur, j);
    var sub := ChildOf(s, depth, j, cur);
    UndoFacts(cur, m, sub.final);
    var back := Unapply(Flip(sub.final), Apply(cur, m).value.1);
    SameUpToHandOrderIsEquivalence(s, cur, back);
    Outcome(Max(prev.value, Neg(sub.value)), back)
  }

  /**
   * The opponent's search below move j of the loop, made on position cur: one ply less, with
   * the turn passed. It leaves the position after the move as it found it, up to hand order.
   */
  function ChildOf(s: State, depth: int, j: int, cur: State): (r: Outcome)
    requires Searchable(s) && 0 <= j < |Moves(s)| && SameUpToHandOrder(s, cur)
    ensures Apply(cur, Move(Moves(s)[j])).Ok?
    ensures SameUpToHandOrder(Flip(Apply(cur, Move(Moves(s)[j])).value.0), r.final)
    decreases HandTotal(s), 0, j, 0
  {
    StepFacts(s, cur, j);
    Negamax(Flip(Apply(cur, Move(Moves(s)[j])).value.0), depth - 1)
  }

  /** The search below move j of the loop, made on the position the loop had reached. */
  function ChildSearch(s: State, depth: int, j: int): Outcome
    requires Searchable(s) && 0 <= j < |Moves(s)|
  {
    ChildOf(s, depth, j, SearchMoves(s, depth, j).final)
  }

  /** The loop after move k is one turn from the loop after the moves before it. */
  lemma SearchMovesUnfold(s: State, depth: int, k: int)
    requires Searchable(s) && 0 <= k < |Moves(s)|
    ensures SearchMoves(s, depth, k + 1) == SearchStep(s, depth, k, SearchMoves(s, depth, k))
  {
  }

  /** One more turn of the loop keeps the larger of the best so far and the new move's value. */
  lemma SearchMovesValue(s: State, depth: int, k: int)
    requires Searchable(s) && 0 <= k < |Moves(s)|
    ensures SearchMoves(s, depth, k + 1).value
         == Max(SearchMoves(s, depth, k).value, Neg(ChildSearch(s, depth, k).value))
  {
  }

  /** The move made last is bounded by the loop's value just after it. */
  lemma LastMoveBound(s: State, depth: int, j: int, k: int)
    requires Searchable(s) && 0 <= j && k == j + 1 && k <= |Moves(s)|
    ensures Le(Neg(ChildSearch(s, depth, j).value), SearchMoves(s, depth, k).value)
  {
    SearchMovesValue(s, depth, j);
  }

  /** A bound on an earlier move j survives the turn of the loop that makes move k - 1. */
  lemma {:induction false} EarlierMoveBound(s: State, depth: int, j: int, k: int)
    requires Searchable(s) && 0 <= j && j + 1 < k <= |Moves(s)|
    ensures Le(Neg(ChildSearch(s, depth, j).value), SearchMoves(s, depth, k).value)
    decreases k, 0
  {
    SearchMovesBound(s, depth, j, k - 1);
    SearchMovesValue(s, depth, k - 1);
    LeIsTotalOrder(Neg(ChildSearch(s, depth, j).value), SearchMoves(s, depth, k - 1).value,
                   SearchMoves(s, depth, k).value);
  }

  /** After k moves the loop's value bounds the negated value of the search below move j < k. */
  lemma {:induction false} SearchMovesBound(s: State, depth: int, j: int, k: int)
    requires Searchable(s) && 0 <= j < k <= |Moves(s)|
    ensures Le(Neg(ChildSearch(s, depth, j).value), SearchMoves(s, depth, k).value)
    decreases k, 1
  {
    if j + 1 < k {
      EarlierMoveBound(s, depth, j, k);
    } else {
      LastMoveBound(s, depth, j, k);
    }
  }

  /** After k > 0 moves the loop's value is the negated value of the search below one of them. */
  lemma {:induction false} SearchMovesAttained(s: State, depth: int, k: int) returns (best: int)
    requires Searchable(s) && 0 < k <= |Moves(s)|
    ensures 0 <= best < k && SearchMoves(s, depth, k).value == Neg(ChildSearch(s, depth, best).value)
  {
    SearchMovesValue(s, depth, k - 1);
    if k > 1 && SearchMoves(s, depth, k).value == SearchMoves(s, depth, k - 1).value {
      best := SearchMovesAttained(s, depth, k - 1);
    } else {
      best := k - 1;
    }
  }

  /**
   * Past the cut-offs, minimax returns the best move's value: the largest, over the generated
   * moves, of the negated value of the opponent's search after that move; there is always at
   * least one move, the hand's own cards.
   */
  lemma NegamaxIsBestMove(s: State, depth: int) returns (best: int)
    requires Searchable(s) && OpposingPlayerState(s).score < 40
    requires |CurrentPlayerState(s).hand.cards| > 0 && depth != 0
    ensures 0 <= best < |Moves(s)|
    ensures forall j :: 0 <= j < |Moves(s)| ==> Le(Neg(ChildSearch(s, depth, j).value), Negamax(s, depth).value)
    ensures Negamax(s, depth).value == Neg(ChildSearch(s, depth, best).value)
  {
    GeneratedSize(CurrentPlayerState(s).hand.cards, s.table.cards * LOW_MASK);
    forall j | 0 <= j < |Moves(s)|
      ensures Le(Neg(ChildSearch(s, depth, j).value), Negamax(s, depth).value)
    {
      SearchMovesBound(s, depth, j, |Moves(s)|);
    }
    best := SearchMovesAttained(s, depth, |Moves(s)|);
  }

  /**
   * The cut-offs, in the code's order: lowest() when the opponent has 40 points, then the
   * deterministic value when the mover's hand is empty, then the heuristic at depth 0; none
   * of them touches the game.
   */
  lemma NegamaxCutoffs(s: State, depth: int)
    requires Searchable(s)
    ensures OpposingPlayerState(s).score >= 40 ==> Negamax(s, depth) == Outcome(NegInf, s)
    ensures OpposingPlayerState(s).score < 40 && CurrentPlayerState(s).hand.cards == [] ==>
      Negamax(s, depth) == Outcome(Fin(DeterministicValue(s)), s)
    ensures OpposingPlayerState(s).score < 40 && CurrentPlayerState(s).hand.cards != [] && depth == 0 ==>
      Negamax(s, depth) == Outcome(Fin(HeuristicValue(s)), s)
  {
  }

  // ---------------------------------------------------------------------------
  // minimax in place

  /**
   * The outcomes of the loop of minimax after each number of moves, from none to all of them;
   * only a mention of SearchMoves itself brings in the link, so the loop can carry the trace
   * without unfolding the search.
   */
  ghost predicate IsTrace(s: State, depth: int, trace: seq<Outcome>)
    requires Searchable(s)
  {
    |trace| == |Moves(s)| + 1 &&
    forall i {:trigger SearchMoves(s, depth, i)} :: 0 <= i <= |Moves(s)| ==> trace[i] == SearchMoves(s, depth, i)
  }

  /** The trace of the loop of minimax on s. */
  lemma TraceOf(s: State, depth: int) returns (trace: seq<Outcome>)
    requires Searchable(s)
    ensures IsTrace(s, depth, trace)
  {
    trace := seq(|Moves(s)| + 1, i requires 0 <= i <= |Moves(s)| => SearchMoves(s, depth, i));
  }

  /**
   * minimax: the cut-offs, then each generated move tried in turn. The value is Negamax's, and
   * the game is left as Negamax says: as it was, up to the order of the hands.
   */
  method Minimax(game: GameState, depth: int) returns (value: ExtInt)
    requires Searchable(game.Snapshot())
    modifies game
    decreases HandTotal(game.Snapshot()), 2
    ensures game.deck == old(game.deck)
    ensures value == Negamax(old(game.Snapshot()), depth).value
    ensures game.Snapshot() == Negamax(old(game.Snapshot()), depth).final
  {
    if OpposingPlayerState(game.Snapshot()).score >= 40 {
      value := NegInf;
    } else if |CurrentPlayerState(game.Snapshot()).hand.cards| == 0 {
      value := Fin(DeterministicValue(game.Snapshot()));
    } else if depth == 0 {
      value := Fin(HeuristicValue(game.Snapshot()));
    } else {
      ghost var trace := TraceOf(game.Snapshot(), depth);
      value := SearchAllMoves(game, depth, trace);
    }
  }

  /**
   * The loop of minimax over the generated moves, from a position where none of the cut-offs
   * apply: after it, the value and the position are the trace's last entry.
   */
  method SearchAllMoves(game: GameState, depth: int, ghost trace: seq<Outcome>) returns (value: ExtInt)
    requires Searchable(game.Snapshot()) && IsTrace(game.Snapshot(), depth, trace)
    modifies game
    decreases HandTotal(game.Snapshot()), 1
    ensures game.deck == old(game.deck)
    ensures Outcome(value, game.Snapshot()) == trace[|trace| - 1]
  {
    ghost var s := game.Snapshot();
    var availableMoves := GenerateAllMoves(game);
    value := NegInf;
    SearchMovesStart(s, depth, trace);
    for i := 0 to availableMoves.Size()
      invariant game.deck == old(game.deck)
      invariant availableMoves.Valid() && availableMoves.Contents() == Moves(s)
      invariant Outcome(value, game.Snapshot()) == trace[i]
    {
      value := TryMove(game, s, depth, trace, availableMoves, i, value);
    }
  }

  /** Before any move the trace holds lowest() and the position searched. */
  lemma SearchMovesStart(s: State, depth: int, trace: seq<Outcome>)
    requires Searchable(s) && IsTrace(s, depth, trace)
    ensures trace[0] == Outcome(NegInf, s)
  {
    assert trace[0] == SearchMoves(s, depth, 0);
  }

  /**
   * One turn of minimax's loop: move j made in place, the turn passed, the opponent searched one
   * ply less, the turn passed back and the move undone; the result is the larger of the value
   * so far and the negated value from below.
   */
  method TryMove(game: GameState, ghost s: State, depth: int, ghost trace: seq<Outcome>,
                 moves: BoundedArray<RankMask>, j: int, value: ExtInt)
    returns (newValue: ExtInt)
    requires Searchable(s) && IsTrace(s, depth, trace)
    requires moves.Valid() && moves.Contents() == Moves(s) && 0 <= j < |Moves(s)|
    requires Outcome(value, game.Snapshot()) == trace[j]
    modifies game
    decreases HandTotal(s), 0
    ensures game.deck == old(game.deck)
    ensures Outcome(newValue, game.Snapshot()) == trace[j + 1]
  {
    SearchMovesUnfold(s, depth, j);
    StepFacts(s, game.Snapshot(), j);
    var x := moves.At(j);
    var undo := MakeMoveInPlace(game, Move(x.value));
    game.AdvanceTurn();
    var sub := Minimax(game, depth - 1);
    newValue := Max(value, Neg(sub));
    game.UnadvanceTurn();
    UndoMoveInPlace(game, undo.value);
  }
}
