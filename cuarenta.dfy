/**
 * The transition engine: applying a move in place (captures, the waterfall chain capture,
 * Caída and Limpia), undoing it, applying it to a copy, and the round-end score update.
 */
module Engine {
  import opened Wrappers
  import opened Ranks
  import opened GameStates

  /** What undo_move_in_place needs to invert one make_move_in_place. */
  datatype Undo = Undo(move: Move, lastPlayedCard: Rank, numWaterfalledCards: int)

  // ---------------------------------------------------------------------------
  // Mask and hand helpers

  /** remove_ranks: `cards & ~(cards & to_remove)`, which clears exactly the bits of `toRemove`. */
  function RemoveRanks(cards: RankMask, toRemove: RankMask): (r: RankMask)
    ensures r == cards - toRemove
  {
    cards * Complement(cards * toRemove)
  }

  /** add_ranks */
  function AddRanks(cards: RankMask, toAdd: RankMask): (r: RankMask)
    ensures r == cards + toAdd
  {
    cards + toAdd
  }

  /** Adding back what was removed restores a mask that held it; removing what was added restores a mask that lacked it. */
  lemma AddRemoveInverse(cards: RankMask, bits: RankMask)
    ensures ContainsRanks(cards, bits) ==> AddRanks(RemoveRanks(cards, bits), bits) == cards
    ensures cards * bits == {} ==> RemoveRanks(AddRanks(cards, bits), bits) == cards
  {
    if cards * bits == {} {
      forall i | i in cards
        ensures i !in bits
      {
        assert i !in cards * bits;
      }
    }
  }

  /** is_card_in_hand */
  predicate IsCardInHand(hand: Hand, card: Rank) {
    card in hand.cards
  }

  /** remove_card_from_hand: erases the first occurrence of the card, if there is one. */
  function RemoveFirst<T(==)>(cards: seq<T>, card: T): (r: seq<T>)
    ensures card !in cards ==> r == cards
    ensures card in cards ==> |r| == |cards| - 1
  {
    if cards == [] then []
    else if cards[0] == card then cards[1..]
    else [cards[0]] + RemoveFirst(cards[1..], card)
  }

  /** Removing a card that is there takes exactly one copy of it out of the hand's multiset. */
  lemma {:induction false} RemoveFirstMultiset<T>(cards: seq<T>, card: T)
    requires card in cards
    ensures multiset(RemoveFirst(cards, card)) == multiset(cards) - multiset{card}
  {
    assert cards == [cards[0]] + cards[1..];
    if cards[0] != card {
      RemoveFirstMultiset(cards[1..], card);
    }
  }

  /** Only the first occurrence goes: the cards before it and after it stay in order. */
  lemma {:induction false} RemoveFirstSplits<T>(cards: seq<T>, card: T) returns (i: nat)
    requires card in cards
    ensures i < |cards| && cards[i] == card && card !in cards[..i]
    ensures RemoveFirst(cards, card) == cards[..i] + cards[i + 1..]
  {
    if cards[0] == card {
      assert cards[..0] == [];
      return 0;
    }
    var tail := cards[1..];
    var j := RemoveFirstSplits(tail, card);
    i := j + 1;
    assert cards[..i] == [cards[0]] + tail[..j];
    assert cards[i + 1..] == tail[j + 1..];
    calc {
      RemoveFirst(cards, card);
      [cards[0]] + RemoveFirst(tail, card);
      [cards[0]] + (tail[..j] + tail[j + 1..]);
      ([cards[0]] + tail[..j]) + tail[j + 1..];
    }
  }


  // ---------------------------------------------------------------------------
  // The waterfall

  /** The rank's bit is set in the mask (Invalid, the zero pattern, is in every mask). */
  predicate OnTable(cards: RankMask, q: Rank) {
    ContainsRanks(cards, q.Bit())
  }

  /** The bits of the k ranks directly above `start`: positions Ordinal(start) up to Ordinal(start) + k - 1. */
  function RunAbove(start: Rank, k: int): RankMask {
    set i | i in ALL_BITS && Ordinal(start) <= i < Ordinal(start) + k
  }

  /** Stepping one rank further adds that rank's bit. */
  lemma RunAboveGrows(start: Rank, k: nat)
    requires Ordinal(start) + k < 10
    ensures RunAbove(start, k + 1) == RunAbove(start, k) + {Ordinal(start) + k}
  {
  }

  /** A run of no ranks is empty. */
  lemma RunAboveEmpty(start: Rank, k: int)
    requires k <= 0
    ensures RunAbove(start, k) == {}
  {
    forall i | i in RunAbove(start, k)
      ensures false
    {
    }
  }

  /** The number of consecutive ranks directly above `current` that are on the table; it stops at the first gap or at King. */
  function Run(cards: RankMask, current: Rank): (n: nat)
    requires current != Invalid
    decreases 10 - Ordinal(current)
    ensures n <= 10 - Ordinal(current)
  {
    if current == King then 0
    else
      var next := Succ(current).value;
      if OnTable(cards, next) then 1 + Run(cards, next) else 0
  }

  /**
   * The run found from `current` is maximal: every rank of it is on the table, and the rank
   * after it is not, unless the run ends at King.
   */
  lemma {:induction false} RunIsMaximal(cards: RankMask, current: Rank, q: Rank)
    requires current != Invalid
    decreases 10 - Ordinal(current)
    ensures Ordinal(current) < Ordinal(q) <= Ordinal(current) + Run(cards, current) ==> OnTable(cards, q)
    ensures Ordinal(q) == Ordinal(current) + Run(cards, current) + 1 ==> !OnTable(cards, q)
  {
    if current != King {
      var next := Succ(current).value;
      assert Ordinal(q) == Ordinal(next) ==> q == next by {
        OrdinalInjective(q, next);
      }
      if OnTable(cards, next) {
        RunIsMaximal(cards, next, q);
      }
    }
  }

  /** All the bits of the run are on the table. */
  lemma RunIsOnTable(cards: RankMask, start: Rank)
    requires start != Invalid
    ensures RunAbove(start, Run(cards, start)) <= cards
  {
    forall i | i in RunAbove(start, Run(cards, start))
      ensures i in cards
    {
      RunIsMaximal(cards, start, OrdinalRank(i + 1));
    }
  }

  /**
   * sequence_waterfall as a value: the run above `start` is taken off the table and its
   * length returned. Starting from Invalid throws, because the loop's first ++ does.
   */
  function Waterfall(cards: RankMask, start: Rank): Result<(RankMask, nat)> {
    if start == Invalid then Err(IncrementInvalid)
    else
      var n := Run(cards, start);
      Ok((cards - RunAbove(start, n), n))
  }

  /**
   * sequence_waterfall takes off the table the maximal run of consecutive ranks directly
   * above `start` and returns its length n: a rank is on the table afterwards exactly when
   * it was before and is not one of the n ranks above `start`; those n ranks were all on the
   * table and the one after them was not (unless the run reached King); the bits above King
   * do not change; and n is at most 10 - rank_to_int(start).
   */
  lemma WaterfallRemovesMaximalRun(cards: RankMask, start: Rank, q: Rank)
    requires start != Invalid
    ensures Waterfall(cards, start).Ok?
    ensures var (after, n) := Waterfall(cards, start).value;
      && n <= 10 - RankToInt(start)
      && (OnTable(after, q) <==> OnTable(cards, q) && !(Ordinal(start) < Ordinal(q) <= Ordinal(start) + n))
      && (Ordinal(start) < Ordinal(q) <= Ordinal(start) + n ==> OnTable(cards, q))
      && (Ordinal(q) == Ordinal(start) + n + 1 ==> !OnTable(cards, q))
      && after * HIGH_BITS == cards * HIGH_BITS
  {
    var n := Run(cards, start);
    RunIsMaximal(cards, start, q);
    OffRun(cards, start, n, q);
  }

  /** A rank is on the table after the run is cleared exactly when it was before and is not part of the run. */
  lemma OffRun(cards: RankMask, start: Rank, n: int, q: Rank)
    requires Ordinal(start) + n <= 10
    ensures OnTable(cards - RunAbove(start, n), q) <==> OnTable(cards, q) && !(Ordinal(start) < Ordinal(q) <= Ordinal(start) + n)
    ensures (cards - RunAbove(start, n)) * HIGH_BITS == cards * HIGH_BITS
  {
    if q != Invalid {
      assert Ordinal(q) - 1 in RunAbove(start, n) <==> Ordinal(start) < Ordinal(q) <= Ordinal(start) + n;
    }
  }

  /** One step of the loop: the next rank of the run is still on the table exactly when the run goes on. */
  lemma WaterfallStep(cards: RankMask, start: Rank, n: nat, next: Rank)
    requires start != Invalid && n <= Run(cards, start) && Ordinal(next) == Ordinal(start) + n + 1
    ensures var table := cards - RunAbove(start, n);
      && (OnTable(table, next) <==> n < Run(cards, start))
      && table - next.Bit() == cards - RunAbove(start, n + 1)
  {
    RunIsMaximal(cards, start, next);
    OffRun(cards, start, n, next);
    RunAboveGrows(start, n);
  }

  /** The value Waterfall gives once the run is known. */
  lemma WaterfallOfRun(cards: RankMask, start: Rank, n: nat)
    requires start != Invalid && n == Run(cards, start)
    ensures Waterfall(cards, start) == Ok((cards - RunAbove(start, n), n))
  {
  }

  /** sequence_waterfall, on a mask passed by reference: returns the new mask and the count. */
  method SequenceWaterfall(cards: RankMask, start: Rank) returns (r: Result<(RankMask, nat)>)
    ensures r == Waterfall(cards, start)
  {
    var table := cards;
    var numCardsSequenced: nat := 0;
    var current := start;
    if current == Invalid {
      // The loop condition holds for Invalid, and its first postfix ++ throws.
      var next := Succ(current);
      return Err(next.error);
    }
    while current != King
      invariant numCardsSequenced <= Run(cards, start)
      invariant Ordinal(current) == Ordinal(start) + numCardsSequenced
      invariant table == cards - RunAbove(start, numCardsSequenced)
      decreases 10 - Ordinal(current)
    {
      var next := Succ(current);
      current := next.value;
      WaterfallStep(cards, start, numCardsSequenced, current);
      if ContainsRanks(table, current.Bit()) {
        table := RemoveRanks(table, current.Bit());
        numCardsSequenced := numCardsSequenced + 1;
      } else {
        WaterfallOfRun(cards, start, numCardsSequenced);
        return Ok((table, numCardsSequenced));
      }
    }
    WaterfallOfRun(cards, start, numCardsSequenced);
    return Ok((table, numCardsSequenced));
  }

  // ---------------------------------------------------------------------------
  // Applying a move, as a value

  /** is_addition: the mask does not have exactly one bit set (so the empty mask counts as one). */
  predicate IsAddition(m: Move) {
    !HasSingleBit(m.targetsMask)
  }

  /** addition_mask: the move's mask with the played rank's bit cleared. */
  function AdditionMask(m: Move, played: Rank): (r: RankMask)
    ensures r == m.targetsMask - played.Bit()
  {
    m.targetsMask * Complement(played.Bit())
  }

  /** table_has_capture: an addition's targets are all on the table, or a single card's rank is. */
  predicate TableHasCapture(t: Table, m: Move, played: Rank) {
    if IsAddition(m) then ContainsRanks(t.cards, AdditionMask(m, played))
    else ContainsRanks(t.cards, played.Bit())
  }

  /** What an accepted move does to the table and to the mover's counts, and the waterfall count. */
  datatype Effect = Effect(table: Table, mover: PlayerState, waterfalled: nat)

  /** An addition: the waterfall above the played rank, then its targets come off the table. */
  function AdditionEffect(t: Table, mover: PlayerState, m: Move, played: Rank): Result<Effect> {
    var wf := Waterfall(t.cards, played);
    if wf.Err? then Err(wf.error)
    else
      Ok(Effect(Table(RemoveRanks(wf.value.0, AdditionMask(m, played)), Invalid),
        mover.(numCapturedCards := mover.numCapturedCards + |m.targetsMask| + wf.value.1), wf.value.1))
  }

  /** Placing: the card's bit joins the table and it becomes the last played card. */
  function PlaceEffect(t: Table, mover: PlayerState, m: Move, played: Rank): Result<Effect> {
    Ok(Effect(Table(AddRanks(t.cards, m.targetsMask), played), mover, 0))
  }

  /** A single capture: the Caída bonus, the waterfall, then the matched card comes off the table. */
  function CaptureEffect(t: Table, mover: PlayerState, m: Move, played: Rank): Result<Effect> {
    var caida := if played == t.lastPlayedCard then mover.(score := mover.score + 2) else mover;
    var wf := Waterfall(t.cards, played);
    if wf.Err? then Err(wf.error)
    else
      Ok(Effect(Table(RemoveRanks(wf.value.0, played.Bit()), Invalid),
        caida.(numCapturedCards := caida.numCapturedCards + 2 + wf.value.1), wf.value.1))
  }

  /** The three branches of make_move_in_place once the move is accepted: addition, placing, capture. */
  function Resolve(t: Table, mover: PlayerState, m: Move, played: Rank): Result<Effect> {
    if IsAddition(m) then AdditionEffect(t, mover, m, played)
    else if !TableHasCapture(t, m, played) then PlaceEffect(t, mover, m, played)
    else CaptureEffect(t, mover, m, played)
  }

  /** An addition of a real rank captures its targets and the run above the played rank. */
  lemma ResolveAddition(t: Table, mover: PlayerState, m: Move, played: Rank)
    requires IsAddition(m) && played != Invalid
    ensures Resolve(t, mover, m, played).Ok?
    ensures
      var e := Resolve(t, mover, m, played).value;
      var w := Run(t.cards, played);
      && e.waterfalled == w
      && e.table.cards == t.cards - RunAbove(played, w) - (m.targetsMask - played.Bit())
      && e.table.lastPlayedCard == Invalid
      && e.mover.numCapturedCards == mover.numCapturedCards + |m.targetsMask| + w
      && e.mover.score == mover.score && e.mover.hand == mover.hand
  {
    WaterfallOfRun(t.cards, played, Run(t.cards, played));
  }

  /** A single card with no match on the table is added to it. */
  lemma ResolvePlace(t: Table, mover: PlayerState, m: Move, played: Rank)
    requires !IsAddition(m) && !TableHasCapture(t, m, played)
    ensures Resolve(t, mover, m, played) == Ok(Effect(Table(t.cards + m.targetsMask, played), mover, 0))
  {
  }

  /** A single card matching a table card captures it and the run above it, with the Caída bonus when it matches the last placed card. */
  lemma ResolveCapture(t: Table, mover: PlayerState, m: Move, played: Rank)
    requires !IsAddition(m) && TableHasCapture(t, m, played) && played != Invalid
    ensures Resolve(t, mover, m, played).Ok?
    ensures
      var e := Resolve(t, mover, m, played).value;
      var w := Run(t.cards, played);
      && e.waterfalled == w
      && e.table.cards == t.cards - RunAbove(played, w) - played.Bit()
      && e.table.lastPlayedCard == Invalid
      && e.mover.numCapturedCards == mover.numCapturedCards + 2 + w
      && e.mover.score == mover.score + (if played == t.lastPlayedCard then 2 else 0)
      && e.mover.hand == mover.hand
  {
    WaterfallOfRun(t.cards, played, Run(t.cards, played));
  }

  /** The end of make_move_in_place: the Limpia bonus, the played card leaving the hand, and the undo record. */
  function Finish(s: State, m: Move, played: Rank, e: Effect): (State, Undo) {
    var limpia := if e.table.cards == {} then e.mover.(score := e.mover.score + 2) else e.mover;
    var after := limpia.(hand := Hand(RemoveFirst(limpia.hand.cards, played)));
    (s.(table := e.table, players := s.players.Set(s.toMove, after)), Undo(m, s.table.lastPlayedCard, e.waterfalled))
  }

  /**
   * make_move_in_place on the value of the game: the new state and the undo record, or the
   * exception it throws. Every throw happens before anything is written.
   */
  function Apply(s: State, m: Move): Result<(State, Undo)> {
    var mover := CurrentPlayerState(s);
    var played := m.PlayedRank();
    if played.Err? then Err(played.error)
    else if !IsCardInHand(mover.hand, played.value) then Err(CardNotInHand)
    else if IsAddition(m) && !TableHasCapture(s.table, m, played.value) then Err(TargetsNotOnTable)
    else
      var e := Resolve(s.table, mover, m, played.value);
      if e.Err? then Err(e.error) else Ok(Finish(s, m, played.value, e.value))
  }

  /** A single-bit move that names a rank plays a real rank, and its mask is that rank's bit. */
  lemma SingleBitPlayed(m: Move)
    requires !IsAddition(m) && m.PlayedRank().Ok?
    ensures m.PlayedRank().value != Invalid
    ensures m.targetsMask == m.PlayedRank().value.Bit()
  {
    var q := SingleBitPosition(m.targetsMask);
    assert q < Ordinal(m.PlayedRank().value);
  }

  /** The steps Apply takes when it succeeds, named. */
  lemma ApplySteps(s: State, m: Move) returns (played: Rank, e: Effect)
    requires Apply(s, m).Ok?
    ensures m.PlayedRank() == Ok(played)
    ensures IsCardInHand(CurrentPlayerState(s).hand, played)
    ensures IsAddition(m) ==> TableHasCapture(s.table, m, played)
    ensures Resolve(s.table, CurrentPlayerState(s), m, played) == Ok(e)
    ensures Apply(s, m) == Ok(Finish(s, m, played, e))
  {
    played := m.PlayedRank().value;
    e := Resolve(s.table, CurrentPlayerState(s), m, played).value;
  }

  // ---------------------------------------------------------------------------
  // What applying a move does

  /** A move whose played rank is Invalid has the empty mask, which counts as an addition. */
  lemma InvalidPlayedIsEmpty(m: Move)
    requires m.PlayedRank() == Ok(Invalid)
    ensures m.targetsMask == {} && IsAddition(m)
  {
  }

  /** The waterfall's ++ of Invalid makes an addition played as Invalid throw. */
  lemma ResolveInvalid(t: Table, mover: PlayerState, m: Move)
    requires IsAddition(m)
    ensures Resolve(t, mover, m, Invalid) == Err(IncrementInvalid)
  {
  }

  /**
   * make_move_in_place throws in the order the code checks: a bad mask, a card not in the
   * hand, missing addition targets, and the ++ of Invalid when the empty mask is played from a
   * hand holding Invalid.
   */
  lemma ApplyRejects(s: State, m: Move)
    ensures m.PlayedRank().Err? ==> Apply(s, m) == Err(InvalidRankCast)
    ensures m.PlayedRank().Ok? ==>
      var played := m.PlayedRank().value;
      var hand := CurrentPlayerState(s).hand;
      && (!IsCardInHand(hand, played) ==> Apply(s, m) == Err(CardNotInHand))
      && (IsCardInHand(hand, played) && IsAddition(m) && !ContainsRanks(s.table.cards, m.targetsMask - played.Bit()) ==>
          Apply(s, m) == Err(TargetsNotOnTable))
      && (IsCardInHand(hand, played) && played == Invalid ==> Apply(s, m) == Err(IncrementInvalid))
  {
    if m.PlayedRank() == Ok(Invalid) {
      InvalidPlayedIsEmpty(m);
      ResolveInvalid(s.table, CurrentPlayerState(s), m);
    }
  }

  /**
   * make_move_in_place accepts a move exactly when its mask names a rank, that rank is a real
   * rank in the mover's hand, and, for an addition, the lower bits are all on the table.
   */
  lemma ApplyAccepts(s: State, m: Move)
    ensures Apply(s, m).Ok? <==>
      && m.PlayedRank().Ok?
      && IsCardInHand(CurrentPlayerState(s).hand, m.PlayedRank().value)
      && m.PlayedRank().value != Invalid
      && (IsAddition(m) ==> ContainsRanks(s.table.cards, m.targetsMask - m.PlayedRank().value.Bit()))
  {
    ApplyRejects(s, m);
    if m.PlayedRank().Ok? && m.PlayedRank().value != Invalid {
      var played := m.PlayedRank().value;
      var mover := CurrentPlayerState(s);
      if IsAddition(m) {
        ResolveAddition(s.table, mover, m, played);
      } else if TableHasCapture(s.table, m, played) {
        ResolveCapture(s.table, mover, m, played);
      } else {
        ResolvePlace(s.table, mover, m, played);
      }
    }
  }

  /** What Finish leaves: the effect's table, the mover's counts plus the Limpia bonus, one card out of the hand, nothing else touched. */
  lemma FinishFacts(s: State, m: Move, played: Rank, e: Effect)
    ensures
      var (s1, u) := Finish(s, m, played, e);
      var mover := CurrentPlayerState(s1);
      && s1.table == e.table && s1.deck == s.deck && s1.toMove == s.toMove
      && mover.numCapturedCards == e.mover.numCapturedCards
      && mover.score == e.mover.score + (if e.table.cards == {} then 2 else 0)
      && mover.hand == Hand(RemoveFirst(e.mover.hand.cards, played))
      && OpposingPlayerState(s1) == OpposingPlayerState(s)
      && u == Undo(m, s.table.lastPlayedCard, e.waterfalled)
  {
    var s1 := Finish(s, m, played, e).0;
    AccessorsAreRelative(s);
    AccessorsAreRelative(s1);
  }

  /**
   * A single card whose rank is not on the table is placed: its bit is added to the table and
   * it becomes the last played card; the mover's score and captured count do not change and
   * one copy of the card leaves the hand.
   */
  lemma ApplyPlaces(s: State, m: Move)
    requires Apply(s, m).Ok? && !IsAddition(m) && !OnTable(s.table.cards, m.PlayedRank().value)
    ensures
      var (s1, u) := Apply(s, m).value;
      var played := m.PlayedRank().value;
      var mover := CurrentPlayerState(s);
      && s1.table.cards == s.table.cards + played.Bit()
      && s1.table.lastPlayedCard == played
      && CurrentPlayerState(s1).score == mover.score
      && CurrentPlayerState(s1).numCapturedCards == mover.numCapturedCards
      && CurrentPlayerState(s1).hand.cards == RemoveFirst(mover.hand.cards, played)
      && u.numWaterfalledCards == 0
  {
    var played, e := ApplySteps(s, m);
    SingleBitPlayed(m);
    ResolvePlace(s.table, CurrentPlayerState(s), m, played);
    FinishFacts(s, m, played, e);
    assert Ordinal(played) - 1 in e.table.cards;
  }

  /** The played rank's own bit is neither among an addition's targets nor in the run above it. */
  lemma PlayedBitOutsideCapture(cards: RankMask, m: Move, played: Rank, w: int)
    requires played != Invalid
    ensures OnTable(cards - RunAbove(played, w) - (m.targetsMask - played.Bit()), played) <==> OnTable(cards, played)
  {
    assert Ordinal(played) - 1 !in RunAbove(played, w);
  }

  /**
   * A capture takes the waterfall run above the played rank off the table, then the
   * addition's targets or the captured card itself, and clears the last played card. An
   * addition adds popcount(mask) + w captured cards and leaves the played rank's own table bit
   * alone; a single capture adds 2 + w.
   */
  lemma ApplyCaptures(s: State, m: Move)
    requires Apply(s, m).Ok? && (IsAddition(m) || OnTable(s.table.cards, m.PlayedRank().value))
    ensures
      var (s1, u) := Apply(s, m).value;
      var played := m.PlayedRank().value;
      var w := Run(s.table.cards, played);
      var before := CurrentPlayerState(s).numCapturedCards;
      && u.numWaterfalledCards == w
      && s1.table.lastPlayedCard == Invalid
      && (IsAddition(m) ==>
          && s1.table.cards == s.table.cards - RunAbove(played, w) - (m.targetsMask - played.Bit())
          && CurrentPlayerState(s1).numCapturedCards == before + |m.targetsMask| + w
          && (OnTable(s1.table.cards, played) <==> OnTable(s.table.cards, played)))
      && (!IsAddition(m) ==>
          && s1.table.cards == s.table.cards - RunAbove(played, w) - played.Bit()
          && CurrentPlayerState(s1).numCapturedCards == before + 2 + w)
  {
    var played, e := ApplySteps(s, m);
    ApplyAccepts(s, m);
    if IsAddition(m) {
      ResolveAddition(s.table, CurrentPlayerState(s), m, played);
      PlayedBitOutsideCapture(s.table.cards, m, played, Run(s.table.cards, played));
    } else {
      ResolveCapture(s.table, CurrentPlayerState(s), m, played);
    }
    FinishFacts(s, m, played, e);
  }

  /**
   * The mover's score rises by 2 for a Caída (a single card capturing the rank that was last
   * placed) and by 2 for a Limpia (the table is empty afterwards), and by nothing else.
   */
  lemma ApplyScores(s: State, m: Move)
    requires Apply(s, m).Ok?
    ensures
      var s1 := Apply(s, m).value.0;
      var played := m.PlayedRank().value;
      var caida := !IsAddition(m) && OnTable(s.table.cards, played) && played == s.table.lastPlayedCard;
      CurrentPlayerState(s1).score ==
        CurrentPlayerState(s).score + (if caida then 2 else 0) + (if s1.table.cards == {} then 2 else 0)
  {
    var played, e := ApplySteps(s, m);
    ApplyAccepts(s, m);
    var mover := CurrentPlayerState(s);
    if IsAddition(m) {
      ResolveAddition(s.table, mover, m, played);
    } else if OnTable(s.table.cards, played) {
      ResolveCapture(s.table, mover, m, played);
    } else {
      ResolvePlace(s.table, mover, m, played);
    }
    FinishFacts(s, m, played, e);
  }

  /**
   * Applying a move touches only the table and the mover's state: the opponent, the deck and
   * the player to move stay as they were, and exactly one copy of the played card leaves the
   * mover's hand. The undo record keeps the move and the last played card from before.
   */
  lemma ApplyFrame(s: State, m: Move)
    requires Apply(s, m).Ok?
    ensures
      var (s1, u) := Apply(s, m).value;
      var played := m.PlayedRank().value;
      var hand := CurrentPlayerState(s).hand.cards;
      && s1.deck == s.deck && s1.toMove == s.toMove
      && OpposingPlayerState(s1) == OpposingPlayerState(s)
      && CurrentPlayerState(s1).hand.cards == RemoveFirst(hand, played)
      && multiset(CurrentPlayerState(s1).hand.cards) == multiset(hand) - multiset{played}
      && u.move == m && u.lastPlayedCard == s.table.lastPlayedCard
  {
    var played, e := ApplySteps(s, m);
    ApplyAccepts(s, m);
    var mover := CurrentPlayerState(s);
    if IsAddition(m) {
      ResolveAddition(s.table, mover, m, played);
    } else if OnTable(s.table.cards, played) {
      ResolveCapture(s.table, mover, m, played);
    } else {
      ResolvePlace(s.table, mover, m, played);
    }
    FinishFacts(s, m, played, e);
    RemoveFirstMultiset(mover.hand.cards, played);
  }

  /** The last played card is Invalid or on the table: what undoing a move relies on. */
  predicate LastPlayedOnTable(s: State) {
    s.table.lastPlayedCard == Invalid || OnTable(s.table.cards, s.table.lastPlayedCard)
  }

  /** Every successful move leaves the last played card Invalid or on the table. */
  lemma ApplyEstablishesLastPlayedOnTable(s: State, m: Move)
    requires Apply(s, m).Ok?
    ensures LastPlayedOnTable(Apply(s, m).value.0)
  {
    var played, e := ApplySteps(s, m);
    if !IsAddition(m) && !TableHasCapture(s.table, m, played) {
      SingleBitPlayed(m);
    }
  }

  // ---------------------------------------------------------------------------
  // Undoing a move, as a value

  /**
   * What undo_move_in_place needs of its record to run without throwing: the move's mask names
   * a rank, and the waterfall count walks ++ from the played rank no further than King. A
   * record made by make_move_in_place always has this shape.
   */
  predicate UndoFits(u: Undo) {
    && u.move.PlayedRank().Ok?
    && (u.numWaterfalledCards > 0 ==>
        u.move.PlayedRank().value != Invalid && Ordinal(u.move.PlayedRank().value) + u.numWaterfalledCards <= 10)
  }

  /**
   * The table mask after undo_move_in_place: an addition's targets are added back; a single
   * card is taken off the table when it is there (it was placed) and put back when it is not
   * (it captured its match); then the waterfalled ranks above the played rank are added back.
   */
  function UndoCards(cards: RankMask, m: Move, played: Rank, w: int): RankMask {
    var restored :=
      if IsAddition(m) then AddRanks(cards, AdditionMask(m, played))
      else if OnTable(cards, played) then RemoveRanks(cards, played.Bit())
      else AddRanks(cards, played.Bit());
    restored + RunAbove(played, w)
  }

  /**
   * The mover after undo_move_in_place: the played card appended to the hand, the Caída and
   * Limpia bonuses taken back, and the captured count taken back unless the card had been placed.
   */
  function UndoMover(mover: PlayerState, cards: RankMask, u: Undo, played: Rank): PlayerState {
    var addition := IsAddition(u.move);
    var caida := if played == u.lastPlayedCard && !addition then 2 else 0;
    var limpia := if cards == {} then 2 else 0;
    var captured :=
      if !OnTable(cards, played) || addition then
        mover.numCapturedCards - ((if addition then |u.move.targetsMask| else 2) + u.numWaterfalledCards)
      else mover.numCapturedCards;
    PlayerState(Hand(mover.hand.cards + [played]), captured, mover.score - caida - limpia)
  }

  /** undo_move_in_place on the value of the game, for the player to move. */
  function Unapply(s: State, u: Undo): State
    requires UndoFits(u)
  {
    var played := u.move.PlayedRank().value;
    var mover := UndoMover(CurrentPlayerState(s), s.table.cards, u, played);
    s.(table := Table(UndoCards(s.table.cards, u.move, played, u.numWaterfalledCards), u.lastPlayedCard),
       players := s.players.Set(s.toMove, mover))
  }

  /** Taking two disjoint parts out of a set and adding them back gives the set again. */
  lemma RestoreParts(c: RankMask, x: RankMask, y: RankMask)
    requires x <= c && y <= c && x * y == {}
    ensures (c - x - y) + y + x == c
  {
    forall i | i in c
      ensures i in (c - x - y) + y + x
    {
    }
  }

  /** An addition's targets lie below the played rank, so they miss the run above it. */
  lemma TargetsMissRun(m: Move, played: Rank, w: int)
    requires m.PlayedRank() == Ok(played)
    ensures RunAbove(played, w) * (m.targetsMask - played.Bit()) == {}
  {
    forall i | i in m.targetsMask - played.Bit()
      ensures i !in RunAbove(played, w)
    {
    }
  }

  /** Adding back an addition's targets and the waterfall run restores the table it was captured from. */
  lemma UndoCardsAfterAddition(cards: RankMask, m: Move, played: Rank, w: int)
    requires IsAddition(m) && ContainsRanks(cards, m.targetsMask - played.Bit())
    requires RunAbove(played, w) <= cards && RunAbove(played, w) * (m.targetsMask - played.Bit()) == {}
    ensures UndoCards(cards - RunAbove(played, w) - (m.targetsMask - played.Bit()), m, played, w) == cards
  {
    RestoreParts(cards, RunAbove(played, w), m.targetsMask - played.Bit());
  }

  /** Putting a captured card back with its waterfall run restores the table. */
  lemma UndoCardsAfterCapture(cards: RankMask, m: Move, played: Rank, w: int)
    requires !IsAddition(m) && played != Invalid && OnTable(cards, played) && RunAbove(played, w) <= cards
    ensures
      var after := cards - RunAbove(played, w) - played.Bit();
      !OnTable(after, played) && UndoCards(after, m, played, w) == cards
  {
    assert Ordinal(played) - 1 !in RunAbove(played, w);
    RestoreParts(cards, RunAbove(played, w), played.Bit());
  }

  /** Taking a placed card back off restores the table. */
  lemma UndoCardsAfterPlace(cards: RankMask, m: Move, played: Rank)
    requires !IsAddition(m) && played != Invalid && !OnTable(cards, played)
    ensures OnTable(cards + played.Bit(), played) && UndoCards(cards + played.Bit(), m, played, 0) == cards
  {
  }

  /**
   * s2 is s with one copy of the played card moved from its place in the mover's hand to the
   * end: the same table, last played card, deck, turn, opponent, score and captured count.
   */
  predicate RestoresUpToHandOrder(s: State, s2: State, played: Rank) {
    var mover := CurrentPlayerState(s);
    var mover2 := CurrentPlayerState(s2);
    && s2.table.cards == s.table.cards
    && s2.table.lastPlayedCard == s.table.lastPlayedCard
    && s2.deck == s.deck && s2.toMove == s.toMove
    && OpposingPlayerState(s2) == OpposingPlayerState(s)
    && mover2.score == mover.score
    && mover2.numCapturedCards == mover.numCapturedCards
    && mover2.hand.cards == RemoveFirst(mover.hand.cards, played) + [played]
  }

  /** Unapply writes only the table and the mover; the opponent, the deck and the turn stay. */
  lemma UnapplyFrame(s: State, u: Undo)
    requires UndoFits(u)
    ensures
      var s2 := Unapply(s, u);
      && s2.deck == s.deck && s2.toMove == s.toMove
      && OpposingPlayerState(s2) == OpposingPlayerState(s)
      && CurrentPlayerState(s2) == UndoMover(CurrentPlayerState(s), s.table.cards, u, u.move.PlayedRank().value)
  {
    AccessorsAreRelative(s);
    AccessorsAreRelative(Unapply(s, u));
  }

  /** Undoing a successful move puts back the table it was made on and the last played card. */
  lemma UnapplyRestoresTable(s: State, m: Move)
    requires Apply(s, m).Ok?
    ensures
      var (s1, u) := Apply(s, m).value;
      && UndoFits(u)
      && Unapply(s1, u).table.cards == s.table.cards
      && Unapply(s1, u).table.lastPlayedCard == s.table.lastPlayedCard
  {
    ApplyAccepts(s, m);
    ApplyFrame(s, m);
    var played := m.PlayedRank().value;
    if IsAddition(m) {
      ApplyCaptures(s, m);
      RunIsOnTable(s.table.cards, played);
      TargetsMissRun(m, played, Run(s.table.cards, played));
      UndoCardsAfterAddition(s.table.cards, m, played, Run(s.table.cards, played));
    } else if OnTable(s.table.cards, played) {
      ApplyCaptures(s, m);
      RunIsOnTable(s.table.cards, played);
      UndoCardsAfterCapture(s.table.cards, m, played, Run(s.table.cards, played));
    } else {
      ApplyPlaces(s, m);
      UndoCardsAfterPlace(s.table.cards, m, played);
    }
  }

  // The counts undo_move_in_place computes from a resolved move: whatever the mover held after
  // the move (its effect plus the Limpia bonus), the undo takes back exactly what was gained.

  lemma UndoMoverAfterAddition(t: Table, mover: PlayerState, m: Move, played: Rank, after: PlayerState)
    requires IsAddition(m) && played != Invalid
    requires
      var e := Resolve(t, mover, m, played).value;
      && after.score == e.mover.score + (if e.table.cards == {} then 2 else 0)
      && after.numCapturedCards == e.mover.numCapturedCards
    ensures
      var e := Resolve(t, mover, m, played).value;
      var back := UndoMover(after, e.table.cards, Undo(m, t.lastPlayedCard, e.waterfalled), played);
      back.score == mover.score && back.numCapturedCards == mover.numCapturedCards
  {
    ResolveAddition(t, mover, m, played);
  }

  lemma UndoMoverAfterCapture(t: Table, mover: PlayerState, m: Move, played: Rank, after: PlayerState)
    requires !IsAddition(m) && played != Invalid && OnTable(t.cards, played)
    requires
      var e := Resolve(t, mover, m, played).value;
      && after.score == e.mover.score + (if e.table.cards == {} then 2 else 0)
      && after.numCapturedCards == e.mover.numCapturedCards
    ensures
      var e := Resolve(t, mover, m, played).value;
      var back := UndoMover(after, e.table.cards, Undo(m, t.lastPlayedCard, e.waterfalled), played);
      back.score == mover.score && back.numCapturedCards == mover.numCapturedCards
  {
    ResolveCapture(t, mover, m, played);
    RunIsOnTable(t.cards, played);
    UndoCardsAfterCapture(t.cards, m, played, Run(t.cards, played));
  }

  /** Placing a card that equals the last played card would lose a Caída it never won; a last played card on the table rules that out. */
  lemma UndoMoverAfterPlace(t: Table, mover: PlayerState, m: Move, played: Rank, after: PlayerState)
    requires !IsAddition(m) && m.targetsMask == played.Bit() && played != Invalid && !OnTable(t.cards, played)
    requires t.lastPlayedCard == Invalid || OnTable(t.cards, t.lastPlayedCard)
    requires
      var e := Resolve(t, mover, m, played).value;
      && after.score == e.mover.score + (if e.table.cards == {} then 2 else 0)
      && after.numCapturedCards == e.mover.numCapturedCards
    ensures
      var e := Resolve(t, mover, m, played).value;
      var back := UndoMover(after, e.table.cards, Undo(m, t.lastPlayedCard, e.waterfalled), played);
      back.score == mover.score && back.numCapturedCards == mover.numCapturedCards
  {
    ResolvePlace(t, mover, m, played);
  }

  /** The three cases together, for a move the engine accepted. */
  lemma UndoMoverInvertsEffect(t: Table, mover: PlayerState, m: Move, played: Rank, after: PlayerState)
    requires m.PlayedRank() == Ok(played) && played != Invalid
    requires t.lastPlayedCard == Invalid || OnTable(t.cards, t.lastPlayedCard)
    requires Resolve(t, mover, m, played).Ok?
    requires
      var e := Resolve(t, mover, m, played).value;
      && after.score == e.mover.score + (if e.table.cards == {} then 2 else 0)
      && after.numCapturedCards == e.mover.numCapturedCards
    ensures
      var e := Resolve(t, mover, m, played).value;
      var back := UndoMover(after, e.table.cards, Undo(m, t.lastPlayedCard, e.waterfalled), played);
      back.score == mover.score && back.numCapturedCards == mover.numCapturedCards
  {
    if IsAddition(m) {
      UndoMoverAfterAddition(t, mover, m, played, after);
    } else {
      SingleBitPlayed(m);
      if OnTable(t.cards, played) {
        UndoMoverAfterCapture(t, mover, m, played, after);
      } else {
        UndoMoverAfterPlace(t, mover, m, played, after);
      }
    }
  }

  /**
   * Undoing a successful move gives the mover back the score and captured count it had, as
   * long as the last played card was Invalid or on the table: that is how undo_move_in_place
   * tells a Caída from a placed card.
   */
  lemma UnapplyRestoresCounts(s: State, m: Move)
    requires LastPlayedOnTable(s) && Apply(s, m).Ok?
    ensures
      var (s1, u) := Apply(s, m).value;
      && UndoFits(u)
      && CurrentPlayerState(Unapply(s1, u)).score == CurrentPlayerState(s).score
      && CurrentPlayerState(Unapply(s1, u)).numCapturedCards == CurrentPlayerState(s).numCapturedCards
  {
    UnapplyRestoresTable(s, m);
    ApplyAccepts(s, m);
    var played, e := ApplySteps(s, m);
    FinishFacts(s, m, played, e);
    var (s1, u) := Apply(s, m).value;
    UnapplyFrame(s1, u);
    UndoMoverInvertsEffect(s.table, CurrentPlayerState(s), m, played, CurrentPlayerState(s1));
  }

  /**
   * undo_move_in_place inverts make_move_in_place: from a state whose last played card is
   * Invalid or on the table, applying a move and undoing it gives back the same table, last
   * played card, deck, turn, opponent, score and captured count, and the same hand as a
   * multiset, with the played card moved to the end.
   */
  lemma UnapplyInvertsApply(s: State, m: Move)
    requires LastPlayedOnTable(s) && Apply(s, m).Ok?
    ensures
      var (s1, u) := Apply(s, m).value;
      var played := m.PlayedRank().value;
      && UndoFits(u)
      && RestoresUpToHandOrder(s, Unapply(s1, u), played)
      && multiset(CurrentPlayerState(Unapply(s1, u)).hand.cards) == multiset(CurrentPlayerState(s).hand.cards)
  {
    UnapplyRestoresTable(s, m);
    UnapplyRestoresCounts(s, m);
    ApplyFrame(s, m);
    var (s1, u) := Apply(s, m).value;
    UnapplyFrame(s1, u);
    var played := m.PlayedRank().value;
    var hand := CurrentPlayerState(s).hand.cards;
    ApplyAccepts(s, m);
    RemoveFirstMultiset(hand, played);
  }

  // ---------------------------------------------------------------------------
  // Making and undoing moves in place

  /**
   * The addition branch of make_move_in_place, in place: the waterfall runs on the table, the
   * targets come off it and the mover's captured count grows. Played as Invalid, the waterfall's
   * ++ throws before anything is written.
   */
  method AdditionInPlace(game: GameState, m: Move, played: Rank) returns (r: Result<nat>)
    requires IsAddition(m)
    modifies game
    ensures game.deck == old(game.deck) && game.toMove == old(game.toMove)
    ensures
      var e := AdditionEffect(old(game.table), old(game.players.Get(game.toMove)), m, played);
      && (e.Err? ==> r == Err(e.error) && game.table == old(game.table) && game.players == old(game.players))
      && (e.Ok? ==>
          r == Ok(e.value.waterfalled) && game.table == e.value.table &&
          game.players == old(game.players).Set(game.toMove, e.value.mover))
  {
    var waterfall := SequenceWaterfall(game.table.cards, played);
    if waterfall.Err? {
      r := Err(waterfall.error);
    } else {
      var playerState := game.players.Get(game.toMove);
      var numWaterfalled := waterfall.value.1;
      playerState := playerState.(numCapturedCards := playerState.numCapturedCards + |m.targetsMask| + numWaterfalled);
      game.table := Table(RemoveRanks(waterfall.value.0, AdditionMask(m, played)), Invalid);
      game.players := game.players.Set(game.toMove, playerState);
      r := Ok(numWaterfalled);
    }
  }

  /** The placing branch: the card's bit goes onto the table and it becomes the last played card. */
  method PlaceInPlace(game: GameState, m: Move, played: Rank) returns (r: Result<nat>)
    requires !IsAddition(m) && !TableHasCapture(game.table, m, played)
    modifies game
    ensures game.deck == old(game.deck) && game.toMove == old(game.toMove)
    ensures
      var e := PlaceEffect(old(game.table), old(game.players.Get(game.toMove)), m, played);
      && (e.Err? ==> r == Err(e.error) && game.table == old(game.table) && game.players == old(game.players))
      && (e.Ok? ==>
          r == Ok(e.value.waterfalled) && game.table == e.value.table &&
          game.players == old(game.players).Set(game.toMove, e.value.mover))
  {
    game.table := Table(AddRanks(game.table.cards, m.targetsMask), played);
    r := Ok(0);
  }

  /**
   * The capture branch: the Caída bonus when the card matches the last placed one, then the
   * waterfall, then the matched card comes off the table.
   */
  method CaptureInPlace(game: GameState, m: Move, played: Rank) returns (r: Result<nat>)
    requires !IsAddition(m) && TableHasCapture(game.table, m, played)
    modifies game
    ensures game.deck == old(game.deck) && game.toMove == old(game.toMove)
    ensures
      var e := CaptureEffect(old(game.table), old(game.players.Get(game.toMove)), m, played);
      && (e.Err? ==> r == Err(e.error) && game.table == old(game.table) && game.players == old(game.players))
      && (e.Ok? ==>
          r == Ok(e.value.waterfalled) && game.table == e.value.table &&
          game.players == old(game.players).Set(game.toMove, e.value.mover))
  {
    var playerState := game.players.Get(game.toMove);
    if played == game.table.lastPlayedCard {
      playerState := playerState.(score := playerState.score + 2);
    }
    var waterfall := SequenceWaterfall(game.table.cards, played);
    if waterfall.Err? {
      r := Err(waterfall.error);
    } else {
      var (cards, numWaterfalled) := waterfall.value;
      playerState := playerState.(numCapturedCards := playerState.numCapturedCards + 2 + numWaterfalled);
      game.table := Table(RemoveRanks(cards, played.Bit()), Invalid);
      game.players := game.players.Set(game.toMove, playerState);
      r := Ok(numWaterfalled);
    }
  }

  /**
   * The end of make_move_in_place, in place: the Limpia bonus when the table is now empty, and
   * one copy of the played card leaves the mover's hand.
   */
  method FinishInPlace(game: GameState, ghost s: State, m: Move, played: Rank, w: nat)
    requires game.deck.cards == s.deck && game.toMove == s.toMove
    requires game.players == s.players.Set(s.toMove, game.players.Get(s.toMove))
    modifies game
    ensures game.deck == old(game.deck)
    ensures game.Snapshot() == Finish(s, m, played, Effect(old(game.table), old(game.players.Get(game.toMove)), w)).0
  {
    var playerState := game.players.Get(game.toMove);
    if game.table.cards == {} {
      playerState := playerState.(score := playerState.score + 2);
    }
    playerState := playerState.(hand := Hand(RemoveFirst(playerState.hand.cards, played)));
    SetTwice(s.players, s.toMove, game.players.Get(s.toMove), playerState);
    game.players := game.players.Set(game.toMove, playerState);
  }

  /**
   * make_move_in_place: checks the move, updates the table and the mover's state, and returns
   * the undo record. It does exactly what Apply describes, and a move it rejects leaves the
   * game untouched.
   */
  method MakeMoveInPlace(game: GameState, m: Move) returns (r: Result<Undo>)
    modifies game
    ensures game.deck == old(game.deck)
    ensures Apply(old(game.Snapshot()), m).Err? ==>
      r == Err(Apply(old(game.Snapshot()), m).error) && game.Snapshot() == old(game.Snapshot())
    ensures Apply(old(game.Snapshot()), m).Ok? ==>
      r == Ok(Apply(old(game.Snapshot()), m).value.1) && game.Snapshot() == Apply(old(game.Snapshot()), m).value.0
  {
    ghost var s := game.Snapshot();
    var playedOr := m.PlayedRank();
    if playedOr.Err? {
      r := Err(playedOr.error);
    } else if !IsCardInHand(game.players.Get(game.toMove).hand, playedOr.value) {
      r := Err(CardNotInHand);
    } else if IsAddition(m) && !TableHasCapture(game.table, m, playedOr.value) {
      r := Err(TargetsNotOnTable);
    } else {
      var played := playedOr.value;
      var undo := Undo(m, game.table.lastPlayedCard, 0);
      var waterfalled: Result<nat>;
      if IsAddition(m) {
        waterfalled := AdditionInPlace(game, m, played);
      } else if !TableHasCapture(game.table, m, played) {
        waterfalled := PlaceInPlace(game, m, played);
      } else {
        waterfalled := CaptureInPlace(game, m, played);
      }
      if waterfalled.Err? {
        r := Err(waterfalled.error);
      } else {
        undo := undo.(numWaterfalledCards := undo.numWaterfalledCards + waterfalled.value);
        FinishInPlace(game, s, m, played, waterfalled.value);
        r := Ok(undo);
      }
    }
  }

  /**
   * The last loop of undo_move_in_place: ++ from the played rank, adding each rank's bit back
   * to the table, once per waterfalled card.
   */
  method RestoreWaterfall(cards: RankMask, played: Rank, w: int) returns (r: RankMask)
    requires w > 0 ==> played != Invalid && Ordinal(played) + w <= 10
    ensures r == cards + RunAbove(played, w)
  {
    r := cards;
    var current := played;
    var i := 0;
    while i < w
      invariant if w > 0 then 0 <= i <= w else i == 0
      invariant Ordinal(current) == Ordinal(played) + i
      invariant r == cards + RunAbove(played, i)
    {
      current := Succ(current).value;
      RunAboveGrows(played, i);
      r := AddRanks(r, current.Bit());
      i := i + 1;
    }
    if w <= 0 {
      RunAboveEmpty(played, w);
      RunAboveEmpty(played, 0);
    }
  }

  /**
   * The mover's half of undo_move_in_place: the card goes back at the end of the hand, the
   * Caída and Limpia bonuses are taken back, and the captured count unless the card was placed.
   * The table is read, not written.
   */
  method UndoPlayerInPlace(game: GameState, u: Undo, played: Rank)
    modifies game
    ensures game.deck == old(game.deck) && game.toMove == old(game.toMove) && game.table == old(game.table)
    ensures game.players == old(game.players).Set(game.toMove, UndoMover(old(game.players.Get(game.toMove)), game.table.cards, u, played))
  {
    var playerState := game.players.Get(game.toMove);
    var isAddition := IsAddition(u.move);
    var cardOnTable := ContainsRanks(game.table.cards, played.Bit());
    playerState := playerState.(hand := Hand(playerState.hand.cards + [played]));
    if played == u.lastPlayedCard && !isAddition {
      playerState := playerState.(score := playerState.score - 2);
    }
    if game.table.cards == {} {
      playerState := playerState.(score := playerState.score - 2);
    }
    if !cardOnTable || isAddition {
      var numCaptured := if isAddition then |u.move.targetsMask| else 2;
      playerState := playerState.(numCapturedCards := playerState.numCapturedCards - (numCaptured + u.numWaterfalledCards));
    }
    game.players := game.players.Set(game.toMove, playerState);
  }

  /**
   * The table's half of undo_move_in_place: the last played card comes back, an addition's
   * targets are added back, a single card is removed if it is on the table and added if not,
   * and then the waterfalled ranks return.
   */
  method UndoTableInPlace(game: GameState, u: Undo, played: Rank)
    requires u.numWaterfalledCards > 0 ==> played != Invalid && Ordinal(played) + u.numWaterfalledCards <= 10
    modifies game
    ensures game.deck == old(game.deck) && game.toMove == old(game.toMove) && game.players == old(game.players)
    ensures game.table == Table(UndoCards(old(game.table.cards), u.move, played, u.numWaterfalledCards), u.lastPlayedCard)
  {
    var cards := game.table.cards;
    if IsAddition(u.move) {
      cards := AddRanks(cards, AdditionMask(u.move, played));
    } else if ContainsRanks(cards, played.Bit()) {
      cards := RemoveRanks(cards, played.Bit());
    } else {
      cards := AddRanks(cards, played.Bit());
    }
    cards := RestoreWaterfall(cards, played, u.numWaterfalledCards);
    game.table := Table(cards, u.lastPlayedCard);
  }

  /**
   * undo_move_in_place, for the player who made the move: it gives back the card, the last
   * played card, the bonuses, the captured count and the table, exactly as Unapply says.
   */
  method UndoMoveInPlace(game: GameState, u: Undo)
    requires UndoFits(u)
    modifies game
    ensures game.deck == old(game.deck)
    ensures game.Snapshot() == Unapply(old(game.Snapshot()), u)
  {
    var played := u.move.PlayedRank().value;
    UndoPlayerInPlace(game, u, played);
    UndoTableInPlace(game, u, played);
  }

  /**
   * make_move: the game is passed by value, so the move is made on a fresh copy, which is
   * returned; the caller's game is not touched.
   */
  method MakeMove(game: GameState, m: Move) returns (r: Result<GameState>)
    ensures Apply(game.Snapshot(), m).Err? ==> r == Err(Apply(game.Snapshot(), m).error)
    ensures Apply(game.Snapshot(), m).Ok? ==>
      r.Ok? && fresh(r.value) && r.value.Snapshot() == Apply(game.Snapshot(), m).value.0
  {
    var copy := new GameState.Copy(game);
    var undo := MakeMoveInPlace(copy, m);
    if undo.Err? {
      return Err(undo.error);
    }
    return Ok(copy);
  }

  // ---------------------------------------------------------------------------
  // Round-end scoring

  /** C++ integer division, which truncates toward zero. */
  function TruncDiv(a: int, b: int): (q: int)
    requires b > 0
    ensures a >= 0 ==> q == a / b
    ensures a < 0 ==> q == -((-a) / b)
  {
    if a >= 0 then a / b else -((-a) / b)
  }

  /**
   * update_captured_cards on one player, as written: a score of at least 20 grows by
   * 6 + (20 - score) / 2. The captured count is neither read nor reset.
   */
  function RoundEndAsWritten(ps: PlayerState): (r: PlayerState)
    ensures r.hand == ps.hand && r.numCapturedCards == ps.numCapturedCards
    ensures ps.score < 20 ==> r.score == ps.score
    ensures ps.score >= 20 ==> r.score == ps.score + 6 - (ps.score - 20) / 2
  {
    if ps.score >= 20 then ps.(score := ps.score + 6 + TruncDiv(20 - ps.score, 2)) else ps
  }

  /** update_captured_cards: the loop over both players' states. */
  method UpdateCapturedCards(game: GameState)
    modifies game
    ensures game.deck == old(game.deck) && game.table == old(game.table) && game.toMove == old(game.toMove)
    ensures game.players == Players(RoundEndAsWritten(old(game.players.p1)), RoundEndAsWritten(old(game.players.p2)))
  {
    var order := [P1, P2];
    for i := 0 to 2
      invariant game.deck == old(game.deck) && game.table == old(game.table) && game.toMove == old(game.toMove)
      invariant game.players.p1 == if i > 0 then RoundEndAsWritten(old(game.players.p1)) else old(game.players.p1)
      invariant game.players.p2 == if i > 1 then RoundEndAsWritten(old(game.players.p2)) else old(game.players.p2)
    {
      var p := order[i];
      var playerState := game.players.Get(p);
      if playerState.score >= 20 {
        playerState := playerState.(score := playerState.score + 6 + TruncDiv(20 - playerState.score, 2));
      }
      game.players := game.players.Set(p, playerState);
    }
  }

  /**
   * The code disagrees with its own rule "20 cards = 6 points, 22 cards = 8 points": a player
   * holding 22 captured cards with score 0 gains nothing, and a score of 24 becomes 28 whatever
   * was captured.
   */
  lemma RoundEndAsWrittenIgnoresCaptures()
    ensures RoundEndAsWritten(PlayerState(Hand([]), 22, 0)).score == 0
    ensures RoundEndAsWritten(PlayerState(Hand([]), 0, 24)).score == 28
    ensures RoundEndAsWritten(PlayerState(Hand([]), 22, 0)) != RoundEndIntended(PlayerState(Hand([]), 22, 0))
  {
  }

  /**
   * The points the captured cards are worth at the end of a round: 6 for 20 cards and 2 more
   * for every further pair; an odd card beyond a pair earns nothing.
   */
  function CapturedCardsPoints(n: int): (p: int)
    ensures n < 20 ==> p == 0
    ensures n >= 20 ==> p % 2 == 0 && n - 15 <= p <= n - 14
  {
    if n >= 20 then 6 + 2 * ((n - 20) / 2) else 0
  }

  /** Twenty cards are worth 6 points, and each further pair is worth 2 more, so the points never fall as captures grow. */
  lemma CapturedCardsPointsSteps(n: int, k: int)
    requires n <= k
    ensures CapturedCardsPoints(20) == 6 && CapturedCardsPoints(22) == 8
    ensures n >= 20 ==> CapturedCardsPoints(n + 2) == CapturedCardsPoints(n) + 2
    ensures CapturedCardsPoints(n) <= CapturedCardsPoints(k)
  {
    if n >= 20 {
      assert (n + 2 - 20) / 2 == (n - 20) / 2 + 1;
    }
  }

  /**
   * The round-end rule the comment in update_captured_cards states: the captured cards turn
   * into points and the captured count starts again from zero.
   */
  function RoundEndIntended(ps: PlayerState): (r: PlayerState)
    ensures r.hand == ps.hand && r.numCapturedCards == 0
    ensures r.score == ps.score + CapturedCardsPoints(ps.numCapturedCards)
  {
    PlayerState(ps.hand, 0, ps.score + CapturedCardsPoints(ps.numCapturedCards))
  }

  /** 22 captured cards give 8 points and 19 give none, and either way the count is cleared. */
  lemma RoundEndIntendedExamples(h: Hand, score: int)
    ensures RoundEndIntended(PlayerState(h, 22, score)) == PlayerState(h, 0, score + 8)
    ensures RoundEndIntended(PlayerState(h, 19, score)) == PlayerState(h, 0, score)
  {
  }
}
