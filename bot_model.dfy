/**
 * The opponent-card count model of bot.h: for each rank a weight and how many of its four
 * copies the bot has not yet seen, and the deck size to round mapping.
 */
module BotModel {
  import opened Wrappers
  import opened Ranks
  import opened GameStates

  /** RankProbability: a weight and the number of copies of a rank still unaccounted for. */
  datatype RankProbability = RankProbability(probabilityWeight: real, count: int)

  /** A value-initialised RankProbability: weight 1.0 and all four copies. */
  const FRESH: RankProbability := RankProbability(1.0, 4)

  /** The ten ranks in Ace..King order. */
  const RANK_ORDER: seq<Rank> := [Ace, Two, Three, Four, Five, Six, Seven, Jack, Queen, King]

  /** The contents of hand_prob, a std::map from rank to its entry. */
  type HandProb = map<Rank, RankProbability>

  /** The map a Bot is built with: every one of the ten ranks, and nothing else, at weight 1.0 and count 4. */
  function FreshTable(): (t: HandProb)
    ensures forall r :: r in t <==> r != Invalid
    ensures forall r :: r in t ==> t[r] == FRESH
  {
    assert forall r: Rank :: r != Invalid ==> r in RANK_ORDER by {
      forall r: Rank | r != Invalid
        ensures r in RANK_ORDER
      {
        RankOrderCounts(r);
      }
    }
    map r | r in RANK_ORDER :: FRESH
  }

  /** hand_prob[r]: the entry for r; operator[] inserts a value-initialised entry when r is missing. */
  function Entry(t: HandProb, r: Rank): RankProbability {
    if r in t then t[r] else FRESH
  }

  function Count(t: HandProb, r: Rank): int {
    Entry(t, r).count
  }

  /** One observed card: its rank's entry, inserted if missing, loses one copy. */
  function Observe(t: HandProb, r: Rank): (t2: HandProb)
    ensures t2.Keys == t.Keys + {r}
    ensures Count(t2, r) == Count(t, r) - 1
    ensures Entry(t2, r).probabilityWeight == Entry(t, r).probabilityWeight
    ensures forall q :: q != r ==> Entry(t2, q) == Entry(t, q)
  {
    t[r := Entry(t, r).(count := Count(t, r) - 1)]
  }

  /** The cards observed one after another, in order. */
  function ObserveAll(t: HandProb, cards: seq<Rank>): HandProb {
    if cards == [] then t else Observe(ObserveAll(t, cards[..|cards| - 1]), cards[|cards| - 1])
  }

  /** Every entry back to weight 1.0 and count 4; the keys stay. */
  function Reset(t: HandProb): HandProb {
    map r | r in t :: FRESH
  }

  /** The counts of the ten ranks added up. */
  function Total(t: HandProb): int {
    SumCounts(t, RANK_ORDER)
  }

  function SumCounts(t: HandProb, rs: seq<Rank>): int {
    if rs == [] then 0 else Count(t, rs[0]) + SumCounts(t, rs[1..])
  }

  class Bot {
    var handProb: HandProb
    const numMcIters: int

    /** Bot(num_mc_iters): the ten ranks at weight 1.0 and count 4. */
    constructor (numMcIters: int)
      ensures handProb == FreshTable() && this.numMcIters == numMcIters
    {
      handProb := FreshTable();
      this.numMcIters := numMcIters;
    }

    /**
     * update_from_move: the played rank of the opponent's move loses one copy. The assert in the
     * code is the precondition; get_played_rank throws before anything changes on a bad mask.
     * The result is the rank counted.
     */
    method UpdateFromMove(enemyMove: Move) returns (r: Result<Rank>)
      requires enemyMove.PlayedRank().Ok? ==> Count(handProb, enemyMove.PlayedRank().value) >= 1
      modifies this
      ensures r == enemyMove.PlayedRank()
      ensures r.Err? ==> handProb == old(handProb)
      ensures r.Ok? ==> handProb == Observe(old(handProb), r.value)
    {
      r := enemyMove.PlayedRank();
      if r.Ok? {
        var entry := if r.value in handProb then handProb[r.value] else FRESH;
        handProb := handProb[r.value := entry.(count := entry.count - 1)];
      }
    }

    /** update_from_hand: update_from_move on each card's single-bit move, in hand order. */
    method UpdateFromHand(hand: Hand)
      requires Covers(handProb, hand.cards)
      modifies this
      ensures handProb == ObserveAll(old(handProb), hand.cards)
    {
      assert hand.cards[0..] == hand.cards;
      for i := 0 to |hand.cards|
        invariant handProb == ObserveAll(old(handProb), hand.cards[..i])
        invariant Covers(handProb, hand.cards[i..])
      {
        var card := hand.cards[i];
        BitPlaysItself(card);
        ObserveKeepsBudget(handProb, hand.cards, i);
        ObserveAllStep(old(handProb), hand.cards, i);
        var _ := UpdateFromMove(Move(card.Bit()));
      }
      assert hand.cards[..|hand.cards|] == hand.cards;
    }

    /** reset_probabilities: every entry of the map, whatever its rank, back to the initial value. */
    method ResetProbabilities()
      modifies this
      ensures handProb == Reset(old(handProb))
    {
      var remaining := handProb.Keys;
      while remaining != {}
        invariant remaining <= handProb.Keys && handProb.Keys == old(handProb).Keys
        invariant forall r :: r in handProb && r !in remaining ==> handProb[r] == FRESH
        decreases remaining
      {
        var r :| r in remaining;
        handProb := handProb[r := FRESH];
        remaining := remaining - {r};
      }
    }
  }

  /** The single-bit move of a card plays that card; for Invalid the move is the empty mask. */
  lemma BitPlaysItself(card: Rank)
    ensures Move(card.Bit()).PlayedRank() == Ok(card)
  {
    if card != Invalid {
      PlayedRankOfTopBit(card, {});
      assert card.Bit() + {} == card.Bit();
    }
  }

  /** The counts leave room for every card of the list to be observed: the asserts will hold. */
  predicate Covers(t: HandProb, cards: seq<Rank>) {
    forall r :: multiset(cards)[r] <= Count(t, r)
  }

  /** Observing one more card of the hand extends the fold by one step. */
  lemma ObserveAllStep(t: HandProb, cards: seq<Rank>, i: int)
    requires 0 <= i < |cards|
    ensures ObserveAll(t, cards[..i + 1]) == Observe(ObserveAll(t, cards[..i]), cards[i])
  {
    assert cards[..i + 1][..i] == cards[..i];
  }

  /** When the counts cover the cards still to come, they still cover the rest after the first is observed. */
  lemma ObserveKeepsBudget(t: HandProb, cards: seq<Rank>, i: int)
    requires 0 <= i < |cards| && Covers(t, cards[i..])
    ensures Count(t, cards[i]) >= 1
    ensures Covers(Observe(t, cards[i]), cards[i + 1..])
  {
    var card, rest := cards[i], cards[i + 1..];
    assert cards[i..] == [card] + rest;
    assert multiset(cards[i..]) == multiset{card} + multiset(rest);
    assert multiset(cards[i..])[card] >= 1;
    forall r
      ensures multiset(rest)[r] <= Count(Observe(t, card), r)
    {
      assert multiset(rest)[r] + (if r == card then 1 else 0) <= Count(t, r);
    }
  }

  /** Observing cards one after another takes each rank's multiplicity off its count, and touches no weight. */
  lemma {:induction false} ObserveAllCounts(t: HandProb, cards: seq<Rank>, r: Rank)
    ensures Count(ObserveAll(t, cards), r) == Count(t, r) - multiset(cards)[r]
    ensures Entry(ObserveAll(t, cards), r).probabilityWeight == Entry(t, r).probabilityWeight
    ensures ObserveAll(t, cards).Keys == t.Keys + set c | c in cards
  {
    if cards != [] {
      var init, last := cards[..|cards| - 1], cards[|cards| - 1];
      ObserveAllCounts(t, init, r);
      assert cards == init + [last];
      assert (set c | c in cards) == (set c | c in init) + {last};
    }
  }

  /** Two batches of observations in a row are the observation of both, in order. */
  lemma {:induction false} ObserveAllAppend(t: HandProb, a: seq<Rank>, b: seq<Rank>)
    ensures ObserveAll(ObserveAll(t, a), b) == ObserveAll(t, a + b)
  {
    if b != [] {
      var init, last := b[..|b| - 1], b[|b| - 1];
      ObserveAllAppend(t, a, init);
      assert (a + b)[..|a + b| - 1] == a + init;
      assert (a + b)[|a + b| - 1] == last;
      assert ObserveAll(t, a + b) == Observe(ObserveAll(t, a + init), last);
    } else {
      assert a + b == a;
    }
  }

  /** One observation lowers the ten-rank sum by one, or leaves it alone for a rank outside the ten. */
  lemma {:induction false} SumCountsObserve(t: HandProb, r: Rank, rs: seq<Rank>)
    ensures SumCounts(Observe(t, r), rs) == SumCounts(t, rs) - multiset(rs)[r]
  {
    if rs != [] {
      SumCountsObserve(t, r, rs[1..]);
      assert rs == [rs[0]] + rs[1..];
    }
  }

  /** Each of the ten ranks appears once in RANK_ORDER, Invalid never. */
  lemma RankOrderCounts(r: Rank)
    ensures multiset(RANK_ORDER)[r] == if r == Invalid then 0 else 1
  {
    RankOrderDistinct();
    RankOrderHolds(r);
    DistinctCount(RANK_ORDER, r);
  }

  lemma RankOrderDistinct()
    ensures forall i, j :: 0 <= i < j < |RANK_ORDER| ==> RANK_ORDER[i] != RANK_ORDER[j]
  {
    assert forall i :: 0 <= i < |RANK_ORDER| ==> Ordinal(RANK_ORDER[i]) == i + 1;
  }

  lemma RankOrderHolds(r: Rank)
    ensures r in RANK_ORDER <==> r != Invalid
  {
    OrdinalInjective(r, r);
    if r != Invalid {
      assert RANK_ORDER[Ordinal(r) - 1] == r;
    }
  }

  /** In a list without repeats, each value occurs once or not at all. */
  lemma {:induction false} DistinctCount<T>(rs: seq<T>, r: T)
    requires forall i, j :: 0 <= i < j < |rs| ==> rs[i] != rs[j]
    ensures multiset(rs)[r] == if r in rs then 1 else 0
  {
    if rs != [] {
      DistinctCount(rs[1..], r);
      assert rs == [rs[0]] + rs[1..];
      assert rs[0] !in rs[1..];
    }
  }

  /** Every card observed lowers the total by one, except an Invalid card, which only gains its own entry. */
  lemma TotalAfterObservations(t: HandProb, cards: seq<Rank>)
    ensures Total(ObserveAll(t, cards)) == Total(t) - |cards| + multiset(cards)[Invalid]
  {
    forall r
      ensures multiset(RANK_ORDER)[r] == if r == Invalid then 0 else 1
    {
      RankOrderCounts(r);
    }
    SumAfterObservations(t, cards, RANK_ORDER);
  }

  /** The same over any list holding each of the ten ranks once. */
  lemma {:induction false} SumAfterObservations(t: HandProb, cards: seq<Rank>, rs: seq<Rank>)
    requires forall r :: multiset(rs)[r] == if r == Invalid then 0 else 1
    ensures SumCounts(ObserveAll(t, cards), rs) == SumCounts(t, rs) - |cards| + multiset(cards)[Invalid]
  {
    if cards != [] {
      var init, last := cards[..|cards| - 1], cards[|cards| - 1];
      var u := ObserveAll(t, init);
      SumAfterObservations(t, init, rs);
      SumCountsObserve(u, last, rs);
      assert multiset(cards) == multiset(init) + multiset{last} by {
        assert cards == init + [last];
      }
    }
  }

  /** After reset every rank, present or not, counts four copies at weight 1.0, and the keys stay. */
  lemma ResetRestores(t: HandProb, r: Rank)
    ensures Entry(Reset(t), r) == FRESH
    ensures Reset(t).Keys == t.Keys
  {
  }

  /** Resetting twice is resetting once, and a fresh bot is already reset. */
  lemma ResetIdempotent(t: HandProb)
    ensures Reset(Reset(t)) == Reset(t)
    ensures Reset(FreshTable()) == FreshTable()
  {
  }

  /** The ten ranks at four copies each make forty cards. */
  lemma {:induction false} TotalOfReset(t: HandProb)
    ensures Total(Reset(t)) == 40
  {
    var u := Reset(t);
    assert forall i :: 0 <= i <= |RANK_ORDER| ==> SumCounts(u, RANK_ORDER[i..]) == 4 * (|RANK_ORDER| - i) by {
      forall i | 0 <= i <= |RANK_ORDER|
        ensures SumCounts(u, RANK_ORDER[i..]) == 4 * (|RANK_ORDER| - i)
      {
        SumCountsOfReset(t, RANK_ORDER[i..]);
      }
    }
    assert RANK_ORDER[0..] == RANK_ORDER;
  }

  lemma {:induction false} SumCountsOfReset(t: HandProb, rs: seq<Rank>)
    ensures SumCounts(Reset(t), rs) == 4 * |rs|
  {
    if rs != [] {
      SumCountsOfReset(t, rs[1..]);
    }
  }

  /**
   * Between resets, when the asserts in update_from_move hold, every count stays within 0..4
   * and the ten counts add up to forty minus the cards observed since the reset.
   */
  lemma CountsSinceReset(t: HandProb, cards: seq<Rank>, r: Rank)
    requires Invalid !in cards
    requires forall q :: multiset(cards)[q] <= 4
    ensures 0 <= Count(ObserveAll(Reset(t), cards), r) <= 4
    ensures Total(ObserveAll(Reset(t), cards)) == 40 - |cards|
  {
    ObserveAllCounts(Reset(t), cards, r);
    TotalAfterObservations(Reset(t), cards);
    TotalOfReset(t);
  }

  /**
   * deck_size_to_round: 30, 20, 10 and 0 cards left in the deck are rounds 1 to 4, ten cards
   * dealt per round; any other size throws runtime_error.
   */
  function DeckSizeToRound(deckSize: nat): (r: Result<int>)
    ensures r.Ok? <==> deckSize % 10 == 0 && deckSize <= 30
    ensures r.Ok? ==> 1 <= r.value <= 4 && deckSize == 40 - 10 * r.value
    ensures r.Err? ==> r.error == BadDeckSize
  {
    match deckSize
    case 30 => Ok(1)
    case 20 => Ok(2)
    case 10 => Ok(3)
    case 0 => Ok(4)
    case _ => Err(BadDeckSize)
  }
}
