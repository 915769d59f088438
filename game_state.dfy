/** Hands, the deck, moves, the table, the players and the whole game state. */
module GameStates {
  import opened Wrappers
  import opened Ranks

  /** A hand is an ordered multiset of ranks. */
  datatype Hand = Hand(cards: seq<Rank>)

  /** Four copies of the rank at ordinal k. */
  function FourOf(k: int): (s: seq<Rank>)
    requires 1 <= k <= 10
    ensures |s| == 4 && forall i :: 0 <= i < 4 ==> s[i] == OrdinalRank(k)
  {
    [OrdinalRank(k), OrdinalRank(k), OrdinalRank(k), OrdinalRank(k)]
  }

  /** The unshuffled deck restricted to the first k ranks. */
  function DeckUpTo(k: int): (s: seq<Rank>)
    requires 0 <= k <= 10
    ensures |s| == 4 * k
  {
    if k == 0 then [] else DeckUpTo(k - 1) + FourOf(k)
  }

  /** The cards of Deck(false). */
  function FullDeck(): seq<Rank> {
    DeckUpTo(10)
  }

  /** Position i of the first k ranks' deck holds the rank at ordinal i / 4 + 1. */
  lemma {:induction false} DeckUpToAt(k: int, i: int)
    requires 0 <= k <= 10 && 0 <= i < 4 * k
    ensures DeckUpTo(k)[i] == OrdinalRank(i / 4 + 1)
  {
    if i < 4 * (k - 1) {
      DeckUpToAt(k - 1, i);
    }
  }

  /** The first k ranks' deck holds four copies of each of those ranks and nothing else. */
  lemma {:induction false} DeckUpToCount(k: int, r: Rank)
    requires 0 <= k <= 10
    ensures multiset(DeckUpTo(k))[r] == if 1 <= Ordinal(r) <= k then 4 else 0
  {
    if k > 0 {
      DeckUpToCount(k - 1, r);
      assert DeckUpTo(k) == DeckUpTo(k - 1) + FourOf(k);
      assert multiset(DeckUpTo(k))[r] == multiset(DeckUpTo(k - 1))[r] + multiset(FourOf(k))[r];
      FourOfCount(k, r);
    }
  }

  lemma FourOfCount(k: int, r: Rank)
    requires 1 <= k <= 10
    ensures multiset(FourOf(k))[r] == if Ordinal(r) == k then 4 else 0
  {
    var x := OrdinalRank(k);
    assert multiset(FourOf(k)) == multiset{x, x, x, x};
    OrdinalInjective(r, x);
  }

  /** Deck(false) holds 40 cards, four of each rank and no Invalid. */
  lemma FullDeckCounts(r: Rank)
    ensures |FullDeck()| == 40
    ensures multiset(FullDeck())[r] == if r == Invalid then 0 else 4
  {
    DeckUpToCount(10, r);
  }

  /** Deck(false) lists the ranks in Ace..King order, four at a time. */
  lemma FullDeckOrder()
    ensures forall i :: 0 <= i < |FullDeck()| ==> FullDeck()[i] == OrdinalRank(i / 4 + 1)
    ensures forall i, j :: 0 <= i < j < |FullDeck()| ==> Ordinal(FullDeck()[i]) <= Ordinal(FullDeck()[j])
  {
    forall i | 0 <= i < 40
      ensures FullDeck()[i] == OrdinalRank(i / 4 + 1)
    {
      DeckUpToAt(10, i);
    }
  }

  class Deck {
    var cards: seq<Rank>

    /** Deck(false): pushes four copies of each rank, Ace first. */
    constructor ()
      ensures cards == FullDeck()
    {
      cards := [];
      new;
      for k := 1 to 11
        invariant cards == DeckUpTo(k - 1)
      {
        var r := OrdinalRank(k);
        for i := 0 to 4
          invariant cards == DeckUpTo(k - 1) + FourOf(k)[..i]
        {
          cards := cards + [r];
        }
      }
    }

    /** The implicit copy of a deck, as when a Game_State is passed by value. */
    constructor Copy(other: Deck)
      ensures cards == other.cards
    {
      cards := other.cards;
    }

    /** draw_hand: throws when fewer than five cards remain; otherwise moves the first five into a hand. */
    method DrawHand() returns (h: Result<Hand>)
      modifies this
      ensures |old(cards)| < 5 ==> h == Err(DeckTooSmall) && cards == old(cards)
      ensures |old(cards)| >= 5 ==> h.Ok? && |h.value.cards| == 5 && h.value.cards + cards == old(cards)
    {
      if |cards| < 5 {
        return Err(DeckTooSmall);
      }
      var hand := Hand(cards[..5]);
      cards := cards[5..];
      return Ok(hand);
    }
  }

  /** A move's mask: the highest bit is the played rank, any lower bits are addition targets. */
  datatype Move = Move(targetsMask: RankMask) {
    /**
     * get_played_rank: int_to_rank of the position of the highest set bit. Mask 0 gives Invalid,
     * and a highest bit above King throws. When it succeeds, the played rank's bit is set and no
     * bit above it is.
     */
    function PlayedRank(): (r: Result<Rank>)
      ensures r.Ok? <==> targetsMask * HIGH_BITS == {}
      ensures r.Err? ==> r.error == InvalidRankCast
      ensures r.Ok? ==> r.value.Bit() <= targetsMask
      ensures r.Ok? ==> forall i :: i in targetsMask ==> i < Ordinal(r.value)
    {
      HighestBitIsRank(targetsMask);
      IntToRank(NUM_RANK_BITS - CountLZero(targetsMask))
    }
  }

  /** The position of the highest set bit, plus one, names a rank exactly when no bit above King is set. */
  lemma HighestBitIsRank(m: RankMask)
    ensures 16 - CountLZero(m) <= 10 <==> m * HIGH_BITS == {}
    ensures 16 - CountLZero(m) <= 10 ==>
      var r := OrdinalRank(16 - CountLZero(m));
      r.Bit() <= m && forall i :: i in m ==> i < Ordinal(r)
  {
    var n := CountLZero(m);
    if 16 - n > 10 {
      assert 15 - n in m * HIGH_BITS;
    }
  }

  /** A rank's bit together with lower bits has that rank as its played rank. */
  lemma PlayedRankOfTopBit(r: Rank, lower: RankMask)
    requires r != Invalid && forall i :: i in lower ==> i < Ordinal(r) - 1
    ensures Move(r.Bit() + lower).PlayedRank() == Ok(r)
  {
    var m := r.Bit() + lower;
    assert Ordinal(r) - 1 in m;
    assert CountLZero(m) == 16 - Ordinal(r);
    OrdinalInjective(r, r);
  }

  /** The face-up cards, and the last card placed without capturing (for Caída). */
  datatype Table = Table(cards: RankMask, lastPlayedCard: Rank)

  datatype Player = P1 | P2 {
    /** to_index */
    function Index(): int {
      match this
      case P1 => 0
      case P2 => 1
    }

    /** The player advance_turn and unadvance_turn switch to. */
    function Other(): (p: Player)
      ensures p != this && p.Index() == 1 - Index()
    {
      match this
      case P1 => P2
      case P2 => P1
    }
  }

  lemma OtherIsInvolution(p: Player)
    ensures p.Other().Other() == p
  {
  }

  datatype PlayerState = PlayerState(hand: Hand, numCapturedCards: int, score: int)

  /** std::array<Player_State, 2>, indexed by to_index(player). */
  datatype Players = Players(p1: PlayerState, p2: PlayerState) {
    function Get(p: Player): PlayerState {
      match p
      case P1 => p1
      case P2 => p2
    }

    function Set(p: Player, ps: PlayerState): (r: Players)
      ensures r.Get(p) == ps && r.Get(p.Other()) == Get(p.Other())
    {
      match p
      case P1 => Players(ps, p2)
      case P2 => Players(p1, ps)
    }
  }

  /** Writing a player's state twice keeps the second write; writing back what was read changes nothing. */
  lemma SetTwice(ps: Players, p: Player, a: PlayerState, b: PlayerState)
    ensures ps.Set(p, a).Set(p, b) == ps.Set(p, b)
    ensures ps.Set(p, ps.Get(p)) == ps
  {
  }

  /** The value of a Game_State: what a copy of it holds. */
  datatype State = State(table: Table, deck: seq<Rank>, players: Players, toMove: Player)

  /** state_for */
  function StateFor(s: State, p: Player): PlayerState {
    s.players.Get(p)
  }

  /** current_player_state */
  function CurrentPlayerState(s: State): PlayerState {
    StateFor(s, s.toMove)
  }

  /** opposing_player_state: players[1 - to_index(to_move)]. */
  function OpposingPlayerState(s: State): PlayerState {
    if 1 - s.toMove.Index() == 0 then s.players.p1 else s.players.p2
  }

  /** The state with the turn passed to the other player. */
  function Flip(s: State): State {
    s.(toMove := s.toMove.Other())
  }

  /** The accessors are relative to to_move: the opposing player is the other index, and passing the turn swaps them. */
  lemma AccessorsAreRelative(s: State)
    ensures OpposingPlayerState(s) == StateFor(s, s.toMove.Other())
    ensures CurrentPlayerState(Flip(s)) == OpposingPlayerState(s)
    ensures OpposingPlayerState(Flip(s)) == CurrentPlayerState(s)
  {
  }

  class GameState {
    var table: Table
    var deck: Deck
    var players: Players
    var toMove: Player

    function Snapshot(): State
      reads this, deck
    {
      State(table, deck.cards, players, toMove)
    }

    /** Game_State(): empty table, empty hands, zero counts, a full unshuffled deck, P1 to move. */
    constructor Empty()
      ensures fresh(deck)
      ensures Snapshot() == State(Table({}, Invalid), FullDeck(),
        Players(PlayerState(Hand([]), 0, 0), PlayerState(Hand([]), 0, 0)), P1)
    {
      table := Table({}, Invalid);
      deck := new Deck();
      players := Players(PlayerState(Hand([]), 0, 0), PlayerState(Hand([]), 0, 0));
      toMove := P1;
    }

    /**
     * Game_State(hand1, hand2): the given hands, zero scores and counts, an empty table and
     * P1 to move. The deck is a full 40-card deck: the dealt hands are not taken out of it.
     */
    constructor (hand1: Hand, hand2: Hand)
      ensures fresh(deck)
      ensures Snapshot() == State(Table({}, Invalid), FullDeck(),
        Players(PlayerState(hand1, 0, 0), PlayerState(hand2, 0, 0)), P1)
    {
      table := Table({}, Invalid);
      deck := new Deck();
      players := Players(PlayerState(hand1, 0, 0), PlayerState(hand2, 0, 0));
      toMove := P1;
    }

    /** The copy made when a Game_State is passed by value. */
    constructor Copy(other: GameState)
      ensures fresh(deck)
      ensures Snapshot() == other.Snapshot()
    {
      table := other.table;
      deck := new Deck.Copy(other.deck);
      players := other.players;
      toMove := other.toMove;
    }

    /** advance_turn: P1 becomes P2 and P2 becomes P1. */
    method AdvanceTurn()
      modifies this
      ensures deck == old(deck)
      ensures Snapshot() == Flip(old(Snapshot()))
    {
      match toMove
      case P1 => toMove := P2;
      case P2 => toMove := P1;
    }

    /** unadvance_turn: the same switch as advance_turn. */
    method UnadvanceTurn()
      modifies this
      ensures deck == old(deck)
      ensures Snapshot() == Flip(old(Snapshot()))
    {
      match toMove
      case P1 => toMove := P2;
      case P2 => toMove := P1;
    }
  }

  /** Any two turn switches in a row give back the state they started from. */
  lemma FlipTwiceRestores(s: State)
    ensures Flip(Flip(s)) == s
    ensures Flip(s).toMove != s.toMove
  {
    OtherIsInvolution(s.toMove);
  }
}
