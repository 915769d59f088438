/** The addition patterns, the low-rank mask and the fixed-size move list of movegen.h. */
module Additions {
  import opened Ranks
  import opened GameStates

  /** The number of entries a table position can have moves for. */
  const MAX_MOVES_PER_TABLE: nat := 16

  /** LOW_MASK: Ace..Six, the only ranks an addition can use as targets. */
  const LOW_MASK: RankMask := {0, 1, 2, 3, 4, 5}

  /**
   * ADDITIONS_BY_RANK, indexed by rank_to_int of the played card: the masks of the table cards
   * whose ranks add up to the played card. Only Three..Seven have any.
   */
  const ADDITIONS_BY_RANK: seq<seq<RankMask>> := [
    [],
    [],
    [],
    [{0, 1}],
    [{0, 2}],
    [{0, 3}, {1, 2}],
    [{0, 4}, {1, 3}, {0, 1, 2}],
    [{0, 5}, {1, 4}, {2, 3}, {0, 1, 3}],
    [],
    [],
    []
  ]

  /** The sum of the ordinals of the Ace..Six ranks present in a mask. */
  function LowOrdinalSum(m: RankMask): int {
    (if 0 in m then 1 else 0) + (if 1 in m then 2 else 0) + (if 2 in m then 3 else 0)
    + (if 3 in m then 4 else 0) + (if 4 in m then 5 else 0) + (if 5 in m then 6 else 0)
  }

  /**
   * Every pattern listed for index k names two or more ranks of Ace..Six, all below rank k,
   * whose ordinals add up to k; so the played card's bit is the highest bit of the move.
   */
  lemma PatternFacts(k: int, j: int)
    requires 0 <= k < |ADDITIONS_BY_RANK| && 0 <= j < |ADDITIONS_BY_RANK[k]|
    ensures 3 <= k <= 7
    ensures ADDITIONS_BY_RANK[k][j] <= LOW_MASK && |ADDITIONS_BY_RANK[k][j]| >= 2
    ensures forall i :: i in ADDITIONS_BY_RANK[k][j] ==> i < k - 1
    ensures LowOrdinalSum(ADDITIONS_BY_RANK[k][j]) == k
  {
    var p := ADDITIONS_BY_RANK[k][j];
    if k == 3 {
      assert p == {0, 1};
    } else if k == 4 {
      assert p == {0, 2};
    } else if k == 5 {
      assert p == [{0, 3}, {1, 2}][j];
    } else if k == 6 {
      assert p == [{0, 4}, {1, 3}, {0, 1, 2}][j];
    } else {
      assert p == [{0, 5}, {1, 4}, {2, 3}, {0, 1, 3}][j];
    }
  }

  /** No pattern is listed twice for the same index. */
  lemma PatternsDistinct(k: int, i: int, j: int)
    requires 0 <= k < |ADDITIONS_BY_RANK| && 0 <= i < j < |ADDITIONS_BY_RANK[k]|
    ensures ADDITIONS_BY_RANK[k][i] != ADDITIONS_BY_RANK[k][j]
  {
    var p, q := ADDITIONS_BY_RANK[k][i], ADDITIONS_BY_RANK[k][j];
    assert (0 in p) != (0 in q) || (1 in p) != (1 in q) || (2 in p) != (2 in q)
      || (3 in p) != (3 in q) || (4 in p) != (4 in q) || (5 in p) != (5 in q);
  }

  /** A pattern of two or more ranks cannot hold the rank it adds up to. */
  lemma TopTargetExcluded(k: int, p: RankMask)
    requires 3 <= k <= 7 && p <= LOW_MASK && |p| >= 2 && LowOrdinalSum(p) == k
    ensures k - 1 !in p
  {
    if k - 1 in p {
      assert p == (p - {k - 1}) + {k - 1};
      var e :| e in p - {k - 1};
      assert false;
    }
  }

  /**
   * The table is complete: every mask of two or more ranks from Ace..Six whose ordinals add up to
   * an index 3..7 is listed for that index. Together with PatternsDistinct, each such mask is
   * listed exactly once.
   */
  lemma PatternsComplete(k: int, p: RankMask)
    requires 3 <= k <= 7 && p <= LOW_MASK && |p| >= 2 && LowOrdinalSum(p) == k
    ensures p in ADDITIONS_BY_RANK[k]
  {
    TopTargetExcluded(k, p);
    if k == 3 {
      assert p == {0, 1};
    } else if k == 4 {
      assert p == {0, 2};
    } else if k == 5 {
      if 0 in p { assert p == {0, 3}; } else { assert p == {1, 2}; }
    } else if k == 6 {
      if 4 in p { assert p == {0, 4}; } else if 3 in p { assert p == {1, 3}; } else { assert p == {0, 1, 2}; }
    } else {
      if 5 in p {
        assert p == {0, 5};
      } else if 4 in p {
        assert p == {1, 4};
      } else if 2 in p && 3 in p {
        assert p == {2, 3};
      } else {
        assert p == {0, 1, 3};
      }
    }
  }

  /** MoveList: up to MAX_MOVES_PER_TABLE moves in a fixed array, the first `size` of them in use. */
  class MoveList {
    const moves: array<Move>
    var size: nat

    ghost predicate Valid()
      reads this
    {
      moves.Length == MAX_MOVES_PER_TABLE && size <= MAX_MOVES_PER_TABLE
    }

    /** The moves in use, in order. */
    ghost function Contents(): seq<Move>
      reads this, moves
      requires Valid()
    {
      moves[..size]
    }

    /** A value-initialised list: sixteen empty moves, none in use. */
    constructor ()
      ensures Valid() && fresh(moves) && Contents() == []
    {
      moves := new Move[MAX_MOVES_PER_TABLE](_ => Move({}));
      size := 0;
    }

    predicate Full()
      reads this, moves
      requires Valid()
      ensures Full() <==> |Contents()| == MAX_MOVES_PER_TABLE
    {
      size == MAX_MOVES_PER_TABLE
    }

    predicate Empty()
      reads this, moves
      requires Valid()
      ensures Empty() <==> Contents() == []
    {
      size == 0
    }

    /** contains(m): some move in use has the same mask as m. */
    method Contains(m: Move) returns (found: bool)
      requires Valid()
      ensures found <==> exists i :: 0 <= i < |Contents()| && Contents()[i].targetsMask == m.targetsMask
    {
      for i := 0 to size
        invariant forall j :: 0 <= j < i ==> moves[j].targetsMask != m.targetsMask
      {
        if m.targetsMask == moves[i].targetsMask {
          assert Contents()[i] == moves[i];
          return true;
        }
      }
      return false;
    }

    /** push_back(m): asserts there is room, then stores m at index size. */
    method PushBack(m: Move)
      requires Valid() && size < MAX_MOVES_PER_TABLE
      modifies this, moves
      ensures Valid() && size == old(size) + 1
      ensures Contents() == old(Contents()) + [m]
    {
      moves[size] := m;
      size := size + 1;
    }
  }
}
