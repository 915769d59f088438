/** The ten card ranks, each a single bit of a 16-bit mask, and the masks built from them. */
module Ranks {
  import opened Wrappers

  const NUM_RANKS: int := 10
  const NUM_RANK_BITS: int := 16

  /**
   * A uint16 bit pattern, written as the set of the positions of its set bits (position 0 is
   * the least significant bit). Nothing stops a mask holding the positions 10..15 above King.
   */
  type RankMask = s: set<nat> | forall i :: i in s ==> i < 16

  /** Every position of a 16-bit word: the pattern 0xFFFF. */
  const ALL_BITS: RankMask := set i: nat | i < 16

  /** ALL_RANK_BITS, the OR of the ten rank bits: the pattern 0x3FF. */
  const ALL_RANK_BITS: RankMask := set i: nat | i < 10

  /** The six positions above King. */
  const HIGH_BITS: RankMask := set i: nat | 10 <= i < 16

  /** Ace..King are the single bits 1, 2, 4, ..., 512; Invalid is the zero pattern. */
  datatype Rank = Invalid | Ace | Two | Three | Four | Five | Six | Seven | Jack | Queen | King {
    /** The enumerator's uint16 value. */
    function Value(): nat {
      match this
      case Invalid => 0
      case Ace => 1
      case Two => 2
      case Three => 4
      case Four => 8
      case Five => 16
      case Six => 32
      case Seven => 64
      case Jack => 128
      case Queen => 256
      case King => 512
    }

    /** to_mask: the rank's bit pattern, the single position Ordinal - 1, or nothing for Invalid. */
    function Bit(): (m: RankMask)
      ensures this == Invalid <==> m == {}
      ensures this != Invalid ==> m == {Ordinal(this) - 1}
    {
      if this == Invalid then {} else {Ordinal(this) - 1}
    }
  }

  /** Position of a rank in the order Ace..King, counted from 1; Invalid is 0. */
  function Ordinal(r: Rank): int {
    match r
    case Invalid => 0
    case Ace => 1
    case Two => 2
    case Three => 3
    case Four => 4
    case Five => 5
    case Six => 6
    case Seven => 7
    case Jack => 8
    case Queen => 9
    case King => 10
  }

  /** The rank at a given position of the order; position 0 is Invalid. */
  function OrdinalRank(k: int): (r: Rank)
    requires 0 <= k <= 10
    ensures Ordinal(r) == k
  {
    if k == 0 then Invalid else if k == 1 then Ace else if k == 2 then Two
    else if k == 3 then Three else if k == 4 then Four else if k == 5 then Five
    else if k == 6 then Six else if k == 7 then Seven else if k == 8 then Jack
    else if k == 9 then Queen else King
  }

  lemma OrdinalInjective(a: Rank, b: Rank)
    ensures Ordinal(a) == Ordinal(b) ==> a == b
    ensures 0 <= Ordinal(a) <= 10 && OrdinalRank(Ordinal(a)) == a
  {
  }

  /** Each rank's bit lies inside ALL_RANK_BITS, and distinct ranks have disjoint bits. */
  lemma RankBitsDisjoint(a: Rank, b: Rank)
    ensures a.Bit() <= ALL_RANK_BITS
    ensures a.Bit() * b.Bit() != {} <==> a == b && a != Invalid
  {
    OrdinalInjective(a, b);
    if a != Invalid && b != Invalid {
      assert Ordinal(a) - 1 in a.Bit();
    }
  }

  /** std::has_single_bit on 16 bits: exactly one bit is set. */
  predicate HasSingleBit(m: RankMask) {
    |m| == 1
  }

  /** A mask with a single bit is the set of that one position. */
  lemma SingleBitPosition(m: RankMask) returns (p: nat)
    requires HasSingleBit(m)
    ensures p < 16 && m == {p}
  {
    p :| p in m;
    assert |m - {p}| == 0;
    assert m == {p} + (m - {p});
  }

  /** The highest set position below k, or -1 when no position below k is set. */
  function TopBitBelow(m: RankMask, k: int): (p: int)
    requires 0 <= k <= 16
    ensures -1 <= p < k
    ensures p >= 0 ==> p in m
    ensures forall i :: p < i < k ==> i !in m
  {
    if k == 0 then -1 else if k - 1 in m then k - 1 else TopBitBelow(m, k - 1)
  }

  /** std::countl_zero on 16 bits: the number of zero bits above the highest set bit. */
  function CountLZero(m: RankMask): (n: int)
    ensures 0 <= n <= 16
    ensures n == 16 <==> m == {}
    ensures n < 16 ==> 15 - n in m
    ensures forall i :: i in m ==> i <= 15 - n
  {
    15 - TopBitBelow(m, 16)
  }

  /** is_valid_rank: the pattern is zero, or a single bit with nothing outside ALL_RANK_BITS. */
  predicate IsValidRank(m: RankMask) {
    m == {} || (HasSingleBit(m) && m * Complement(ALL_RANK_BITS) == {})
  }

  /** The valid patterns are exactly the bits of the eleven Rank values. */
  lemma ValidRankIsRankBit(m: RankMask)
    ensures IsValidRank(m) <==> exists r: Rank :: r.Bit() == m
  {
    if IsValidRank(m) {
      var r := ToRank(m).value;
      assert r.Bit() == m;
    } else if exists r: Rank :: r.Bit() == m {
      var r: Rank :| r.Bit() == m;
      RankBitsDisjoint(r, r);
      assert false;
    }
  }

  /** to_rank: the cast succeeds, unchanged, exactly on valid patterns. */
  function ToRank(m: RankMask): (r: Result<Rank>)
    ensures r.Ok? <==> IsValidRank(m)
    ensures r.Ok? ==> r.value.Bit() == m
    ensures r.Err? ==> r.error == InvalidRankCast
  {
    if IsValidRank(m) then Ok(CastRank(m)) else Err(InvalidRankCast)
  }

  /** static_cast<Rank> of a valid pattern: the enumerator whose bit pattern it is. */
  function CastRank(m: RankMask): (r: Rank)
    requires IsValidRank(m)
    ensures r.Bit() == m
  {
    if m == {} then Invalid
    else
      var p := TopBitBelow(m, 16);
      assert m == {p} by {
        var q := SingleBitPosition(m);
      }
      assert p < 10 by {
        assert p !in m * Complement(ALL_RANK_BITS);
      }
      OrdinalRank(p + 1)
  }

  /** rank_to_str: a one-character name, "?" for Invalid. */
  function RankToStr(r: Rank): (s: string)
    ensures |s| == 1
    ensures s == "?" <==> r == Invalid
  {
    match r
    case Ace => "A"
    case Two => "2"
    case Three => "3"
    case Four => "4"
    case Five => "5"
    case Six => "6"
    case Seven => "7"
    case Jack => "J"
    case Queen => "Q"
    case King => "K"
    case Invalid => "?"
  }

  lemma RankToStrInjective(a: Rank, b: Rank)
    requires RankToStr(a) == RankToStr(b)
    ensures a == b
  {
  }

  /** rank_to_int: NUM_RANK_BITS minus the leading zeros, which is the rank's ordinal. */
  function RankToInt(r: Rank): (n: int)
    ensures n == Ordinal(r)
  {
    NUM_RANK_BITS - CountLZero(r.Bit())
  }

  /** The low 16 bits of the 32-bit int 1 << k, for 0 <= k <= 31. */
  function ShiftedOneU16(k: int): (m: RankMask)
    requires 0 <= k <= 31
    ensures k < 16 ==> m == {k}
    ensures k >= 16 ==> m == {}
  {
    if k < 16 then {k} else {}
  }

  /**
   * int_to_rank. The shift is defined for 0 <= val - 1 <= 31 only. 1..10 give the ranks,
   * 11..16 give a bit above King and throw, and 17..32 truncate to 0, which is Invalid.
   */
  function IntToRank(val: int): (r: Result<Rank>)
    requires 0 <= val <= 32
    ensures val == 0 ==> r == Ok(Invalid)
    ensures 1 <= val <= 10 ==> r == Ok(OrdinalRank(val))
    ensures 11 <= val <= 16 ==> r == Err(InvalidRankCast)
    ensures 17 <= val ==> r == Ok(Invalid)
  {
    if val == 0 then Ok(Invalid)
    else
      var m := ShiftedOneU16(val - 1);
      assert 1 <= val <= 10 ==> OrdinalRank(val).Bit() == m;
      assert 11 <= val <= 16 ==> val - 1 in m * Complement(ALL_RANK_BITS);
      ToRank(m)
  }

  lemma IntToRankOfRankToInt(r: Rank)
    ensures IntToRank(RankToInt(r)) == Ok(r)
  {
    OrdinalInjective(r, r);
  }

  lemma RankToIntOfIntToRank(i: int)
    requires 0 <= i <= 10
    ensures IntToRank(i).Ok? && RankToInt(IntToRank(i).value) == i
  {
  }

  /** Postfix ++: the next rank in Ace..King order, King to Invalid, and Invalid throws. */
  function Succ(r: Rank): (s: Result<Rank>)
    ensures r == Invalid <==> s.Err?
    ensures s.Err? ==> s.error == IncrementInvalid
    ensures r == King ==> s == Ok(Invalid)
    ensures r != Invalid && r != King ==> s.Ok? && Ordinal(s.value) == Ordinal(r) + 1
  {
    match r
    case Ace => Ok(Two)
    case Two => Ok(Three)
    case Three => Ok(Four)
    case Four => Ok(Five)
    case Five => Ok(Six)
    case Six => Ok(Seven)
    case Seven => Ok(Jack)
    case Jack => Ok(Queen)
    case Queen => Ok(King)
    case King => Ok(Invalid)
    case Invalid => Err(IncrementInvalid)
  }

  /** operator< compares rank_to_int. */
  predicate Less(a: Rank, b: Rank) {
    RankToInt(a) < RankToInt(b)
  }

  /** The rank order is a strict total order. */
  lemma LessIsStrictTotalOrder(a: Rank, b: Rank, c: Rank)
    ensures !Less(a, a)
    ensures Less(a, b) && Less(b, c) ==> Less(a, c)
    ensures a != b ==> Less(a, b) || Less(b, a)
  {
    OrdinalInjective(a, a);
    OrdinalInjective(b, b);
    assert Ordinal(a) == Ordinal(b) ==> a == b by {
      assert a == OrdinalRank(Ordinal(a)) && b == OrdinalRank(Ordinal(b));
    }
  }

  /** The rank order agrees with the numeric enumerator values. */
  lemma LessAgreesWithValue(a: Rank, b: Rank)
    ensures Less(a, b) <==> a.Value() < b.Value()
  {
    ValueFollowsOrdinal(a, b);
  }

  lemma ValueFollowsOrdinal(a: Rank, b: Rank)
    ensures Ordinal(a) < Ordinal(b) <==> a.Value() < b.Value()
  {
    match a
    case Invalid =>
    case Ace =>
    case Two =>
    case Three =>
    case Four =>
    case Five =>
    case Six =>
    case Seven =>
    case Jack =>
    case Queen =>
    case King =>
  }

  /** contains_ranks, as its callers use it: every bit of `sub` is set in `cards`, that is (cards & sub) == sub. */
  predicate ContainsRanks(cards: RankMask, sub: RankMask) {
    cards * sub == sub
  }

  /** operator~ on a uint16 pattern. */
  function Complement(m: RankMask): RankMask {
    ALL_BITS - m
  }

  /** operator~ flips all sixteen bits, so it also sets the six bits above King when they were clear. */
  lemma ComplementFlips(m: RankMask)
    ensures Complement(m) * m == {} && Complement(m) + m == ALL_BITS
    ensures m * HIGH_BITS == {} ==> HIGH_BITS <= Complement(m)
  {
    forall i | i in HIGH_BITS && m * HIGH_BITS == {}
      ensures i !in m
    {
      assert i !in m * HIGH_BITS;
    }
  }

  /** A rank's bit is contained in a mask exactly when the rank is Invalid or its position is set. */
  lemma ContainsRankBit(cards: RankMask, r: Rank)
    ensures ContainsRanks(cards, r.Bit()) <==> (r == Invalid || Ordinal(r) - 1 in cards)
  {
  }
}
