# Cuarenta: a verified model of the rules engine, move generator, bot search and move parser

Cuarenta is an Ecuadorian fishing card game for two players. The deck has forty cards: four of each of the ranks Ace to Seven, Jack, Queen and King.
Ace to Seven count 1 to 7 in additions. The face cards have no value and are never part of an addition.
This project models the C++ engine of a terminal implementation of the game.
It covers these parts:

- the rank encoding and the rank masks (`Ranks`, after `rank.h`);
- the fixed-capacity array used for the generated move list (`BoundedArrays`, after `dynamic_array.h`); hands are vectors and are modelled as sequences;
- the game state, deck, players and move records (`GameStates`, after `game_state.h`);
- the rules (`Engine`, after `cuarenta.cpp`):
  - the waterfall and addition-capture logic;
  - `make_move` and its in-place form;
  - `undo_move_in_place`;
  - the caida (matching the last card played) and the limpia (clearing the table);
  - the round-end score update (`update_captured_cards`);
- the table of card combinations that add up to a value (`Additions`, after `movegen.h`);
- move generation (`MoveGen`, after `movegen.cpp`);
- the bot's card counting, the weights it draws ranks from and the deck-size-to-round mapping (`BotModel`, after `bot.h`);
- the deterministic evaluation and negamax search with its three cut-offs (opponent at 40 points, empty hand, depth zero) (`Search`, after `bot.cpp`);
- the parser that turns a line of user input into a command or a move (`CliParse`, after `cli_parse.cpp`).

A rank mask is a 16-bit word in the source. Here it is the set of its set bit positions, each below 16.
Bit `i` stands for the rank at position `i + 1` (Ace is bit 0, King is bit 9).
Bitwise and, or and complement become set intersection, union and complement within `{0..15}`.
`popcount` is the cardinality; `has_single_bit` is "exactly one element".
A move is a mask whose highest bit is the card played. Its other bits are the table cards it captures.

Each place the C++ code throws is a named `Exception` in a `Result`.
`Exception.Kind` says which standard exception class the source throws there.

The game state is a class whose methods change it in place. A value snapshot, `State`, is kept beside it.
- `Engine.Apply` specifies `make_move` on that snapshot.
- `Engine.MakeMoveInPlace` and `Engine.UndoMoveInPlace` are methods that change a game object in place.
- Each method is proved to produce the state given by its specification function.

`movegen.h` declares `generate_all_moves` as returning the `MoveList` record, but `movegen.cpp` defines it with a `dynamic_array<RankMask, 16>` result. `MoveGen.GenerateAllMoves` follows the definition. `Additions.MoveList` models the declared record on its own, and nothing else in the model uses it.

The bounded array (`BoundedArrays.BoundedArray`) is a class over a Dafny `array`. Negamax, the count model and the move generator keep the loops of the source.

Where the code and its documentation differ, the model follows the code:

- Undo returns the played card to the end of the hand, not to its old slot. `Engine.UnapplyInvertsApply` proves it undoes a move exactly except for the order of the hand. The search proofs in `Search` therefore state that a search leaves the game as it found it up to the order of the hands.
- The move parser does not check that the card before `=` is the card played. The card played is always the highest rank in the mask. `CliParse.LaterDigitIsPlayed` proves that `3=5` is accepted and plays a Five.
- `update_captured_cards` does not read the captured-card count. See Findings.

## Model

| member | source | states |
|---|---|---|
| Ranks.Rank.Bit | rank.h:11-16 | to_mask of a rank is the single bit at its position counted from Ace; Invalid is the empty mask |
| Ranks.OrdinalRank | rank.h:11-16 | each position 0..10 names exactly one rank (0 is Invalid) |
| Ranks.OrdinalInjective | rank.h:11-16 | distinct ranks sit at distinct positions, and every rank is recovered from its position |
| Ranks.RankBitsDisjoint | rank.h:11-16 | every rank bit lies inside ALL_RANK_BITS, and two rank bits overlap exactly when they are the same valid rank |
| Ranks.SingleBitPosition | rank.h:33-37 | a mask with has_single_bit holds exactly one position below 16 |
| Ranks.TopBitBelow | rank.h:71-73 | the highest set position below a bound, or -1 when none is set |
| Ranks.CountLZero | rank.h:71-73 | countl_zero of a 16-bit word: 16 exactly for the zero word, otherwise 15 minus the highest set position |
| Ranks.ValidRankIsRankBit | rank.h:33-37 | is_valid_rank holds exactly for the patterns that are some rank's to_mask (zero included) |
| Ranks.ToRank | rank.h:39-52 | to_rank succeeds exactly on valid patterns and returns the rank with that bit; otherwise it fails with the invalid_argument cast error |
| Ranks.CastRank | rank.h:39-52 | on a valid pattern the cast gives the rank whose to_mask is that pattern |
| Ranks.RankToStr | rank.h:54-69 | one character per rank, and "?" exactly for Invalid |
| Ranks.RankToStrInjective | rank.h:54-69 | different ranks print differently |
| Ranks.RankToInt | rank.h:71-73 | rank_to_int is the rank's position counted from Ace = 1, Invalid = 0 |
| Ranks.ShiftedOneU16 | rank.h:76 | 1 << k cast to uint16 keeps bit k for k < 16 and truncates to zero above |
| Ranks.IntToRank | rank.h:74-77 | int_to_rank: 0 gives Invalid, 1..10 the rank at that position, 11..16 a failed cast, 17..32 Invalid after the uint16 truncation |
| Ranks.IntToRankOfRankToInt | rank.h:71-77 | int_to_rank undoes rank_to_int for every rank |
| Ranks.RankToIntOfIntToRank | rank.h:71-77 | rank_to_int undoes int_to_rank on 0..10 |
| Ranks.Succ | rank.h:88-103 | increment moves to the next rank, King goes to Invalid, and Invalid throws out_of_range |
| Ranks.LessIsStrictTotalOrder | rank.h:105-107 | operator< on ranks is irreflexive, transitive and total on distinct ranks |
| Ranks.LessAgreesWithValue | rank.h:105-107 | operator< orders ranks as their uint16 values |
| Ranks.ValueFollowsOrdinal | rank.h:11-16 | the enumerator values grow with the rank's position |
| Ranks.ComplementFlips | rank.h:85-87 | operator~ gives the disjoint complement within 16 bits, so it sets the six bits above King when they were clear |
| Ranks.ContainsRankBit | cuarenta.cpp:39 | contains_ranks(cards, to_mask(r)) holds exactly when r is Invalid or its bit is set, reading contains_ranks as the subset test (cards & sub) == sub |
| GameStates.FourOf | game_state.h:39-43 | four copies of one rank |
| GameStates.DeckUpToCount | game_state.h:32-43 | the unshuffled deck built up to a rank holds four of each rank so far and none of the others |
| GameStates.FullDeckCounts | game_state.h:32-43 | the unshuffled deck has 40 cards, four of every rank and no Invalid |
| GameStates.FullDeckOrder | game_state.h:32-43 | the unshuffled deck lists the ranks in order Ace..King, four at a time |
| GameStates.Deck.constructor | game_state.h:32-43 | a new unshuffled deck holds the forty cards in order |
| GameStates.Deck.Copy | game_state.h:29-30 | a copied deck holds the same cards |
| GameStates.Deck.DrawHand | game_state.h:51-60 | fewer than five cards throws "deck too small" and leaves the deck; otherwise the first five cards become the hand and the deck keeps the rest |
| GameStates.Move.PlayedRank | game_state.h:63-71 | get_played_rank succeeds exactly when no bit above King is set; then its rank's bit is in the mask and is the mask's highest bit |
| GameStates.HighestBitIsRank | game_state.h:67-69 | the highest set bit names a rank exactly when no bit above King is set, and that rank's bit is the highest |
| GameStates.PlayedRankOfTopBit | game_state.h:63-71 | a card's bit with only lower bits beside it plays that card |
| GameStates.Player.Other | game_state.h:118-129 | the other player has the other index |
| GameStates.OtherIsInvolution | game_state.h:118-141 | switching players twice gives back the player |
| GameStates.Players.Set | game_state.h:144-150 | writing through state_for changes that player's state and no other |
| GameStates.SetTwice | game_state.h:144-150 | the second write wins, and writing back what was read changes nothing |
| GameStates.AccessorsAreRelative | game_state.h:152-166 | the opposing player is state_for the other player, and a turn change swaps current and opposing |
| GameStates.GameState.Empty | game_state.h:99-108 | a default game has an empty table, a full deck, empty hands, zero scores and P1 to move |
| GameStates.GameState.constructor | game_state.h:110-116 | a game from two hands has those hands, an empty table, zero counts and P1 to move |
| GameStates.GameState.Copy | game_state.h:99-106 | a copied game has the same snapshot and its own deck |
| GameStates.GameState.AdvanceTurn | game_state.h:118-129 | advance_turn hands the move to the other player and changes nothing else |
| GameStates.GameState.UnadvanceTurn | game_state.h:130-141 | unadvance_turn hands the move back and changes nothing else |
| GameStates.FlipTwiceRestores | game_state.h:118-141 | advancing then unadvancing restores the game, and each turn change switches the player |
| BoundedArrays.BoundedArray.constructor | dynamic_array.h:23 | a default array has the given capacity and no elements |
| BoundedArrays.BoundedArray.FromList | dynamic_array.h:25-28 | an array built from a list no longer than the capacity holds exactly that list |
| BoundedArrays.BoundedArray.Full | dynamic_array.h:19 | full exactly when the element count reaches the capacity |
| BoundedArrays.BoundedArray.Empty | dynamic_array.h:20 | empty exactly when there are no elements |
| BoundedArrays.BoundedArray.Size | dynamic_array.h:21 | the element count, never above the capacity |
| BoundedArrays.BoundedArray.At | dynamic_array.h:30-38 | at(i) gives element i when i is below the size and throws out_of_range otherwise |
| BoundedArrays.BoundedArray.Contains | dynamic_array.h:40-45 | true exactly when the value is among the elements |
| BoundedArrays.BoundedArray.Find | dynamic_array.h:47-52 | the first index holding the value, or the size when it is absent |
| BoundedArrays.BoundedArray.PushBack | dynamic_array.h:54-57 | below capacity, appends the value and keeps everything before it |
| Engine.RemoveRanks | cuarenta.cpp:16-18 | cards & ~(cards & to_remove) clears exactly the removed bits |
| Engine.AddRanks | cuarenta.cpp:30-32 | OR-ing adds exactly the given bits |
| Engine.AddRemoveInverse | cuarenta.cpp:16-32 | adding back removed bits that were present restores the mask, and removing added bits that were absent restores it |
| Engine.RemoveFirst | cuarenta.cpp:25-28 | erasing the first copy of a card shortens the hand by one; an absent card leaves it unchanged |
| Engine.RemoveFirstMultiset | cuarenta.cpp:25-28 | erasing a held card removes exactly one copy of it |
| Engine.RemoveFirstSplits | cuarenta.cpp:25-28 | the erased copy is the first one, and the cards before and after it keep their order |
| Engine.RunAboveGrows | cuarenta.cpp:34-46 | the run of k+1 ranks above a card is the run of k plus the next position |
| Engine.Run | cuarenta.cpp:34-46 | the length of the run of consecutive ranks above a card that are on the table, bounded by the ranks left below King |
| Engine.RunIsMaximal | cuarenta.cpp:37-44 | every rank of the run is on the table and the rank just past the run is not |
| Engine.RunIsOnTable | cuarenta.cpp:34-46 | the whole run lies on the table |
| Engine.WaterfallRemovesMaximalRun | cuarenta.cpp:34-46 | sequence_waterfall removes exactly the maximal run of consecutive ranks above the start, returns its length, and leaves every other bit |
| Engine.OffRun | cuarenta.cpp:39-41 | removing a run clears exactly the ranks in it and no bit above King |
| Engine.WaterfallStep | cuarenta.cpp:37-43 | one loop step: the next rank is on the table exactly while the run continues, and removing it extends the removed run by one |
| Engine.WaterfallOfRun | cuarenta.cpp:34-46 | the waterfall result is the table without the run, and the run's length |
| Engine.SequenceWaterfall | cuarenta.cpp:34-46 | the loop computes the waterfall specification, including the out_of_range throw when the start is Invalid |
| Engine.AdditionMask | cuarenta.cpp:67 | the addition mask is the move's bits without the played card's bit |
| Engine.ResolveAddition | cuarenta.cpp:79-92 | an addition removes the waterfall run and the summed cards, clears last_played_card, and credits popcount of the mask plus the run as captured |
| Engine.ResolvePlace | cuarenta.cpp:95-99 | a single card with nothing to capture is placed on the table and becomes last_played_card |
| Engine.ResolveCapture | cuarenta.cpp:100-110 | a single-card capture removes the card and its run, credits 2 plus the run, and adds 2 points for a caida |
| Engine.SingleBitPlayed | cuarenta.cpp:64-65 | a move that is not an addition is exactly its played card's bit |
| Engine.ApplySteps | cuarenta.cpp:122-197 | an accepted move names its played card, which is in the hand; an addition's summed cards are on the table; the result is the effect followed by the Limpia bonus and the hand update |
| Engine.InvalidPlayedIsEmpty | game_state.h:67-70 | only the empty mask plays Invalid, and it counts as an addition |
| Engine.ResolveInvalid | cuarenta.cpp:147-155 | an addition that plays Invalid reaches the waterfall, whose increment throws |
| Engine.ApplyRejects | cuarenta.cpp:122-155 | each rejection: a bit above King fails the cast, a card not in hand throws, addition targets not on the table throw, and playing Invalid throws in the increment |
| Engine.ApplyAccepts | cuarenta.cpp:122-197 | make_move_in_place succeeds exactly when the played rank casts, is held, is not Invalid and, for an addition, the summed cards are on the table |
| Engine.FinishFacts | cuarenta.cpp:190-196 | after the effect: Limpia adds 2 when the table is empty, the played card leaves the hand, the opponent and deck are untouched, and the undo record holds the move, the old last card and the run length |
| Engine.ApplyPlaces | cuarenta.cpp:95-99 | placing a card adds its bit to the table, makes it last_played_card, keeps score and captures, and removes it from the hand |
| Engine.PlayedBitOutsideCapture | cuarenta.cpp:162 | removing the run and the summed cards leaves the played card's own bit as it was |
| Engine.ApplyCaptures | cuarenta.cpp:147-187 | a capture or addition removes the run and the captured cards, clears last_played_card and credits the captured count |
| Engine.ApplyScores | cuarenta.cpp:172-193 | the score rises by 2 for a caida and by 2 for a Limpia, and by nothing else |
| Engine.ApplyFrame | cuarenta.cpp:122-197 | the deck, the player to move and the opponent are unchanged; exactly one copy of the played card leaves the hand |
| Engine.ApplyEstablishesLastPlayedOnTable | cuarenta.cpp:97-109 | after a move, last_played_card is Invalid or on the table |
| Engine.RestoreParts | cuarenta.cpp:219-234 | adding back the two removed disjoint parts restores the table |
| Engine.TargetsMissRun | cuarenta.cpp:154-162 | the summed cards lie below the played card, so they never meet the waterfall run |
| Engine.UndoCardsAfterAddition | cuarenta.cpp:219-234 | undoing an addition restores the table it started from |
| Engine.UndoCardsAfterCapture | cuarenta.cpp:211-234 | undoing a capture finds the card off the table and restores the table |
| Engine.UndoCardsAfterPlace | cuarenta.cpp:211-222 | undoing a placed card finds it on the table and takes it off |
| Engine.UnapplyFrame | cuarenta.cpp:200-235 | undo changes only the current player's state and the table |
| Engine.UnapplyRestoresTable | cuarenta.cpp:200-235 | undoing a move restores the table cards and last_played_card |
| Engine.UndoMoverAfterAddition | cuarenta.cpp:216-228 | undoing an addition restores the mover's score and captured count |
| Engine.UndoMoverAfterCapture | cuarenta.cpp:216-228 | undoing a capture restores the mover's score and captured count, caida and Limpia included |
| Engine.UndoMoverAfterPlace | cuarenta.cpp:216-228 | undoing a placed card restores the mover's score and captured count |
| Engine.UndoMoverInvertsEffect | cuarenta.cpp:200-235 | for every accepted move, undo restores the mover's score and captured count |
| Engine.UnapplyRestoresCounts | cuarenta.cpp:199-235 | when the player to move made the move, undo restores the current player's score and captured count |
| Engine.UnapplyInvertsApply | cuarenta.cpp:122-235 | undo_move_in_place after make_move_in_place restores the whole game except that the played card returns to the end of the hand |
| Engine.AdditionInPlace | cuarenta.cpp:147-165 | the addition branch updates the table and the mover as the specification's addition effect, or throws and changes nothing |
| Engine.PlaceInPlace | cuarenta.cpp:168-171 | the placing branch updates the table as the specification's place effect |
| Engine.CaptureInPlace | cuarenta.cpp:172-187 | the capture branch updates the table and mover as the specification's capture effect |
| Engine.FinishInPlace | cuarenta.cpp:190-196 | the Limpia check and hand update leave the game equal to the specification's finished state |
| Engine.MakeMoveInPlace | cuarenta.cpp:122-197 | make_move_in_place either throws the specification's error and leaves the game unchanged, or leaves the game equal to the applied state and returns its undo record |
| Engine.RestoreWaterfall | cuarenta.cpp:231-234 | the undo loop adds back exactly the run of ranks above the played card |
| Engine.UndoPlayerInPlace | cuarenta.cpp:213-228 | undo's player updates give the specification's restored player |
| Engine.UndoTableInPlace | cuarenta.cpp:214-234 | undo's table updates give the specification's restored table |
| Engine.UndoMoveInPlace | cuarenta.cpp:200-235 | undo_move_in_place leaves the game equal to the specification's undo of the snapshot |
| Engine.MakeMove | cuarenta.cpp:58-120 | make_move returns a fresh game equal to the applied state, or the same error as the in-place version |
| Engine.TruncDiv | cuarenta.cpp:53 | C++ integer division truncates toward zero |
| Engine.RoundEndAsWritten | cuarenta.cpp:48-56 | as written, a score of at least 20 becomes score + 6 - (score - 20) / 2 and captured cards are not read |
| Engine.UpdateCapturedCards | cuarenta.cpp:48-56 | both players get the as-written round-end update and nothing else changes |
| Engine.RoundEndAsWrittenIgnoresCaptures | cuarenta.cpp:51-53 | 22 captured cards earn nothing as written, a score of 24 becomes 28, and the as-written update differs from the intended one |
| Engine.CapturedCardsPoints | cuarenta.cpp:51 | fewer than 20 captured cards earn nothing; from 20 on the points are even and grow with the count |
| Engine.CapturedCardsPointsSteps | cuarenta.cpp:51 | 20 cards give 6 points, 22 give 8, each two more cards give two more points, and the points never fall as the count rises |
| Engine.RoundEndIntended | cuarenta.cpp:51 | the intended round end adds the captured-card points to the score and clears the count |
| Engine.RoundEndIntendedExamples | cuarenta.cpp:51 | 22 captured cards add 8 points, 19 add none |
| Additions.PatternFacts | movegen.h:31-56 | every listed addition pattern belongs to a rank from Three to Seven, uses at least two low cards below that rank, and their face values sum to the rank |
| Additions.PatternsDistinct | movegen.h:31-52 | no pattern is listed twice for the same rank |
| Additions.TopTargetExcluded | movegen.h:31-52 | a set of two or more low cards summing to a rank never holds the bit of the rank it sums to (bit k - 1 is the rank of value k) |
| Additions.PatternsComplete | movegen.h:31-56 | every set of two or more low cards whose values sum to a rank from Three to Seven is listed for that rank |
| Additions.MoveList.constructor | movegen.h:10-12 | a new move list is empty |
| Additions.MoveList.Full | movegen.h:15 | full exactly at MAX_MOVES_PER_TABLE moves |
| Additions.MoveList.Empty | movegen.h:16 | empty exactly when it holds no moves |
| Additions.MoveList.Contains | movegen.h:18-23 | true exactly when some stored move has the same targets mask |
| Additions.MoveList.PushBack | movegen.h:25-28 | below capacity, appends the move |
| MoveGen.TryPatternsKeeps | movegen.cpp:25-33 | trying a card's patterns only appends to the moves already listed |
| MoveGen.TryPatternsAppends | movegen.cpp:25-33 | every move the pattern loop appends is a listed pattern of that card that lies on the low table, ORed with the card |
| MoveGen.LastPatternAppends | movegen.cpp:25-33 | a move appended by the last pattern is that pattern ORed with the card, and the pattern is on the low table |
| MoveGen.LastPatternKeeps | movegen.cpp:25-33 | the last pattern does not change moves listed before it |
| MoveGen.GeneratedExtends | movegen.cpp:17-20 | each hand card first appends its own single-card move after the earlier cards' moves |
| MoveGen.GeneratedKeeps | movegen.cpp:17-34 | moves listed for earlier cards stay listed |
| MoveGen.GeneratedOrigin | movegen.cpp:11-36 | soundness: every generated move is a hand card's own bit or a pattern of that card, on the low table, ORed with it |
| MoveGen.SimpleMovePlays | movegen.cpp:20 | a single-card move plays that card and is not an addition unless the card is Invalid |
| MoveGen.PatternBelowCard | movegen.h:31-52 | every pattern of a card lies strictly below the card |
| MoveGen.PatternMovePlays | movegen.cpp:27 | a pattern ORed with its card plays that card |
| MoveGen.PatternMoveTargets | movegen.cpp:26-27 | a pattern move is an addition whose summed cards are exactly the pattern, so they are on the table |
| MoveGen.PatternMoveSize | movegen.cpp:27 | a pattern move has at least three bits |
| MoveGen.MoveAccepted | cuarenta.cpp:122-155 | a move meeting the generator's conditions is accepted by make_move_in_place |
| MoveGen.GeneratedMovesAccepted | movegen.cpp:11-36 | every generated move plays a card from the hand and, unless that card is Invalid, make_move_in_place accepts it |
| MoveGen.TryPatternsIncludes | movegen.cpp:25-33 | a pattern on the low table is appended unless its move is already listed |
| MoveGen.EarlierMoveStaysListed | movegen.cpp:17-34 | a move listed before a card stays listed after it |
| MoveGen.LastCardListed | movegen.cpp:20 | the last card's own move is listed |
| MoveGen.LastCardPatternListed | movegen.cpp:25-33 | the last card's patterns that lie on the low table are listed |
| MoveGen.GeneratedIncludes | movegen.cpp:11-36 | completeness: every hand card's own move and every pattern move on the low table is generated |
| MoveGen.PatternMoveListedAt | movegen.h:31-52 | each table entry's move lies in the set of all pattern moves |
| MoveGen.PatternMoveListed | movegen.h:31-52 | every card's pattern move lies in the set of all pattern moves |
| MoveGen.AdditionsBound | movegen.h:31-52 | at most eleven distinct pattern moves exist, and one fewer when a further one is still missing |
| MoveGen.TallyOwnMove | movegen.cpp:19-20 | a single-card move adds one to the tally of single-card moves |
| MoveGen.TallyAddition | movegen.cpp:28-31 | a new pattern move keeps the tally: pattern moves stay distinct |
| MoveGen.TryPatternsTally | movegen.cpp:25-33 | the pattern loop keeps pattern moves distinct and adds no single-card move |
| MoveGen.GeneratedTally | movegen.cpp:11-36 | the generated list has one single-card move per hand card and distinct pattern moves |
| MoveGen.GeneratedSize | movegen.cpp:19-29 | the generated list holds at least one move per hand card and at most eleven more, so a five-card hand never exceeds the sixteen slots |
| MoveGen.TryPushPattern | movegen.cpp:26-32 | one pattern step: push the move when the pattern is on the low table and the move is new, never overflowing |
| MoveGen.PushPatternMoves | movegen.cpp:25-33 | the inner loop lists exactly the specification's pattern moves of the card |
| MoveGen.TryPatternsStep | movegen.cpp:25-33 | one more pattern extends the inner loop's result by one step |
| MoveGen.PushCardMoves | movegen.cpp:19-33 | one hand card: its own move, then its pattern moves |
| MoveGen.GenerateAllMoves | movegen.cpp:11-36 | for a hand of at most five cards, the generated list is exactly the specification's list |
| BotModel.FreshTable | bot.h:20-37 | the initial table has an entry for each of the ten ranks and none for Invalid, each with weight 1 and count 4 |
| BotModel.Observe | bot.h:44-48 | hand_prob[rank].count-- lowers that rank's count by one (inserting a default entry first when the key is missing, as operator[] does) and changes nothing else |
| BotModel.Bot.constructor | bot.h:25-41 | a new bot starts from the initial table and keeps its iteration count |
| BotModel.Bot.UpdateFromMove | bot.h:44-48 | the opponent's played rank loses one count; a move whose played rank does not cast throws and leaves the table |
| BotModel.Bot.UpdateFromHand | bot.h:50-54 | every card of the hand is observed in turn |
| BotModel.Bot.ResetProbabilities | bot.h:55-59 | every entry goes back to weight 1 and count 4 |
| BotModel.BitPlaysItself | bot.h:52 | the single-card move of a card plays that card |
| BotModel.ObserveAllStep | bot.h:51-53 | observing one more card extends the observations by one step |
| BotModel.ObserveKeepsBudget | bot.h:46 | when every card still has counts to spare, the next card has at least one, and the rest still have |
| BotModel.ObserveAllCounts | bot.h:44-54 | after observing a list of cards, each rank's count fell by its number of copies in the list; weights are unchanged |
| BotModel.ObserveAllAppend | bot.h:50-54 | observing two lists in turn equals observing their concatenation |
| BotModel.SumCountsObserve | bot.h:44-48 | one observation lowers the sum of counts over a rank list by the rank's copies in the list |
| BotModel.RankOrderCounts | bot.h:26-37 | the table's keys, in map order, hold each rank once and no Invalid |
| BotModel.RankOrderDistinct | bot.h:26-37 | no rank appears twice among the keys |
| BotModel.RankOrderHolds | bot.h:26-37 | a rank is a key exactly when it is not Invalid |
| BotModel.TotalAfterObservations | bot.h:44-54 | the ten ranks' counts fall in total by the number of observed cards other than Invalid |
| BotModel.SumAfterObservations | bot.h:44-54 | the same over any list holding each real rank once |
| BotModel.ResetRestores | bot.h:55-59 | reset gives every existing entry weight 1 and count 4 and keeps the keys |
| BotModel.ResetIdempotent | bot.h:55-59 | resetting twice equals resetting once, and resetting the initial table changes nothing |
| BotModel.TotalOfReset | bot.h:55-59 | after a reset the ten ranks hold 40 counts |
| BotModel.SumCountsOfReset | bot.h:55-59 | after a reset every rank holds 4 |
| BotModel.CountsSinceReset | bot.h:44-59 | after a reset and observations of at most four copies of each real rank, every count stays within 0..4 and the counts total 40 minus the cards seen |
| BotModel.DeckSizeToRound | bot.h:95-103 | deck sizes 30, 20, 10 and 0 map to rounds 1 to 4; any other size throws |
| Search.EvaluationsAreAntisymmetric | bot.cpp:19-41 | passing the turn negates both heuristic_value and deterministic_value |
| Search.DeterministicIsIntendedRoundEnd | bot.cpp:24-41 | deterministic_value is the score difference each player would have after the intended round-end captured-card points |
| Search.Max | bot.cpp:89 | std::max is an upper bound of both arguments and equals one of them |
| Search.LeIsTotalOrder | bot.cpp:70-89 | the order on values with the lowest double as minus infinity is a total order that negation reverses |
| Search.SameUpToHandOrderIsEquivalence | bot.cpp:84-93 | equality up to the order of the hands is reflexive, symmetric and transitive |
| Search.SearchableUpToHandOrder | bot.cpp:84-93 | reordering hands keeps a position searchable and keeps the card count |
| Search.FlipUpToHandOrder | bot.cpp:88-90 | passing the turn keeps equality up to hand order and keeps a position searchable |
| Search.AcceptedUpToHandOrder | bot.cpp:86 | a move accepted in a position is accepted in any reordering of its hands |
| Search.ChildFacts | bot.cpp:86-88 | after a generated move and the turn change the position is still searchable, holds one card fewer, and the undo record fits |
| Search.UnapplyUpToHandOrder | bot.cpp:92 | undoing the same record on positions equal up to hand order gives positions equal up to hand order |
| Search.UndoFacts | bot.cpp:86-92 | making a move, searching below it, passing the turn back and undoing gives the starting position up to hand order |
| Search.StepFacts | bot.cpp:84-92 | in the loop, every listed move is accepted in the current game and leads to a smaller searchable position |
| Search.Negamax | bot.cpp:67-95 | the search leaves the game as it found it, up to the order of the hands |
| Search.SearchMoves | bot.cpp:83-94 | after any number of loop iterations the game is the starting game up to hand order |
| Search.SearchStep | bot.cpp:84-93 | one loop iteration keeps the game equal to the start up to hand order |
| Search.ChildOf | bot.cpp:86-90 | the child search starts from an accepted move and ends at its position up to hand order |
| Search.SearchMovesUnfold | bot.cpp:84-93 | one more loop iteration is one more search step |
| Search.SearchMovesValue | bot.cpp:89 | each iteration takes the maximum of the value so far and the negated child value |
| Search.LastMoveBound | bot.cpp:89 | the newest child's negated value is at most the running maximum |
| Search.EarlierMoveBound | bot.cpp:84-93 | earlier children's negated values stay below the running maximum |
| Search.SearchMovesBound | bot.cpp:84-93 | the running maximum bounds every child searched so far |
| Search.SearchMovesAttained | bot.cpp:83-93 | after at least one iteration the running maximum is some child's negated value |
| Search.NegamaxIsBestMove | bot.cpp:67-95 | below the cut-offs, minimax is the largest negated child value over all generated moves, attained by one of them |
| Search.NegamaxCutoffs | bot.cpp:69-79 | an opponent at 40 points gives the lowest value; an empty hand gives deterministic_value; depth zero gives heuristic_value |
| Search.TraceOf | bot.cpp:83-94 | the loop's running values and games after each iteration exist as a sequence |
| Search.Minimax | bot.cpp:67-95 | the method returns the negamax value and leaves the game as the specification says: unchanged up to hand order |
| Search.SearchAllMoves | bot.cpp:81-94 | the loop ends with the specification's value and game |
| Search.SearchMovesStart | bot.cpp:83 | the loop starts at the lowest value with the game unchanged |
| Search.TryMove | bot.cpp:84-93 | one iteration on the real game moves the loop from one trace entry to the next |
| CliParse.UpperChar | cli_parse.cpp:19 | std::toupper in the C locale: a lower-case ASCII letter becomes its capital, every other character stays |
| CliParse.LowerChar | cli_parse.cpp:63 | std::tolower in the C locale: a capital ASCII letter becomes lower case, every other character stays |
| CliParse.UpperStr | cli_parse.cpp:25-28 | upper-casing a string upper-cases each character in place |
| CliParse.LowerStr | cli_parse.cpp:63 | lower-casing a string lower-cases each character in place |
| CliParse.Normalize | cli_parse.cpp:15-21 | the normalized token is no longer than the token and holds no white space and no lower-case letter |
| CliParse.Stoi | cli_parse.cpp:40-46 | std::stoi on a string of digits yields its decimal value when it fits in an int and throws (caught) otherwise |
| CliParse.MatchFrom | cli_parse.cpp:22-48 | the rank loop only ever returns a real rank |
| CliParse.ParseRankToken | cli_parse.cpp:11-50 | try_parse_rank_token never returns Invalid |
| CliParse.NamesAreUpper | cli_parse.cpp:24-28 | rank names are already upper case |
| CliParse.MatchesAreUnique | cli_parse.cpp:22-48 | a normalized token matches at most one rank by name or number |
| CliParse.SingleDigitName | cli_parse.cpp:29-44 | the digit names 2..7 also match by number at their own position |
| CliParse.MatchFromFinds | cli_parse.cpp:22-48 | the loop returns the rank the token matches |
| CliParse.MatchFromFound | cli_parse.cpp:22-48 | whatever the loop returns is a rank the token matches by name or by number |
| CliParse.ParseRankTokenMeaning | cli_parse.cpp:11-50 | a token parses to r exactly when it is non-empty and, with spaces dropped and letters upper-cased, it is r's name or a decimal numeral whose value is r's position 1..10 |
| CliParse.NormalizeAppend | cli_parse.cpp:17-21 | normalizing a concatenation concatenates the normalized parts |
| CliParse.NormalizeKeeps | cli_parse.cpp:17-21 | a token with no space and no lower-case letter is already normalized |
| CliParse.NormalizeSpaces | cli_parse.cpp:17-21 | a token of spaces normalizes to nothing |
| CliParse.MatchFromEmpty | cli_parse.cpp:22-48 | the empty normalized token matches no rank |
| CliParse.WhitespaceIgnored | cli_parse.cpp:17-21 | white space anywhere inside a token does not change how it parses |
| CliParse.NormalizeDropsSpace | cli_parse.cpp:18 | a space character is dropped from the normalized token |
| CliParse.BlankTokenRejected | cli_parse.cpp:13-49 | a token of white space only is rejected |
| CliParse.RankNameRoundTrip | cli_parse.cpp:22-31 | every rank's printed name, in either case, parses back to that rank |
| CliParse.NumeralToken | cli_parse.cpp:32-46 | a numeral worth 1..10 parses to the rank at that position |
| CliParse.SingleDigitNumeral | cli_parse.cpp:32-46 | the digits 1..9 parse to the rank at that position, so "8" is Jack and "9" is Queen |
| CliParse.TenNumeral | cli_parse.cpp:32-46 | "10" parses to King |
| CliParse.LeadingZeroNumeral | cli_parse.cpp:32-46 | "07" parses to Seven, since stoi accepts leading zeros |
| CliParse.OneDigitValue | cli_parse.cpp:41 | a one-digit numeral is worth its digit |
| CliParse.TwoDigitValue | cli_parse.cpp:41 | a two-digit numeral is worth ten times its first digit plus its second |
| CliParse.NormalizeToken | cli_parse.cpp:15-21 | the normalizing loop computes the normalized token |
| CliParse.UpperName | cli_parse.cpp:25-28 | the upper-casing loop computes the upper-cased name |
| CliParse.IsNumeric | cli_parse.cpp:32-38 | numeric is set exactly when the normalized token is non-empty and all digits |
| CliParse.TryParseRankToken | cli_parse.cpp:11-50 | the method returns exactly the specification's parse of the token |
| CliParse.BotLevel.McIters | bot.h:81-84 | each bot level searches with at least one Monte Carlo iteration: 1, 10, 1000 or 10000 |
| CliParse.FirstNotBlankFrom | cli_parse.cpp:59 | find_first_not_of(" \t") returns a position holding neither space nor tab |
| CliParse.LastNotBlankBefore | cli_parse.cpp:60 | find_last_not_of(" \t") returns a position holding neither space nor tab |
| CliParse.FirstNotBlankMeaning | cli_parse.cpp:59 | the forward search fails exactly on an all-blank tail and skips only blanks |
| CliParse.LastNotBlankMeaning | cli_parse.cpp:60 | the backward search fails exactly on an all-blank head and skips only blanks |
| CliParse.SearchesAgree | cli_parse.cpp:59-61 | both searches fail together, and otherwise the first non-blank lies at or before the last |
| CliParse.Trim | cli_parse.cpp:59-62 | a trimmed line is non-empty and starts and ends with a character that is neither space nor tab |
| CliParse.TrimMeaning | cli_parse.cpp:61 | a line is rejected exactly when it holds only spaces and tabs |
| CliParse.FindFrom | cli_parse.cpp:79 | find('=') returns the first '=' from the start, or nothing when there is none |
| CliParse.Command | cli_parse.cpp:66-75 | each of the eight commands sets exactly one outcome and no move or error |
| CliParse.Split | cli_parse.cpp:105-115 | the right-hand side splits into at least one piece, none holding '+' |
| CliParse.SplitJoin | cli_parse.cpp:105-112 | joining the pieces with '+' gives back the right-hand side |
| CliParse.ParseAll | cli_parse.cpp:105-115 | when every token parses, there is one rank per token |
| CliParse.ParseAllMeaning | cli_parse.cpp:96-115 | the targets parse exactly when every token parses, and each rank is its token's rank |
| CliParse.MaskOfMeaning | cli_parse.cpp:116-118 | the OR of the target ranks holds each rank's bit and nothing else |
| CliParse.ParseMoveText | cli_parse.cpp:77-121 | a move line yields either the error or only a move, and the move holds a bit and none above King |
| CliParse.PlayedBitHoldsARank | cli_parse.cpp:121 | ORing a real rank's bit into targets below King gives a move that holds a rank |
| CliParse.ParseLine | cli_parse.cpp:59-121 | every line yields exactly one outcome, and a move holds a bit and none above King |
| CliParse.SplitStep | cli_parse.cpp:105-112 | a '+' closes the pending token; any other character extends it |
| CliParse.FinishedGrows | cli_parse.cpp:105-112 | the closed tokens only grow as the loop advances |
| CliParse.ParseAllPrefixFails | cli_parse.cpp:107 | once a closed token fails, the whole right-hand side fails |
| CliParse.ParseAllSnoc | cli_parse.cpp:102-114 | finishing one more token appends its rank or fails |
| CliParse.PrefixFails | cli_parse.cpp:107 | the early return on a bad token agrees with the whole right-hand side failing |
| CliParse.FinishToken | cli_parse.cpp:96-104 | finish_token trims the token and parses it, rejecting blank tokens |
| CliParse.CollectTargets | cli_parse.cpp:105-115 | the loop over the right-hand side collects exactly the specification's target ranks, or fails where it does |
| CliParse.OrMasks | cli_parse.cpp:116-118 | the OR loop computes the OR of the target ranks |
| CliParse.ParseTargets | cli_parse.cpp:92-119 | the targets mask is the empty mask for an empty right-hand side and the OR of the parsed ranks otherwise |
| CliParse.ParseMoveLine | cli_parse.cpp:77-121 | the method computes the specification's result for a move line |
| CliParse.LowerCase | cli_parse.cpp:63 | the in-place transform computes the lower-cased line |
| CliParse.ReadInput | cli_parse.cpp:59-121 | read_input after reading the line returns exactly the specification's result |
| CliParse.FirstSkipsLeading | cli_parse.cpp:59 | the forward search passes over leading blanks |
| CliParse.FirstShifts | cli_parse.cpp:59 | after a prefix the forward search finds the same position, shifted |
| CliParse.LastInLeading | cli_parse.cpp:60 | the backward search finds nothing among leading blanks |
| CliParse.LastShifts | cli_parse.cpp:60 | after blank leading characters the backward search finds the same position, shifted |
| CliParse.FirstKeeps | cli_parse.cpp:59 | a suffix does not change a forward hit |
| CliParse.FirstInTrailing | cli_parse.cpp:59 | the forward search finds nothing among trailing blanks |
| CliParse.LastSkipsTrailing | cli_parse.cpp:60 | the backward search passes over trailing blanks |
| CliParse.LastKeeps | cli_parse.cpp:60 | a suffix does not change the backward search before it |
| CliParse.TrimLeading | cli_parse.cpp:59-62 | leading spaces and tabs do not change the trimmed line |
| CliParse.TrimTrailing | cli_parse.cpp:59-62 | trailing spaces and tabs do not change the trimmed line |
| CliParse.TrimPadding | cli_parse.cpp:59-62 | spaces and tabs on both sides do not change the trimmed line |
| CliParse.ParseLineIgnoresPadding | cli_parse.cpp:59-121 | spaces and tabs around a line do not change how it reads |
| CliParse.FirstIgnoresCase | cli_parse.cpp:59-63 | the forward search finds the same position in the lower-cased line |
| CliParse.LastIgnoresCase | cli_parse.cpp:59-63 | the backward search finds the same position in the lower-cased line |
| CliParse.TrimLower | cli_parse.cpp:59-63 | trimming then lower-casing equals lower-casing then trimming |
| CliParse.ParseLineIgnoresCase | cli_parse.cpp:59-121 | lines that agree up to letter case read the same: commands and rank names are case-insensitive |
| CliParse.TrailingPlusIgnored | cli_parse.cpp:105-115 | a final '+' after a non-empty token adds nothing: "5+" reads as "5" |
| CliParse.BlankTokenBeforePlus | cli_parse.cpp:96-107 | a blank token closed by '+' rejects the line |
| CliParse.SplitAtFirstEq | cli_parse.cpp:79-85 | the line splits at its first '=' |
| CliParse.PlayableMask | game_state.h:63-71 | a move that holds some bit and none above King plays a real rank |
| CliParse.MaskOfBelowKing | cli_parse.cpp:116-118 | the OR of rank bits has no bit above King |
| CliParse.MaskOfBelow | cli_parse.cpp:116-118 | targets below a bound give bits below it |
| CliParse.TargetsBelowKing | cli_parse.cpp:92-119 | parsed targets have no bit above King |
| CliParse.MoveLineParts | cli_parse.cpp:77-121 | a move line lhs=rhs yields the move of the targets' bits ORed with the played rank's bit |
| CliParse.TargetsBelowPlayed | cli_parse.cpp:121 | when every target ranks below the played rank, the parsed move plays that rank |
| CliParse.OneDigitTargets | cli_parse.cpp:92-119 | a right-hand side that is one digit 1..9 gives that numeral's rank's bit as the targets |
| CliParse.DigitEqDigitText | cli_parse.cpp:59-75 | a line of a digit, '=' and a digit survives trimming and lower-casing unchanged and is no command |
| CliParse.DigitEqDigitParts | cli_parse.cpp:77-121 | such a line gives the move of the second digit's rank bit ORed with the first's |
| CliParse.LaterDigitIsPlayed | cli_parse.cpp:116-121 | the parser does not keep the played card on top: for digits a < b, "a=b" is accepted and its move plays b's rank, so "3=5" plays Five |

## Left out

- Monte Carlo evaluation (`evaluate_all_moves_mc`, `monte_carlo_idx`, bot.cpp:43-65 and 97-151) and `weighted_random_rank` (bot.h:61-78): both draw random numbers and compute with doubles. The weights they draw from are modelled (`BotModel`).
- The shuffle in `Deck(true)` (game_state.h:44-48): it uses a random engine. The deck is modelled in its unshuffled order, and any order can be given as a parameter.
- Printing and rendering (`print_move`, `print_hand`, `print_table`, cli_render.cpp, ansi.h), the interactive loop in cli.cpp, main.cpp and data.py: these are terminal I/O and scripts outside the engine.
- Reading the line from standard input (cli_parse.cpp:54-57) and the error raised at end of input: the line is a parameter of `CliParse.ParseLine`.
- `is_valid_move`: it is a stub in the source that accepts every move.
- `InputData.bot_stats`: no code path sets it.
- The bot objects that `InputData` carries: they are modelled by their level (`CliParse.BotLevel`) and the iteration count that level selects.
- `Player::NUM_PLAYERS`: an enum count with no behaviour; `Player` has just its two values.
- `MoveEval`: a pair record used only by the Monte Carlo code.
- Search.Negamax: the source scores with `double`; here the scores are integers extended by two infinities. `NegInf` stands for `numeric_limits<double>::lowest()`, the starting value and the 40-point cut-off. `PosInf` stands for `-lowest()`, which is `max()`, and arises when a child's `lowest()` is negated. All values reached are small integers, so no rounding is lost.
- The definition of `contains_ranks` is not part of this model. `Ranks.ContainsRanks` takes it as the subset test `(cards & sub) == sub`, the reading its uses at cuarenta.cpp:39 and 69-70 need.
- CliParse: characters are Dafny `char`, and `tolower`/`isspace` follow the C locale.
- Search.Negamax: its value is not proved independent of the order of the cards in a hand. It is defined on the hands in the order the game actually holds them at each step.
- Search.Minimax: requires a dealt position, which the source does not state. The requirement has three parts, each with its own reason:
  - At most five cards in each hand keeps the 16 slots of `generate_all_moves` within its asserts at movegen.cpp:19 and 29.
  - No Invalid card avoids the `out_of_range` that `Invalid++` throws in `sequence_waterfall` (rank.h:101-102, cuarenta.cpp:37-38). Playing an Invalid card takes the addition branch of `make_move_in_place` with mask 0 and reaches that loop.
  - The last card played being Invalid or on the table is the invariant the undo's Caída reversal needs (cuarenta.cpp:211-216).
- MoveGen.GenerateAllMoves: requires a hand of at most five cards, the capacity the source asserts.
- MoveGen.GenerateAllMoves: the bound of 16 moves is proved, but not that a hand such as {3,4,5,6,7} reaches it.
- Additions: the table holds 11 patterns in all, at most 4 for one value (value 7). It is proved to hold only correct patterns and every correct pattern. That some hand and table reach all 11 addition moves in one generated list is not proved.
- CliParse.ParseMoveText: states that an accepted move holds some bit and none above King (`HoldsARank`), not its played rank directly. `CliParse.PlayableMask` derives the played rank from that.
- CliParse.ParseLine: states `HoldsARank` in the same way, for the same reason.

## Findings

| source | as written | input that shows it | evidently intended | confidence | as-written member | corrected member |
|---|---|---|---|---|---|---|
| cuarenta.cpp:48-56 | at round end a player whose score is at least 20 gets `6 + (20 - score) / 2` points. The captured-card count is neither read nor reset | a player with 22 captured cards and score 0 gains nothing (intended: 8 points). A score of 24 becomes 28 | a player with at least 20 captured cards gains 6 points, plus 2 points for each further pair of cards. The count is then reset | not executed | Engine.RoundEndAsWritten, Engine.RoundEndAsWrittenIgnoresCaptures | Engine.RoundEndIntended, Engine.CapturedCardsPointsSteps, Engine.RoundEndIntendedExamples, Search.DeterministicIsIntendedRoundEnd |
