/** Option and Result, and the exceptions the engine throws, as values. */
module Wrappers {

  datatype Option<+T> = None | Some(value: T)

  /** Every place the C++ code throws, named by where it comes from. */
  datatype Exception =
    | InvalidRankCast      // to_rank on a bit pattern that is not 0 or one rank bit
    | IncrementInvalid     // postfix ++ applied to Rank::Invalid
    | CardNotInHand        // make_move: played rank (the MSB) not in the mover's hand
    | TargetsNotOnTable    // make_move: an addition whose lower bits are not all on the table
    | AtOutOfRange         // dynamic_array::at past the size
    | DeckTooSmall         // Deck::draw_hand with fewer than five cards
    | BadDeckSize          // deck_size_to_round on a size other than 30, 20, 10, 0
  {
    /** The standard exception class the C++ code throws for this case. */
    function Kind(): StdException {
      match this
      case InvalidRankCast => InvalidArgument
      case CardNotInHand => InvalidArgument
      case TargetsNotOnTable => InvalidArgument
      case IncrementInvalid => OutOfRange
      case AtOutOfRange => OutOfRange
      case DeckTooSmall => RuntimeError
      case BadDeckSize => RuntimeError
    }
  }

  datatype StdException = InvalidArgument | OutOfRange | RuntimeError

  datatype Result<+T> = Ok(value: T) | Err(error: Exception) {
    predicate IsFailure() { Err? }
    function PropagateFailure<U>(): Result<U> requires Err? { Err(error) }
    function Extract(): T requires Ok? { value }
  }
}
