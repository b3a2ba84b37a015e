/** Option, Result and Outcome values standing in for Python's `None` and for
    the exceptions the engine raises. */
module Wrappers {

  datatype Option<+T> = None | Some(value: T)

  /** Why an operation of the engine raised instead of completing. */
  datatype Error =
    | NotEnoughCards    // dealing needs more cards than the draw pile holds
    | DeckEmpty         // no card left to draw, even after a reshuffle
    | DiscardEmpty      // drawing from an empty discard pile
    | InvalidIndex      // a hand index out of range
    | OpponentNotFound  // a name that is not among the player's opponents
    | PlayerNotFound    // a name that no player of the game has
    | MissingArgument   // `discard` called with neither a card nor an index
    | NotACard          // `discard` handed a value that has no `effect`
    | NoOpponents       // `min` over the scores of an empty set of opponents
    | WrongDecision     // an effect decision whose shape does not fit the effect

  datatype Result<+T> = Ok(value: T) | Err(error: Error)

  datatype Outcome = Pass | Fail(error: Error)
}
