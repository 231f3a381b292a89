/** Failure-compatible result types for the engine. Every `panic!` of the
    Canasta engine becomes a `Fail` carrying the reason, so that the model can
    state exactly when an operation aborts. */
module Outcomes {

  /** The reasons the engine aborts. */
  datatype Fault =
    | HandUnderflow      // Hand::remove asked for more cards than held
    | EmptyDrawPile      // Game::draw on an exhausted draw pile
    | NoCardToGoOut      // GoOut found no rank held exactly once
    | EmptyDiscardPile   // indexing the top of an empty discard pile
    | NoWildToPlay       // Play of a new two-card meld without a wildcard
    | NotEnoughCards     // dealing ran out of cards (`unwrap` on `None`)

  datatype Option<+T> = None | Some(value: T)

  datatype Result<+T> = Ok(value: T) | Fail(fault: Fault) {

    predicate IsFailure() {
      Fail?
    }

    function PropagateFailure<U>(): Result<U>
      requires Fail?
    {
      Fail(fault)
    }

    function Extract(): T
      requires Ok?
    {
      value
    }
  }
}
