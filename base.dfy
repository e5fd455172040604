/** Values shared by every part of the renderer: optional values, the exceptions the
    renderer can raise, results that carry them, and the three ways a traversal step ends. */
module Base {

  datatype Option<+T> = None | Some(value: T)

  /** The exceptions the renderer can raise. Any one of them ends the render; the drawing
      is only saved after the last row, so what was drawn before it is never written. */
  datatype Error =
    | KeyError(key: string)            // a style name absent from the style table
    | ValueError(text: string)         // int()/float() of a malformed number
    | UnpackError(expected: nat, got: nat)  // the ValueError of unpacking a list of the wrong length
    | IndexError(index: int)           // a list index past the end
    | TypeError                        // arithmetic on the None that convert_to_mm returns for an unknown unit
    | ZeroDivisionError                // floor division by a zero character width
    | InvalidWrapWidth(width: int)     // textwrap refuses a width below one character
    | OversizedGrid(rows: nat, cols: nat, cells: nat)  // the 10000-cell guard
    | UnboundLocal                     // `x` read after the row loop although no row was drawn

  datatype Result<+T> = Ok(value: T) | Err(error: Error) {
    predicate IsFailure() { Err? }
    function PropagateFailure<U>(): Result<U> requires Err? { Err(error) }
    function Extract(): T requires Ok? { value }
  }

  /** How one step of a traversal ends: it continues with a new state, it stops the
      enclosing loop (keeping its state), or it raises, leaving the state it had reached. */
  datatype Flow<S> = Continue(state: S) | Stop(state: S) | Abort(error: Error, state: S)
}
