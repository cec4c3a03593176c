/** The failures the embedder can raise, and a failure-compatible result type
    so that the checks of the constructor and of `forward` read as `:-` steps. */
module Outcome {

  /** One constructor per raising statement of the embedder. The source raises
      `AssertionError` for all but the last, and `NotImplementedError` for
      an unsupported embeddings mode. */
  datatype Error =
    | MaxLayerTooLarge(maxLayer: int, numLayers: nat)  // resolved bound above the encoder's depth
    | MixNeedsSingleTask(taskCount: nat)               // "mix" mode with several target tasks
    | MissingInput(key: string)                        // batch dictionary without the id key
    | SequenceTooLong(length: nat)                     // more word pieces than the encoder accepts
    | ReservedId                                       // an id that is neither padding nor a word piece
    | LayerCountMismatch(expected: nat, actual: nat)   // encoder returned the wrong number of layers
    | ShapeMismatch                                    // concatenation of layers with different grids
    | UnsupportedMode(name: string)                    // embeddings mode the dispatch does not know

  datatype Result<+R> = Ok(value: R) | Err(error: Error) {

    predicate IsFailure() {
      Err?
    }

    function PropagateFailure<U>(): Result<U>
      requires Err?
    {
      Err(error)
    }

    function Extract(): R
      requires Ok?
    {
      value
    }
  }
}
