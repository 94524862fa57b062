/** Success and failure values shared by the pipeline scripts. Every exception a
    script raises and does not catch becomes a `Failure`; a script that catches
    an exception and moves on is modelled by the value it continues with. */
module Results {

  datatype Option<+T> = None | Some(value: T)

  /** The exceptions that end a script run. */
  datatype Failure =
    | NoMidiFiles                  // train_model.py: the glob matched no file
    | ParseError                   // converter.parse raised where nothing catches it
    | EmptyNotes                   // generate_music.py: the notes list is empty
    | TooFewSequences              // generate_music.py: not one input sequence could be built
    | EmptyRandomRange             // np.random.randint(low, high) with high <= low
    | IndexError                   // a list or array index out of range
    | EmptyPrediction              // np.argmax of an empty score vector
    | KeyError(index: int)         // int_to_note has no entry for the predicted index
    | InvalidLiteral(text: string) // int() of a chord piece that is not a numeral
    | InvalidPitchName(text: string) // note.Note() of a token music21 cannot read as a pitch

  datatype Result<+T> = Ok(value: T) | Err(failure: Failure) {

    predicate IsFailure() {
      Err?
    }

    function PropagateFailure<U>(): Result<U>
      requires Err?
    {
      Err(failure)
    }

    function Extract(): T
      requires Ok?
    {
      value
    }
  }
}
