/** What the scripts see of a parsed MIDI file. Parsing, instrument
    partitioning and the computation of a chord's normal order are done by
    music21 and are taken here as given values. */
module Scores {
  import opened Results

  /** One element of a music21 stream, reduced to the attributes the scripts
      read. Pitch names and quarter lengths are kept as the strings that
      `str()` or an f-string would print for them. */
  datatype Element =
    | Note(pitch: string, nameWithOctave: string, quarterLength: string)
    | Chord(normalOrder: seq<nat>, pitchNames: seq<string>, quarterLength: string)
    | Rest(quarterLength: string)
    | Other

  /** A parsed score: the parts `instrument.partitionByInstrument` produced,
      each recursed into its elements (no parts when partitioning yields
      nothing), and the flat time-ordered stream of notes, chords and rests. */
  datatype Score = Score(parts: seq<seq<Element>>, flat: seq<Element>)

  /** One directory entry: its file name and what `converter.parse` makes of
      it, `None` when parsing raises. */
  datatype MidiFile = MidiFile(name: string, parsed: Option<Score>)
}
