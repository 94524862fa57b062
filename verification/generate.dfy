/** generate.py: number the sorted distinct tokens, take 100 consecutive
    tokens from a random start as the seed, run the network for 200 steps
    and turn the tokens into timed notes and chords. */
module Generate {
  import opened Results
  import opened Ordering
  import opened Vocabulary
  import opened Generation
  import opened Reconstruction

  /** `sequence_length`. */
  const SeedLength: nat := 100

  /** `range(200)`. */
  const Steps: nat := 200

  /** `note_to_int`: `{note: i for i, note in enumerate(pitch_names)}`. */
  function NoteToInt(notes: seq<string>): (d: Items)
    ensures Dense(d)
    ensures forall t :: t in Keys(d) <==> t in notes
  {
    Build(notes)
  }

  /** `int_to_note`: `{i: note for i, note in enumerate(pitch_names)}`. */
  function IntToNote(notes: seq<string>): (m: map<int, string>)
    ensures forall i :: i in m <==> 0 <= i < |NoteToInt(notes)|
    ensures forall i :: i in m ==> m[i] in notes
  {
    IndexTable(SortedSet(notes))
  }

  /** `pattern_int`: the indices of `notes[start:start + 100]`. */
  function SeedIndices(notes: seq<string>, start: nat): (seed: seq<int>)
    requires start + SeedLength <= |notes|
    ensures |seed| == SeedLength
    ensures forall j :: 0 <= j < SeedLength ==> Get(NoteToInt(notes), notes[start + j]) == Some(seed[j])
  {
    var pattern := notes[start..start + SeedLength];
    assert forall j :: 0 <= j < |pattern| ==> pattern[j] == notes[start + j] && pattern[j] in notes;
    Encode(NoteToInt(notes), pattern)
  }

  /** The script. `start` is the number `randint(0, len(notes) - 101)` drew;
      that call raises unless at least 102 notes are there. `predict` is the
      loaded network and `isPitch` the pitch names music21 accepts. */
  function Script(notes: seq<string>, predict: Predictor, isPitch: PitchNames, start: nat): (r: Result<Song>)
    requires |notes| >= 102 ==> start <= |notes| - 102
    ensures r == Err(EmptyRandomRange) <==> |notes| < 102
  {
    if |notes| - SeedLength - 1 <= 0 then
      Err(EmptyRandomRange)
    else
      var s :- Run(predict, IntToNote(notes), Session(SeedIndices(notes, start), [], []), Steps);
      var events :- Reconstruct(s.output, isPitch);
      Ok(Song(s.chosen, s.output, s.context, events))
  }

  /** The two tables come from the same sorted list, so they are mutual
      inverses over 0..N-1; `int_to_note` is also what inverting
      `note_to_int` gives. */
  lemma TablesInverse(notes: seq<string>)
    ensures var noteToInt, intToNote := NoteToInt(notes), IntToNote(notes);
      intToNote == Invert(noteToInt) &&
      (forall v :: v in intToNote <==> 0 <= v < |noteToInt|) &&
      (forall v :: v in intToNote ==> Get(noteToInt, intToNote[v]) == Some(v)) &&
      forall t :: t in notes ==> Get(noteToInt, t).Some? && intToNote[Get(noteToInt, t).value] == t
  {
    var noteToInt := NoteToInt(notes);
    assert noteToInt == Enumerate(SortedSet(notes));
    InvertEnumerate(SortedSet(notes));
    InvertDense(noteToInt);
    forall v | v in IntToNote(notes)
      ensures Get(noteToInt, IntToNote(notes)[v]) == Some(v)
    {
      assert noteToInt[v].0 == IntToNote(notes)[v];
    }
  }

  /** Every seed index is below N, and decoding it gives the seed token back. */
  lemma SeedDecodes(notes: seq<string>, start: nat)
    requires start + SeedLength <= |notes|
    ensures var seed, intToNote := SeedIndices(notes, start), IntToNote(notes);
      forall j :: 0 <= j < SeedLength ==>
        0 <= seed[j] < |SortedSet(notes)| && seed[j] in intToNote && intToNote[seed[j]] == notes[start + j]
  {
    TablesInverse(notes);
    var seed, intToNote := SeedIndices(notes, start), IntToNote(notes);
    forall j | 0 <= j < SeedLength
      ensures 0 <= seed[j] < |SortedSet(notes)| && seed[j] in intToNote && intToNote[seed[j]] == notes[start + j]
    {
      assert notes[start + j] in notes;
    }
  }

  /** A song comes out of 200 steps: step i chose the argmax of the scores
      for the window of `seed + chosen` before it and output its token; the
      buffer keeps 100 indices and after the 200 steps holds the last 100
      chosen; token i became event i at offset i * 0.5. */
  lemma SongShape(notes: seq<string>, predict: Predictor, isPitch: PitchNames, start: nat)
    requires |notes| >= 102 ==> start <= |notes| - 102
    requires Script(notes, predict, isPitch, start).Ok?
    ensures var song := Script(notes, predict, isPitch, start).value;
      var seed := SeedIndices(notes, start);
      |song.chosen| == |song.tokens| == |song.events| == Steps &&
      |song.buffer| == SeedLength && song.buffer == song.chosen[Steps - SeedLength..] &&
      (forall i :: 0 <= i < Steps ==> ChosenAt(predict, IntToNote(notes), seed, song.chosen, song.tokens, i)) &&
      forall i :: 0 <= i < Steps ==> EventFor(song.tokens[i], i, song.events[i])
  {
    var seed := SeedIndices(notes, start);
    ScriptRun(notes, predict, isPitch, start);
    var s := Run(predict, IntToNote(notes), Session(seed, [], []), Steps).value;
    RunFromSeedProduces(predict, IntToNote(notes), seed, Steps);
    ReconstructedEvents(s.output, isPitch);
  }

  /** A successful script is the 200-step run from the seed followed by the
      conversion of its tokens, both succeeding. */
  lemma ScriptRun(notes: seq<string>, predict: Predictor, isPitch: PitchNames, start: nat)
    requires |notes| >= 102 ==> start <= |notes| - 102
    requires Script(notes, predict, isPitch, start).Ok?
    ensures var run := Run(predict, IntToNote(notes), Session(SeedIndices(notes, start), [], []), Steps);
      run.Ok? && Reconstruct(run.value.output, isPitch).Ok? &&
      Script(notes, predict, isPitch, start).value ==
        Song(run.value.chosen, run.value.output, run.value.context, Reconstruct(run.value.output, isPitch).value)
  {
    assert !(|notes| - SeedLength - 1 <= 0);
  }

  /** A network with one score per vocabulary entry never makes the loop
      raise: the argmax is always a key of `int_to_note`. With at least 102
      notes the only exception left is a token that cannot be converted. */
  lemma MatchingNetworkDecodes(notes: seq<string>, predict: Predictor, isPitch: PitchNames, start: nat)
    requires |notes| >= 102 ==> start <= |notes| - 102
    requires forall ctx :: |predict(ctx)| == |SortedSet(notes)|
    requires |notes| >= 102
    ensures var r := Script(notes, predict, isPitch, start);
      r.Err? ==> r.failure.InvalidLiteral? || r.failure.InvalidPitchName?
  {
    var intToNote := IntToNote(notes);
    assert notes[0] in notes;
    forall ctx
      ensures |predict(ctx)| > 0 && Argmax(predict(ctx)) in intToNote
    {
      assert |predict(ctx)| == |SortedSet(notes)|;
    }
    var session := Session(SeedIndices(notes, start), [], []);
    RunSucceeds(predict, intToNote, session, Steps);
    var run := Run(predict, intToNote, session, Steps).value;
    assert Run(predict, intToNote, session, Steps) == Ok(run);
    var events := Reconstruct(run.output, isPitch);
    if events.Err? {
      assert !(|notes| - SeedLength - 1 <= 0);
      assert Script(notes, predict, isPitch, start) == Err(events.failure);
    }
  }
}
