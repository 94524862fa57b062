/** generate_music.py: load the token stream, build or extend the token
    numbering, cut the stream into windows, draw a seed window, run the
    network for 300 steps and turn the tokens into timed notes and chords. */
module GenerateMusic {
  import opened Results
  import opened Ordering
  import opened Vocabulary
  import opened Windows
  import opened Generation
  import opened Reconstruction

  /** `range(300)`. */
  const Steps: nat := 300

  /** `min(20, max(5, len(notes) // 2))`. */
  function SequenceLength(n: nat): (L: nat)
    ensures 5 <= L <= 20
    ensures L < n <==> n > 5
  {
    var half := n / 2;
    if half < 5 then 5 else if half > 20 then 20 else half
  }

  /** `note_to_int` and what is written back to disk. A stored dict is
      extended with the unseen names in sorted order and only kept in
      memory; a fresh dict numbers the sorted names and is saved. */
  function LoadNoteToInt(notes: seq<string>, stored: Option<Items>): (v: (Items, Option<Items>))
    requires stored.Some? ==> DistinctKeys(stored.value)
    ensures DistinctKeys(v.0)
    ensures forall t :: t in notes ==> t in Keys(v.0)
  {
    match stored
    case Some(d) => (Extend(d, SortedSet(notes)), None)
    case None => (Build(notes), Some(Build(notes)))
  }

  /** The encoded windows and the window length. */
  datatype Patterns = Patterns(sequenceLength: nat, inputs: seq<seq<int>>, outputs: seq<int>)

  /** The window loop and the "Dataset too small" check. Window i holds the
      indices of `notes[i:i+L]` and its target is the index of `notes[i+L]`. */
  function MakePatterns(notes: seq<string>, noteToInt: Items): (r: Result<Patterns>)
    requires forall t :: t in notes ==> t in Keys(noteToInt)
    ensures r.Err? <==> |notes| <= 5
    ensures r.Err? ==> r.failure == TooFewSequences
    ensures r.Ok? ==> r.value.sequenceLength == SequenceLength(|notes|)
    ensures r.Ok? ==> |r.value.inputs| == |r.value.outputs| == |notes| - r.value.sequenceLength
    ensures r.Ok? ==> EncodedWindows(notes, noteToInt, r.value.sequenceLength, r.value.inputs, r.value.outputs)
  {
    var L := SequenceLength(|notes|);
    var e := Encode(noteToInt, notes);
    var ws := Slide(e, L);
    if |ws| == 0 then
      Err(TooFewSequences)
    else
      SlideEncodes(notes, noteToInt, L);
      Ok(Patterns(L, Contexts(ws), Targets(ws)))
  }

  /** Input i holds `L` indices, those of `notes[i:i+L]`, and output i is
      the index of `notes[i+L]`. */
  ghost predicate EncodedWindows(notes: seq<string>, noteToInt: Items, L: nat, inputs: seq<seq<int>>, outputs: seq<int>)
    requires |inputs| == |outputs| <= |notes| - L
  {
    forall i :: 0 <= i < |inputs| ==>
      |inputs[i]| == L &&
      Get(noteToInt, notes[i + L]) == Some(outputs[i]) &&
      forall j :: 0 <= j < L ==> Get(noteToInt, notes[i + j]) == Some(inputs[i][j])
  }

  /** The windows of the encoded stream are the encoded windows. */
  lemma SlideEncodes(notes: seq<string>, noteToInt: Items, L: nat)
    requires forall t :: t in notes ==> t in Keys(noteToInt)
    ensures var ws := Slide(Encode(noteToInt, notes), L);
      |Contexts(ws)| == |Targets(ws)| == WindowCount(|notes|, L) &&
      (|ws| > 0 ==> EncodedWindows(notes, noteToInt, L, Contexts(ws), Targets(ws)))
  {
    var e := Encode(noteToInt, notes);
    var ws := Slide(e, L);
    SlideColumns(e, L);
    forall i | 0 <= i < |ws|
      ensures Get(noteToInt, notes[i + L]) == Some(Targets(ws)[i])
      ensures forall j :: 0 <= j < L ==> Get(noteToInt, notes[i + j]) == Some(Contexts(ws)[i][j])
    {
      forall j | 0 <= j < L
        ensures Get(noteToInt, notes[i + j]) == Some(Contexts(ws)[i][j])
      {
        assert Contexts(ws)[i][j] == e[i + j];
      }
    }
  }

  /** `network_input[randint(0, n_patterns - 1)]`: the upper bound is
      exclusive, so the last window is never drawn, and with a single window
      the draw itself raises. `start` is the number drawn. */
  function Seed(p: Patterns, start: nat): (r: Result<seq<int>>)
    requires |p.inputs| >= 2 ==> start < |p.inputs| - 1
    ensures r.Err? <==> |p.inputs| < 2
    ensures r.Err? ==> r.failure == EmptyRandomRange
    ensures r.Ok? ==> exists i :: 0 <= i < |p.inputs| - 1 && r.value == p.inputs[i]
  {
    if |p.inputs| < 2 then Err(EmptyRandomRange) else Ok(p.inputs[start])
  }

  /** The number of windows the script builds from n notes. */
  function PatternCount(n: nat): nat {
    WindowCount(n, SequenceLength(n))
  }

  /** Everything after the vocabulary: windows, seed, generation, and the
      conversion to events. */
  function Compose(notes: seq<string>, noteToInt: Items, predict: Predictor, isPitch: PitchNames, start: nat): (r: Result<Song>)
    requires forall t :: t in notes ==> t in Keys(noteToInt)
    requires PatternCount(|notes|) >= 2 ==> start < PatternCount(|notes|) - 1
    ensures r != Err(EmptyNotes)
    ensures r == Err(TooFewSequences) <==> |notes| <= 5
    ensures r == Err(EmptyRandomRange) <==> |notes| == 6
  {
    PatternCounts(|notes|);
    var p :- MakePatterns(notes, noteToInt);
    var seed :- Seed(p, start);
    var s :- Run(predict, Invert(noteToInt), Session(seed, [], []), Steps);
    var events :- Reconstruct(s.output, isPitch);
    Ok(Song(s.chosen, s.output, s.context, events))
  }

  /** What one run of the script leaves behind: the dict written to disk, if
      any, and the song or the exception. */
  datatype Outcome = Outcome(persisted: Option<Items>, song: Result<Song>)

  /** The script. `stored` is the content of `note_to_int.pkl` when the file
      exists, `predict` the loaded network, `isPitch` the pitch names music21
      accepts, `start` the random draw. */
  function Script(notes: seq<string>, stored: Option<Items>, predict: Predictor, isPitch: PitchNames, start: nat): Outcome
    requires stored.Some? ==> DistinctKeys(stored.value)
    requires PatternCount(|notes|) >= 2 ==> start < PatternCount(|notes|) - 1
  {
    if |notes| == 0 then
      Outcome(None, Err(EmptyNotes))
    else
      var v := LoadNoteToInt(notes, stored);
      Outcome(v.1, Compose(notes, v.0, predict, isPitch, start))
  }

  /** One to five notes give no window; exactly six give one window, which
      the draw cannot pick; seven or more give at least two. */
  lemma PatternCounts(n: nat)
    ensures PatternCount(n) == 0 <==> n <= 5
    ensures PatternCount(n) == 1 <==> n == 6
  {
  }

  /** The script raises before generating exactly in these cases: no notes;
      one to five notes; six notes. */
  lemma EarlyFailures(notes: seq<string>, stored: Option<Items>, predict: Predictor, isPitch: PitchNames, start: nat)
    requires stored.Some? ==> DistinctKeys(stored.value)
    requires PatternCount(|notes|) >= 2 ==> start < PatternCount(|notes|) - 1
    ensures var song := Script(notes, stored, predict, isPitch, start).song;
      (song == Err(EmptyNotes) <==> |notes| == 0) &&
      (song == Err(TooFewSequences) <==> 1 <= |notes| <= 5) &&
      (song == Err(EmptyRandomRange) <==> |notes| == 6)
  {
    if |notes| > 0 {
      ScriptComposes(notes, stored, predict, isPitch, start);
    }
  }

  /** Past the empty check the song is what `Compose` gives, and `Compose`
      never raises the empty-notes exception. */
  lemma ScriptComposes(notes: seq<string>, stored: Option<Items>, predict: Predictor, isPitch: PitchNames, start: nat)
    requires stored.Some? ==> DistinctKeys(stored.value)
    requires PatternCount(|notes|) >= 2 ==> start < PatternCount(|notes|) - 1
    requires |notes| > 0
    ensures var noteToInt := LoadNoteToInt(notes, stored).0;
      var song := Compose(notes, noteToInt, predict, isPitch, start);
      Script(notes, stored, predict, isPitch, start).song == song &&
      song != Err(EmptyNotes) &&
      (song == Err(TooFewSequences) <==> |notes| <= 5) &&
      (song == Err(EmptyRandomRange) <==> |notes| == 6)
  {
  }

  /** Only a freshly built dict is written back; an extended one never is. */
  lemma Persistence(notes: seq<string>, stored: Option<Items>, predict: Predictor, isPitch: PitchNames, start: nat)
    requires stored.Some? ==> DistinctKeys(stored.value)
    requires PatternCount(|notes|) >= 2 ==> start < PatternCount(|notes|) - 1
    ensures Script(notes, stored, predict, isPitch, start).persisted ==
      if |notes| > 0 && stored.None? then Some(Build(notes)) else None
  {
  }

  /** Extending a loaded dict keeps every loaded token's index, appends the
      unseen tokens at the current size in sorted order, and keeps a dict
      numbered 0..k-1 numbered 0..k+m-1. */
  lemma ExtendedNoteToInt(notes: seq<string>, d: Items)
    requires DistinctKeys(d)
    ensures var r := LoadNoteToInt(notes, Some(d)).0;
      (forall t :: t in Keys(d) ==> Get(r, t) == Get(d, t)) &&
      r[..|d|] == d &&
      AppendedInOrder(|d|, r) &&
      (forall i :: |d| <= i < |r| ==> r[i].1 == i && r[i].0 in notes && r[i].0 !in Keys(d)) &&
      (Dense(d) ==> Dense(r) && |r| == |d| + |(set t | t in notes) - Keys(d)|)
  {
    var names := SortedSet(notes);
    forall t | t in Keys(d)
      ensures Get(Extend(d, names), t) == Get(d, t)
    {
      ExtendKeepsIndices(d, names, t);
    }
    ExtendAppendsInOrder(d, names);
    ExtendSize(d, names);
    assert (set t | t in names) == (set t | t in notes);
  }

  /** With a dict numbered 0..k-1 (always so when freshly built)
      `int_to_note` undoes `note_to_int` on every token of the stream. */
  lemma IntToNoteInverts(notes: seq<string>, stored: Option<Items>, t: string)
    requires stored.Some? ==> Dense(stored.value)
    requires t in notes
    ensures var noteToInt := LoadNoteToInt(notes, stored).0;
      Get(noteToInt, t).Some? && Invert(noteToInt)[Get(noteToInt, t).value] == t
  {
    var noteToInt := LoadNoteToInt(notes, stored).0;
    assert Dense(noteToInt);
    InvertDense(noteToInt);
  }

  /** A song comes out of 300 steps: step i chose the argmax of the scores
      for the window of `seed + chosen` before it and output its token; the
      buffer holds the last L chosen indices; token i became event i at
      offset i * 0.5. The seed is one of the windows other than the last. */
  lemma SongShape(notes: seq<string>, stored: Option<Items>, predict: Predictor, isPitch: PitchNames, start: nat)
    requires stored.Some? ==> DistinctKeys(stored.value)
    requires PatternCount(|notes|) >= 2 ==> start < PatternCount(|notes|) - 1
    requires Script(notes, stored, predict, isPitch, start).song.Ok?
    ensures MakePatterns(notes, LoadNoteToInt(notes, stored).0).Ok?
    ensures start < |MakePatterns(notes, LoadNoteToInt(notes, stored).0).value.inputs| - 1
    ensures var noteToInt := LoadNoteToInt(notes, stored).0;
      var p := MakePatterns(notes, noteToInt).value;
      var seed := p.inputs[start];
      var song := Script(notes, stored, predict, isPitch, start).song.value;
      |song.chosen| == |song.tokens| == |song.events| == Steps &&
      song.buffer == song.chosen[Steps - p.sequenceLength..] &&
      (forall i :: 0 <= i < Steps ==> ChosenAt(predict, Invert(noteToInt), seed, song.chosen, song.tokens, i)) &&
      forall i :: 0 <= i < Steps ==> EventFor(song.tokens[i], i, song.events[i])
  {
    ScriptComposes(notes, stored, predict, isPitch, start);
    ComposedSongShape(notes, LoadNoteToInt(notes, stored).0, predict, isPitch, start);
  }

  /** `SongShape` for a given dict. */
  lemma ComposedSongShape(notes: seq<string>, noteToInt: Items, predict: Predictor, isPitch: PitchNames, start: nat)
    requires forall t :: t in notes ==> t in Keys(noteToInt)
    requires PatternCount(|notes|) >= 2 ==> start < PatternCount(|notes|) - 1
    requires Compose(notes, noteToInt, predict, isPitch, start).Ok?
    ensures MakePatterns(notes, noteToInt).Ok?
    ensures start < |MakePatterns(notes, noteToInt).value.inputs| - 1
    ensures var p := MakePatterns(notes, noteToInt).value;
      var seed := p.inputs[start];
      var song := Compose(notes, noteToInt, predict, isPitch, start).value;
      |song.chosen| == |song.tokens| == |song.events| == Steps &&
      song.buffer == song.chosen[Steps - p.sequenceLength..] &&
      (forall i :: 0 <= i < Steps ==> ChosenAt(predict, Invert(noteToInt), seed, song.chosen, song.tokens, i)) &&
      forall i :: 0 <= i < Steps ==> EventFor(song.tokens[i], i, song.events[i])
  {
    ComposedSong(notes, noteToInt, predict, isPitch, start);
    var p := MakePatterns(notes, noteToInt).value;
    var seed := p.inputs[start];
    RunFromSeedProduces(predict, Invert(noteToInt), seed, Steps);
    var s := Run(predict, Invert(noteToInt), Session(seed, [], []), Steps).value;
    ReconstructedEvents(s.output, isPitch);
    var song := Compose(notes, noteToInt, predict, isPitch, start).value;
    assert song.chosen == s.chosen && song.tokens == s.output && song.buffer == s.context;
    assert song.events == Reconstruct(s.output, isPitch).value;
  }

  /** A song that comes out of `Compose` was generated from window `start`
      and converted from the generated tokens. */
  lemma ComposedSong(notes: seq<string>, noteToInt: Items, predict: Predictor, isPitch: PitchNames, start: nat)
    requires forall t :: t in notes ==> t in Keys(noteToInt)
    requires PatternCount(|notes|) >= 2 ==> start < PatternCount(|notes|) - 1
    requires Compose(notes, noteToInt, predict, isPitch, start).Ok?
    ensures MakePatterns(notes, noteToInt).Ok?
    ensures start < |MakePatterns(notes, noteToInt).value.inputs| - 1
    ensures var p := MakePatterns(notes, noteToInt).value;
      var run := Run(predict, Invert(noteToInt), Session(p.inputs[start], [], []), Steps);
      run.Ok? && Reconstruct(run.value.output, isPitch).Ok? &&
      Compose(notes, noteToInt, predict, isPitch, start).value ==
        Song(run.value.chosen, run.value.output, run.value.context, Reconstruct(run.value.output, isPitch).value)
  {
    var p := MakePatterns(notes, noteToInt).value;
    assert Seed(p, start) == Ok(p.inputs[start]);
  }
}
