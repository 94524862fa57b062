/** train_model.py up to the network: read the tokens of every `.mid` file
    (first instrument part only), choose the window length, number the
    distinct tokens in sorted order, cut the token stream into windows and
    one-hot encode the targets. */
module TrainModel {
  import opened Results
  import opened Text
  import opened Scores
  import opened NoteTokens
  import opened Vocabulary
  import opened Windows
  import PrepareData

  /** The glob pattern `*.mid` in `midi_songs`: exact `.mid` suffix; `*` does not match a
      leading dot. */
  predicate GlobMatches(name: string) {
    EndsWith(name, ".mid") && !StartsWith(name, ".")
  }

  /** The matching entries of the listing, in listing order. */
  function Matching(files: seq<MidiFile>): (r: seq<MidiFile>)
    ensures forall f :: f in r <==> f in files && GlobMatches(f.name)
    decreases |files|
  {
    if |files| == 0 then []
    else
      var n := |files| - 1;
      var front := Matching(files[..n]);
      assert files == files[..n] + [files[n]];
      if GlobMatches(files[n].name) then front + [files[n]] else front
  }

  /** When partitioning found parts only `parts.parts[0]` is read; otherwise
      the flat note stream. */
  function ScoreNotes(score: Score): seq<string> {
    if |score.parts| > 0 then StreamTokens(score.parts[0]) else StreamTokens(score.flat)
  }

  /** The loop over the matched files. `converter.parse` is not guarded, so
      the first file that fails to parse ends the script. */
  function ParseAll(files: seq<MidiFile>): (r: Result<seq<string>>)
    ensures r.Ok? <==> forall i :: 0 <= i < |files| ==> files[i].parsed.Some?
    ensures r.Err? ==> r.failure == ParseError
    decreases |files|
  {
    if |files| == 0 then Ok([])
    else
      var n := |files| - 1;
      var front :- ParseAll(files[..n]);
      match files[n].parsed
      case None => Err(ParseError)
      case Some(score) => Ok(front + ScoreNotes(score))
  }

  /** Step 1: the tokens of all matched files, or the exception raised. */
  function LoadNotes(files: seq<MidiFile>): (r: Result<seq<string>>)
    ensures r == Err(NoMidiFiles) <==> forall f :: f in files ==> !GlobMatches(f.name)
    ensures r.Ok? <==>
      (exists f :: f in files && GlobMatches(f.name)) &&
      (forall f :: f in files && GlobMatches(f.name) ==> f.parsed.Some?)
  {
    var midi := Matching(files);
    if |midi| == 0 then
      Err(NoMidiFiles)
    else
      assert midi[0] in midi;
      ParseAll(midi)
  }

  /** The glob keeps listing order: the matches of `a + b` are those of `a`
      followed by those of `b`. */
  lemma {:induction false} MatchingAppend(a: seq<MidiFile>, b: seq<MidiFile>)
    ensures Matching(a + b) == Matching(a) + Matching(b)
    decreases |b|
  {
    if |b| == 0 {
      assert a + b == a;
    } else {
      var n := |b| - 1;
      var front, last := b[..n], b[n];
      assert (a + b)[..|a + b| - 1] == a + front;
      assert (a + b)[|a + b| - 1] == last;
      MatchingAppend(a, front);
      var xs, ys := Matching(a), Matching(front);
      if GlobMatches(last.name) {
        calc {
          Matching(a + b);
          Matching(a + front) + [last];
          (xs + ys) + [last];
          { AppendAssoc(xs, ys, [last]); }
          xs + (ys + [last]);
          xs + Matching(b);
        }
      }
    }
  }

  /** One more file: its tokens follow those already read, and a file that
      does not parse makes the whole loop fail. */
  lemma ParseAllSnoc(files: seq<MidiFile>, f: MidiFile)
    ensures ParseAll(files + [f]) ==
      if ParseAll(files).Ok? && f.parsed.Some? then Ok(ParseAll(files).value + ScoreNotes(f.parsed.value))
      else Err(ParseError)
  {
    assert (files + [f])[..|files|] == files;
    assert (files + [f])[|files|] == f;
  }

  /** The loop only appends to `notes`: the files `a + b` parse exactly when
      both halves do, and then give the tokens of `a` followed by those of
      `b`. */
  lemma {:induction false} ParseAllAppend(a: seq<MidiFile>, b: seq<MidiFile>)
    ensures ParseAll(a + b).Ok? <==> ParseAll(a).Ok? && ParseAll(b).Ok?
    ensures ParseAll(a + b).Ok? ==> ParseAll(a + b).value == ParseAll(a).value + ParseAll(b).value
    decreases |b|
  {
    if |b| == 0 {
      assert a + b == a;
    } else {
      var n := |b| - 1;
      var front, last := b[..n], b[n];
      assert a + b == (a + front) + [last];
      assert b == front + [last];
      ParseAllAppend(a, front);
      ParseAllSnoc(a + front, last);
      ParseAllSnoc(front, last);
      if ParseAll(a + b).Ok? {
        var xs, ys, zs := ParseAll(a).value, ParseAll(front).value, ScoreNotes(last.parsed.value);
        assert ParseAll(a + front) == Ok(xs + ys);
        assert ParseAll(a + b) == Ok((xs + ys) + zs);
        assert ParseAll(b) == Ok(ys + zs);
        AppendAssoc(xs, ys, zs);
      }
    }
  }

  /** The score of `f` parses and reads to a token stream containing `t`. */
  predicate Yields(f: MidiFile, t: string) {
    f.parsed.Some? && t in ScoreNotes(f.parsed.value)
  }

  /** Some file of `files` yields `t`. */
  predicate SomeYields(files: seq<MidiFile>, t: string) {
    exists f :: f in files && Yields(f, t)
  }

  /** Every token read comes from one of the files, and every token of every
      file is read. */
  lemma {:induction false} ParseAllSources(files: seq<MidiFile>, t: string)
    requires ParseAll(files).Ok?
    ensures t in ParseAll(files).value <==> SomeYields(files, t)
    decreases |files|
  {
    if |files| > 0 {
      var n := |files| - 1;
      var front, last := files[..n], files[n];
      assert files == front + [last];
      ParseAllSnoc(front, last);
      ParseAllSources(front, t);
      if t in ParseAll(files).value {
        if t in ParseAll(front).value {
          var f :| f in front && Yields(f, t);
          assert f in files;
        } else {
          assert Yields(last, t);
        }
      }
      if SomeYields(files, t) {
        var f :| f in files && Yields(f, t);
        if f != last {
          assert f in front;
        }
      }
    }
  }

  /** Step 1 reads exactly the tokens of the matching files' scores. */
  lemma LoadNotesSources(files: seq<MidiFile>, t: string)
    requires LoadNotes(files).Ok?
    ensures t in LoadNotes(files).value <==> exists f :: f in files && GlobMatches(f.name) && Yields(f, t)
  {
    var midi := Matching(files);
    assert LoadNotes(files) == ParseAll(midi);
    ParseAllSources(midi, t);
    if exists f :: f in files && GlobMatches(f.name) && Yields(f, t) {
      var f :| f in files && GlobMatches(f.name) && Yields(f, t);
      assert f in midi;
    }
  }

  /** `min(20, len(notes) - 1)`; -1 for an empty stream. */
  function SequenceLength(n: nat): (L: int)
    ensures n == 0 <==> L == -1
    ensures n > 0 ==> 0 <= L < n && L <= 20
    ensures L == 20 || L == n - 1
  {
    if n - 1 < 20 then n - 1 else 20
  }

  /** What step 2 hands to the network: `note_to_int`, the encoded windows
      and targets, and `n_vocab`. */
  datatype TrainingData = TrainingData(noteToInt: Items, inputs: seq<seq<int>>, outputs: seq<int>, vocabSize: nat)

  /** Step 2. With no notes the window length is -1, the loop runs once, and
      `notes[-1]` raises IndexError: there is no empty-corpus guard. */
  function PrepareSequences(notes: seq<string>): (r: Result<TrainingData>)
    ensures r.Err? <==> |notes| == 0
    ensures r.Err? ==> r.failure == IndexError
  {
    if |notes| == 0 then
      Err(IndexError)
    else
      var L: nat := SequenceLength(|notes|);
      var d := Build(notes);
      var ws := Slide(Encode(d, notes), L);
      Ok(TrainingData(d, Contexts(ws), Targets(ws), |set t | t in notes|))
  }

  /** The whole of steps 1 and 2. */
  function Prepare(files: seq<MidiFile>): (r: Result<TrainingData>)
    ensures r.Err? ==> r.failure == NoMidiFiles || r.failure == ParseError || r.failure == IndexError
    ensures r.Ok? ==> |r.value.inputs| == |r.value.outputs| > 0
  {
    var notes :- LoadNotes(files);
    PrepareSequences(notes)
  }

  /** One row of `to_categorical`: a 1 in column `k`, 0 elsewhere. */
  function OneHot(k: nat, classes: nat): (row: seq<int>)
    requires k < classes
    ensures |row| == classes && row[k] == 1
    ensures forall j :: 0 <= j < classes && j != k ==> row[j] == 0
  {
    seq(classes, j requires 0 <= j < classes => if j == k then 1 else 0)
  }

  /** The column numpy's fancy indexing sets for label `k`: negative labels
      count from the end. */
  function Column(k: int, classes: nat): (c: int)
    ensures -(classes as int) <= k < classes ==> 0 <= c < classes
    ensures 0 <= k ==> c == k
  {
    if k < 0 then k + classes else k
  }

  /** `to_categorical(labels, num_classes=classes)`: IndexError for a label
      outside the class range. */
  function ToCategorical(labels: seq<int>, classes: nat): (r: Result<seq<seq<int>>>)
    ensures r.Ok? <==> forall i :: 0 <= i < |labels| ==> -(classes as int) <= labels[i] < classes
    ensures r.Ok? ==> |r.value| == |labels|
    ensures r.Ok? ==> forall i :: 0 <= i < |labels| ==>
      0 <= Column(labels[i], classes) < classes && r.value[i] == OneHot(Column(labels[i], classes), classes)
    decreases |labels|
  {
    if |labels| == 0 then Ok([])
    else
      var n := |labels| - 1;
      var front :- ToCategorical(labels[..n], classes);
      if -(classes as int) <= labels[n] < classes then
        Ok(front + [OneHot(Column(labels[n], classes), classes)])
      else
        Err(IndexError)
  }

  /** For n >= 1 notes there are max(n - 20, 1) windows, each of exactly
      `sequence_length` inputs; one note gives one window with no input. */
  lemma WindowCount(notes: seq<string>)
    requires |notes| >= 1
    ensures var data := PrepareSequences(notes).value;
      var L := SequenceLength(|notes|);
      0 <= L < |notes| &&
      |data.inputs| == |data.outputs| == (if |notes| > 20 then |notes| - 20 else 1) &&
      forall i :: 0 <= i < |data.inputs| ==> |data.inputs[i]| == L
  {
  }

  /** Window i is `[note_to_int[n] for n in notes[i:i+L]]` with target
      `note_to_int[notes[i+L]]`. */
  lemma WindowsEncodeNotes(notes: seq<string>, i: nat, j: nat)
    requires |notes| >= 1
    requires i < |PrepareSequences(notes).value.inputs|
    ensures var data := PrepareSequences(notes).value;
      var L := SequenceLength(|notes|);
      0 <= L && i + L < |notes| &&
      Get(data.noteToInt, notes[i + L]) == Some(data.outputs[i]) &&
      (j < L ==> Get(data.noteToInt, notes[i + j]) == Some(data.inputs[i][j]))
  {
  }

  /** `n_vocab = len(set(notes))` is the size of `note_to_int`, which numbers
      the distinct notes 0..n_vocab-1. */
  lemma VocabSizeIsMapSize(notes: seq<string>)
    requires |notes| >= 1
    ensures var data := PrepareSequences(notes).value;
      data.vocabSize == |data.noteToInt| && Dense(data.noteToInt)
  {
    var d := Build(notes);
    KeysCardinality(d);
    assert Keys(d) == set t | t in notes;
  }

  /** Every target index is below `n_vocab`. */
  lemma TargetsInRange(notes: seq<string>)
    requires |notes| >= 1
    ensures var data := PrepareSequences(notes).value;
      forall i :: 0 <= i < |data.outputs| ==> 0 <= data.outputs[i] < data.vocabSize
  {
    var data := PrepareSequences(notes).value;
    var d := Build(notes);
    var L: nat := SequenceLength(|notes|);
    EncodeDecode(notes, notes);
    VocabSizeIsMapSize(notes);
    var e := Encode(d, notes);
    var ws := Slide(e, L);
    assert data.outputs == Targets(ws);
    forall i | 0 <= i < |data.outputs|
      ensures 0 <= data.outputs[i] < data.vocabSize
    {
      assert ws[i] == Window(e[i..i + L], e[i + L]);
      assert data.outputs[i] == ws[i].target;
    }
  }

  /** So `to_categorical` succeeds, and row i has its single 1 in the column
      of window i's target. */
  lemma TargetsOneHot(notes: seq<string>)
    requires |notes| >= 1
    ensures var data := PrepareSequences(notes).value;
      var y := ToCategorical(data.outputs, data.vocabSize);
      y.Ok? && forall i :: 0 <= i < |data.outputs| ==>
        0 <= data.outputs[i] < data.vocabSize && y.value[i] == OneHot(data.outputs[i], data.vocabSize)
  {
    var data := PrepareSequences(notes).value;
    TargetsInRange(notes);
    var y := ToCategorical(data.outputs, data.vocabSize);
    assert y.Ok?;
    forall i | 0 <= i < |data.outputs|
      ensures y.value[i] == OneHot(data.outputs[i], data.vocabSize)
    {
      assert Column(data.outputs[i], data.vocabSize) == data.outputs[i];
    }
  }

  /** A score with at most one part gives the same tokens here as in
      prepare_data.py, which reads every part. */
  lemma SinglePartAgrees(score: Score)
    requires |score.parts| <= 1
    ensures ScoreNotes(score) == PrepareData.ScoreNotes(score)
  {
    if |score.parts| == 1 {
      assert PrepareData.PartsNotes(score.parts[..0]) == [];
    }
  }
}
