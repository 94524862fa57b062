/** prepare_data.py: walk the MIDI folder, turn every note and chord of every
    parsable `.mid`/`.midi` file into a token, and collect the tokens in file
    order. A file that fails to parse is reported and skipped. */
module PrepareData {
  import opened Results
  import opened Text
  import opened Scores
  import opened NoteTokens

  /** `file.endswith(".mid") or file.endswith(".midi")`, case-sensitive. */
  predicate IsMidiName(name: string) {
    EndsWith(name, ".mid") || EndsWith(name, ".midi")
  }

  /** The parts one after the other, as the nested loop visits them. */
  function Concat(parts: seq<seq<Element>>): seq<Element>
    decreases |parts|
  {
    if |parts| == 0 then [] else Concat(parts[..|parts| - 1]) + parts[|parts| - 1]
  }

  /** The tokens of every part in turn (the `for part in parts.parts` loop). */
  function PartsNotes(parts: seq<seq<Element>>): seq<string>
    decreases |parts|
  {
    if |parts| == 0 then []
    else PartsNotes(parts[..|parts| - 1]) + StreamTokens(parts[|parts| - 1])
  }

  /** The elements a parsed score is read from: all instrument parts when
      partitioning found some, the flat note stream otherwise. */
  function ReadElements(score: Score): seq<Element> {
    if |score.parts| > 0 then Concat(score.parts) else score.flat
  }

  /** The tokens one parsed score appends. */
  function ScoreNotes(score: Score): seq<string> {
    if |score.parts| > 0 then PartsNotes(score.parts) else StreamTokens(score.flat)
  }

  /** The tokens one directory entry appends: none for a name without the
      MIDI extension, none for a file whose parse raises. */
  function FileNotes(f: MidiFile): seq<string> {
    if !IsMidiName(f.name) then []
    else
      match f.parsed
      case None => []
      case Some(score) => ScoreNotes(score)
  }

  /** The `notes` list after the loop over the directory listing. */
  function CollectNotes(files: seq<MidiFile>): seq<string>
    decreases |files|
  {
    if |files| == 0 then []
    else CollectNotes(files[..|files| - 1]) + FileNotes(files[|files| - 1])
  }

  /** Reading the parts one after another produces the same tokens as reading
      their concatenation: part boundaries leave no trace in `notes`. */
  lemma {:induction false} PartsNotesConcat(parts: seq<seq<Element>>)
    ensures PartsNotes(parts) == StreamTokens(Concat(parts))
    decreases |parts|
  {
    if |parts| > 0 {
      var n := |parts| - 1;
      PartsNotesConcat(parts[..n]);
      StreamTokensAppend(Concat(parts[..n]), parts[n]);
    }
  }

  /** Both branches apply the same element mapping: a score's tokens are the
      Note and Chord tokens of the elements it is read from, in order. */
  lemma ScoreNotesAreStreamTokens(score: Score)
    ensures ScoreNotes(score) == StreamTokens(ReadElements(score))
  {
    if |score.parts| > 0 {
      PartsNotesConcat(score.parts);
    }
  }

  /** The file contributes the token `t`: it has a MIDI name, it parses, and
      some note or chord it is read from maps to `t`. */
  predicate Contributes(f: MidiFile, t: string) {
    IsMidiName(f.name) && f.parsed.Some? && Produces(ReadElements(f.parsed.value), t)
  }

  /** Some note or chord of `es` maps to `t`. */
  predicate Produces(es: seq<Element>, t: string) {
    exists i :: 0 <= i < |es| && ElementToken(es[i]) == Some(t)
  }

  lemma FileNotesSources(f: MidiFile, t: string)
    ensures t in FileNotes(f) <==> Contributes(f, t)
  {
    if IsMidiName(f.name) && f.parsed.Some? {
      ScoreNotesAreStreamTokens(f.parsed.value);
      StreamTokensSources(ReadElements(f.parsed.value), t);
    }
  }

  /** `notes` is only appended to: the listing `a + b` gives the notes of `a`
      followed by the notes of `b`. */
  lemma {:induction false} CollectNotesAppend(a: seq<MidiFile>, b: seq<MidiFile>)
    ensures CollectNotes(a + b) == CollectNotes(a) + CollectNotes(b)
    decreases |b|
  {
    if |b| == 0 {
      assert a + b == a;
    } else {
      var n := |b| - 1;
      var front, last := b[..n], b[n];
      assert a + b == (a + front) + [last];
      assert b == front + [last];
      var xs, ys, zs := CollectNotes(a), CollectNotes(front), FileNotes(last);
      calc {
        CollectNotes(a + b);
        { CollectNotesSnoc(a + front, last); }
        CollectNotes(a + front) + zs;
        { CollectNotesAppend(a, front); }
        (xs + ys) + zs;
        { AppendAssoc(xs, ys, zs); }
        xs + (ys + zs);
        { CollectNotesSnoc(front, last); }
        xs + CollectNotes(b);
      }
    }
  }

  /** The last file's notes come last. */
  lemma CollectNotesSnoc(files: seq<MidiFile>, f: MidiFile)
    ensures CollectNotes(files + [f]) == CollectNotes(files) + FileNotes(f)
  {
    assert (files + [f])[..|files|] == files;
  }

  /** A file that is not a MIDI name, or that fails to parse, leaves `notes`
      exactly as if it were not in the listing: processing goes on with the
      next file. */
  lemma SkippedFileLeavesNoTrace(a: seq<MidiFile>, f: MidiFile, b: seq<MidiFile>)
    requires !IsMidiName(f.name) || f.parsed.None?
    ensures CollectNotes(a + [f] + b) == CollectNotes(a + b)
  {
    CollectNotesAppend(a + [f], b);
    CollectNotesSnoc(a, f);
    CollectNotesAppend(a, b);
    assert FileNotes(f) == [];
    assert CollectNotes(a + [f]) == CollectNotes(a);
  }

  /** A token is in `notes` exactly when some listed file contributes it. */
  lemma {:induction false} CollectNotesSources(files: seq<MidiFile>, t: string)
    ensures t in CollectNotes(files) <==> SomeFileContributes(files, t)
    decreases |files|
  {
    if |files| > 0 {
      var n := |files| - 1;
      CollectNotesSources(files[..n], t);
      FileNotesSources(files[n], t);
      SomeFileContributesLast(files, t);
      assert CollectNotes(files) == CollectNotes(files[..n]) + FileNotes(files[n]);
    }
  }

  /** Some listed file contributes `t`. */
  predicate SomeFileContributes(files: seq<MidiFile>, t: string) {
    exists f :: f in files && Contributes(f, t)
  }

  lemma SomeFileContributesLast(files: seq<MidiFile>, t: string)
    requires |files| > 0
    ensures var n := |files| - 1;
      SomeFileContributes(files, t) <==> SomeFileContributes(files[..n], t) || Contributes(files[n], t)
  {
    var n := |files| - 1;
    assert files == files[..n] + [files[n]];
    if SomeFileContributes(files[..n], t) {
      var f :| f in files[..n] && Contributes(f, t);
      assert f in files;
    }
    if SomeFileContributes(files, t) {
      var f :| f in files && Contributes(f, t);
      if f != files[n] {
        assert f in files[..n];
      }
    }
  }
}
