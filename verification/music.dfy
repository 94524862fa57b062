/** music.py: a second tokenizer that writes every note, rest and chord as an
    identity token followed by a duration token, builds a vocabulary from the
    files that yield more than ten tokens, and cuts each file's index
    sequence into windows of 64. */
module Music {
  import opened Results
  import opened Text
  import opened Scores
  import opened Ordering
  import opened Vocabulary
  import opened Windows

  /** `SEQ_LEN`. */
  const SeqLen: nat := 64

  /** The elements `midi_to_tokens` writes: notes, rests and chords. */
  predicate IsEvent(e: Element) {
    e.Note? || e.Rest? || e.Chord?
  }

  /** The identity token of an event; a chord lists its pitches in the order
      music21 gives them, joined by `_`. */
  function Identity(e: Element): (r: string)
    requires IsEvent(e)
    ensures r == "REST" <==> e.Rest?
    ensures |r| > 0 && r[0] != 'D'
    ensures !StartsWith(r, "DUR_")
  {
    match e
    case Note(_, nameWithOctave, _) => "NOTE_" + nameWithOctave
    case Rest(_) => "REST"
    case Chord(_, pitchNames, _) => "CHORD_" + Join('_', pitchNames)
  }

  /** The tokens one element appends. */
  function EventTokens(e: Element): seq<string> {
    if IsEvent(e) then [Identity(e), "DUR_" + e.quarterLength] else []
  }

  /** The tokens of a stream of elements, in stream order. */
  function Tokens(es: seq<Element>): (r: seq<string>)
    ensures |r| % 2 == 0
    ensures |r| <= 2 * |es|
    decreases |es|
  {
    if |es| == 0 then [] else Tokens(es[..|es| - 1]) + EventTokens(es[|es| - 1])
  }

  /** `midi_to_tokens` on a parsed file: `parsed.flat.notesAndRests`. */
  function MidiToTokens(score: Score): (r: seq<string>)
    ensures |r| % 2 == 0 && |r| <= 2 * |score.flat|
  {
    Tokens(score.flat)
  }

  /** The notes, rests and chords of a stream, in order. */
  function Events(es: seq<Element>): (r: seq<Element>)
    ensures |r| <= |es|
    ensures forall k :: 0 <= k < |r| ==> IsEvent(r[k])
    ensures forall e :: e in r <==> e in es && IsEvent(e)
    decreases |es|
  {
    if |es| == 0 then []
    else
      var n := |es| - 1;
      assert es == es[..n] + [es[n]];
      if IsEvent(es[n]) then Events(es[..n]) + [es[n]] else Events(es[..n])
  }

  /** One more element: an event is appended to the events, anything else
      leaves them as they were. */
  lemma EventsSnoc(es: seq<Element>, e: Element)
    ensures Events(es + [e]) == if IsEvent(e) then Events(es) + [e] else Events(es)
  {
    assert (es + [e])[..|es|] == es;
  }

  /** One more element appends its own tokens. */
  lemma TokensSnoc(es: seq<Element>, e: Element)
    ensures Tokens(es + [e]) == Tokens(es) + EventTokens(e)
  {
    assert (es + [e])[..|es|] == es;
  }

  /** The events of two streams one after the other are the events of the
      first followed by those of the second: stream order is kept. */
  lemma {:induction false} EventsAppend(a: seq<Element>, b: seq<Element>)
    ensures Events(a + b) == Events(a) + Events(b)
    decreases |b|
  {
    if |b| == 0 {
      assert a + b == a;
    } else {
      var n := |b| - 1;
      var front, last := b[..n], b[n];
      assert b == front + [last];
      assert a + b == (a + front) + [last];
      EventsAppend(a, front);
      EventsSnoc(a + front, last);
      EventsSnoc(front, last);
      if IsEvent(last) {
        AppendAssoc(Events(a), Events(front), [last]);
      }
    }
  }

  /** Likewise for tokens: the tokens of `a + b` are those of `a` followed
      by those of `b`. */
  lemma {:induction false} TokensAppend(a: seq<Element>, b: seq<Element>)
    ensures Tokens(a + b) == Tokens(a) + Tokens(b)
    decreases |b|
  {
    if |b| == 0 {
      assert a + b == a;
    } else {
      var n := |b| - 1;
      var front, last := b[..n], b[n];
      assert b == front + [last];
      assert a + b == (a + front) + [last];
      TokensAppend(a, front);
      TokensSnoc(a + front, last);
      TokensSnoc(front, last);
      AppendAssoc(Tokens(a), Tokens(front), EventTokens(last));
    }
  }

  /** Each note, rest and chord of the stream, wherever it stands, writes its
      identity token and then its duration token between the tokens of the
      elements before it and those of the elements after it; any other
      element writes nothing. */
  lemma EachElementInPlace(before: seq<Element>, e: Element, after: seq<Element>)
    ensures Tokens(before + [e] + after) == Tokens(before) + EventTokens(e) + Tokens(after)
  {
    TokensAppend(before + [e], after);
    TokensSnoc(before, e);
  }

  /** Every event gives exactly two tokens, its identity and then its
      duration; everything else gives none. */
  lemma {:induction false} TokensPairUp(es: seq<Element>)
    ensures var toks, evs := Tokens(es), Events(es);
      |toks| == 2 * |evs| &&
      forall k :: 0 <= k < |evs| ==>
        toks[2 * k] == Identity(evs[k]) && toks[2 * k + 1] == "DUR_" + evs[k].quarterLength
    decreases |es|
  {
    if |es| > 0 {
      var n := |es| - 1;
      TokensPairUp(es[..n]);
      var front, evs := Tokens(es[..n]), Events(es);
      var frontEvs := Events(es[..n]);
      assert Tokens(es) == front + EventTokens(es[n]);
      if IsEvent(es[n]) {
        assert evs == frontEvs + [es[n]];
        forall k | 0 <= k < |evs|
          ensures Tokens(es)[2 * k] == Identity(evs[k]) && Tokens(es)[2 * k + 1] == "DUR_" + evs[k].quarterLength
        {
          if k < |frontEvs| {
            assert evs[k] == frontEvs[k];
          }
        }
      }
    }
  }

  /** So a token list has even length, and a token starts with `DUR_`
      exactly at the odd positions. */
  lemma DurationsAtOddPositions(score: Score)
    ensures var toks := MidiToTokens(score);
      |toks| % 2 == 0 &&
      forall i :: 0 <= i < |toks| ==> (StartsWith(toks[i], "DUR_") <==> i % 2 == 1)
  {
    var toks, evs := MidiToTokens(score), Events(score.flat);
    TokensPairUp(score.flat);
    PairedDurations(toks, evs);
  }

  lemma PairedDurations(toks: seq<string>, evs: seq<Element>)
    requires |toks| == 2 * |evs|
    requires forall k :: 0 <= k < |evs| ==> IsEvent(evs[k])
    requires forall k :: 0 <= k < |evs| ==>
      toks[2 * k] == Identity(evs[k]) && toks[2 * k + 1] == "DUR_" + evs[k].quarterLength
    ensures forall i :: 0 <= i < |toks| ==> (StartsWith(toks[i], "DUR_") <==> i % 2 == 1)
  {
    forall i | 0 <= i < |toks|
      ensures StartsWith(toks[i], "DUR_") <==> i % 2 == 1
    {
      var k := i / 2;
      if i % 2 == 0 {
        assert i == 2 * k;
        assert toks[i] == Identity(evs[k]);
        assert toks[i][0] != 'D';
      } else {
        assert i == 2 * k + 1;
        assert toks[i] == "DUR_" + evs[k].quarterLength;
      }
    }
  }

  /** Chord pitches keep their given order: the same pitches listed in
      another order give another token. */
  lemma ChordOrderKept()
    ensures Identity(Chord([0, 4], ["C4", "E4"], "1.0")) == "CHORD_C4_E4"
    ensures Identity(Chord([0, 4], ["E4", "C4"], "1.0")) == "CHORD_E4_C4"
  {
  }

  /** `f.lower().endswith(('.mid', '.midi'))`. */
  predicate IsMidiName(name: string) {
    EndsWith(Lower(name), ".mid") || EndsWith(Lower(name), ".midi")
  }

  /** The test ignores case: `Song.MID` is a MIDI name here, though it does
      not end with `.mid` as written. */
  lemma UpperCaseMidiName()
    ensures IsMidiName("Song.MID") && !EndsWith("Song.MID", ".mid")
  {
    assert Lower("Song.MID")[4..] == ".mid";
  }

  /** The `files` list: the MIDI entries of the listing, in listing order. */
  function MidiFiles(entries: seq<MidiFile>): (r: seq<MidiFile>)
    ensures forall f :: f in r <==> f in entries && IsMidiName(f.name)
    decreases |entries|
  {
    if |entries| == 0 then []
    else
      var n := |entries| - 1;
      assert entries == entries[..n] + [entries[n]];
      if IsMidiName(entries[n].name) then MidiFiles(entries[..n]) + [entries[n]] else MidiFiles(entries[..n])
  }

  /** A file's tokens reach the pool: it parses and gives more than ten. */
  predicate Pooled(f: MidiFile) {
    f.parsed.Some? && |MidiToTokens(f.parsed.value)| > 10
  }

  /** The first pass: `all_tokens` after extending it with every pooled
      file's tokens; a file that raises is reported and skipped. */
  function Pool(files: seq<MidiFile>): seq<string>
    decreases |files|
  {
    if |files| == 0 then []
    else
      var n := |files| - 1;
      if Pooled(files[n]) then Pool(files[..n]) + MidiToTokens(files[n].parsed.value)
      else Pool(files[..n])
  }

  /** Some listed file that reaches the pool yields `t`. */
  predicate InSomePooledFile(files: seq<MidiFile>, t: string) {
    exists f :: f in files && Pooled(f) && t in MidiToTokens(f.parsed.value)
  }

  lemma InSomePooledFileLast(files: seq<MidiFile>, t: string)
    requires |files| > 0
    ensures var n := |files| - 1;
      InSomePooledFile(files, t) <==>
      InSomePooledFile(files[..n], t) || (Pooled(files[n]) && t in MidiToTokens(files[n].parsed.value))
  {
    var n := |files| - 1;
    assert files == files[..n] + [files[n]];
    if InSomePooledFile(files[..n], t) {
      var f :| f in files[..n] && Pooled(f) && t in MidiToTokens(f.parsed.value);
      assert f in files;
    }
    if InSomePooledFile(files, t) {
      var f :| f in files && Pooled(f) && t in MidiToTokens(f.parsed.value);
      if f != files[n] {
        assert f in files[..n];
      }
    }
  }

  /** A token is in the pool exactly when a file that parses and gives more
      than ten tokens contains it. */
  lemma {:induction false} PoolSources(files: seq<MidiFile>, t: string)
    ensures t in Pool(files) <==> InSomePooledFile(files, t)
    decreases |files|
  {
    if |files| > 0 {
      PoolSources(files[..|files| - 1], t);
      InSomePooledFileLast(files, t);
    }
  }

  /** The second pass over one file: `[token2idx[t] for t in toks if t in
      token2idx]`, or nothing when the parse raises. */
  function FileIndices(vocab: Items, f: MidiFile): seq<int> {
    match f.parsed
    case None => []
    case Some(score) => EncodeKnown(vocab, MidiToTokens(score))
  }

  /** The index sequence of every file, in order. */
  function Indices(vocab: Items, files: seq<MidiFile>): (groups: seq<seq<int>>)
    ensures |groups| == |files|
    ensures forall i :: 0 <= i < |files| ==> groups[i] == FileIndices(vocab, files[i])
  {
    seq(|files|, i requires 0 <= i < |files| => FileIndices(vocab, files[i]))
  }

  /** What the script saves: the two vocabulary tables and the arrays X, Y. */
  datatype Dataset = Dataset(token2idx: Items, idx2token: map<int, string>, x: seq<seq<int>>, y: seq<int>)

  /** The whole script, from the directory listing to X and Y. */
  function Preprocess(entries: seq<MidiFile>): Dataset {
    var files := MidiFiles(entries);
    var token2idx := Build(Pool(files));
    var windows := SlideEach(Indices(token2idx, files), SeqLen);
    Dataset(token2idx, Invert(token2idx), Contexts(windows), Targets(windows))
  }

  /** `token2idx` numbers the distinct pooled tokens 0..V-1 in sorted order,
      and `idx2token` is its exact inverse over that range. */
  lemma VocabularyTables(entries: seq<MidiFile>)
    ensures var ds := Preprocess(entries);
      var pool := Pool(MidiFiles(entries));
      ds.token2idx == Enumerate(SortedSet(pool)) &&
      ds.idx2token == IndexTable(SortedSet(pool)) &&
      (forall v :: v in ds.idx2token <==> 0 <= v < |ds.token2idx|) &&
      forall t :: t in pool ==> Get(ds.token2idx, t).Some? && ds.idx2token[Get(ds.token2idx, t).value] == t
  {
    var ds := Preprocess(entries);
    var pool := Pool(MidiFiles(entries));
    InvertEnumerate(SortedSet(pool));
    InvertDense(ds.token2idx);
  }

  /** X and Y have one row per window; every row of X holds 64 indices; no
      window spans two files; and every index is below the vocabulary size. */
  lemma DatasetShape(entries: seq<MidiFile>)
    ensures var ds := Preprocess(entries);
      var groups := Indices(ds.token2idx, MidiFiles(entries));
      |ds.x| == |ds.y| == TotalWindows(groups, SeqLen) &&
      WithinGroups(groups, SeqLen, SlideEach(groups, SeqLen)) &&
      forall i :: 0 <= i < |ds.x| ==> |ds.x[i]| == SeqLen && InRange(ds.x[i], |ds.token2idx|) && 0 <= ds.y[i] < |ds.token2idx|
  {
    var ds := Preprocess(entries);
    var groups := Indices(ds.token2idx, MidiFiles(entries));
    SlideEachWithinGroups(groups, SeqLen);
    GroupsInRange(ds.token2idx, MidiFiles(entries));
    WindowsInRange(groups, SeqLen, |ds.token2idx|);
  }

  /** Every index of the second pass is a vocabulary index. */
  lemma GroupsInRange(vocab: Items, files: seq<MidiFile>)
    requires Dense(vocab)
    ensures var groups := Indices(vocab, files);
      forall g :: 0 <= g < |groups| ==> InRange(groups[g], |vocab|)
  {
    DenseValues(vocab);
  }

  /** Windows taken inside groups of indices below V hold indices below V. */
  lemma WindowsInRange(groups: seq<seq<int>>, L: nat, V: nat)
    requires forall g :: 0 <= g < |groups| ==> InRange(groups[g], V)
    requires WithinGroups(groups, L, SlideEach(groups, L))
    ensures var ws := SlideEach(groups, L);
      forall i :: 0 <= i < |ws| ==> |ws[i].context| == L && InRange(ws[i].context, V) && 0 <= ws[i].target < V
  {
    var ws := SlideEach(groups, L);
    forall i | 0 <= i < |ws|
      ensures |ws[i].context| == L && InRange(ws[i].context, V) && 0 <= ws[i].target < V
    {
      assert InSomeGroup(groups, L, ws[i]);
      var g, k :| WindowOf(groups, L, ws[i], g, k);
      assert InRange(groups[g], V);
    }
  }

  /** All the indices lie in 0..V-1. */
  predicate InRange(xs: seq<int>, V: nat) {
    forall j :: 0 <= j < |xs| ==> 0 <= xs[j] < V
  }

  lemma DenseValues(d: Items)
    requires Dense(d)
    ensures forall v :: v in Values(d) ==> 0 <= v < |d|
  {
  }

  /** A pooled file loses no token in the second pass: each of its tokens
      is in the vocabulary, so its index sequence encodes all of them. */
  lemma PooledFileKeepsAll(entries: seq<MidiFile>, f: MidiFile)
    requires f in MidiFiles(entries) && Pooled(f)
    ensures var vocab := Preprocess(entries).token2idx;
      var toks := MidiToTokens(f.parsed.value);
      (forall i :: 0 <= i < |toks| ==> toks[i] in Keys(vocab)) &&
      FileIndices(vocab, f) == Encode(vocab, toks)
  {
    var files := MidiFiles(entries);
    var vocab := Preprocess(entries).token2idx;
    var toks := MidiToTokens(f.parsed.value);
    forall i | 0 <= i < |toks|
      ensures toks[i] in Keys(vocab)
    {
      assert toks[i] in MidiToTokens(f.parsed.value);
      PoolSources(files, toks[i]);
    }
    EncodeKnownAllKnown(vocab, toks);
  }

  /** What the more-than-ten-tokens filter changes: a listed file of at most
      ten tokens is not pooled, so each of its tokens is in the vocabulary
      exactly when some other, pooled file also yields it; and it yields no
      window of 64 in the second pass. */
  lemma ShortFileNoWindows(entries: seq<MidiFile>, f: MidiFile)
    requires f in MidiFiles(entries)
    requires f.parsed.Some? ==> |MidiToTokens(f.parsed.value)| <= 10
    ensures !Pooled(f)
    ensures f.parsed.Some? ==> forall t :: t in MidiToTokens(f.parsed.value) ==>
      (t in Keys(Preprocess(entries).token2idx) <==>
       exists g :: g in MidiFiles(entries) && g != f && Pooled(g) && t in MidiToTokens(g.parsed.value))
    ensures |Slide(FileIndices(Preprocess(entries).token2idx, f), SeqLen)| == 0
  {
    var files := MidiFiles(entries);
    if f.parsed.Some? {
      forall t | t in MidiToTokens(f.parsed.value)
        ensures t in Keys(Preprocess(entries).token2idx) <==>
          exists g :: g in files && g != f && Pooled(g) && t in MidiToTokens(g.parsed.value)
      {
        PoolSources(files, t);
      }
    }
  }
}
