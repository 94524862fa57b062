# Symbolic-music token pipeline, modelled in Dafny

This project models the token pipeline of a small LSTM music generator. It
consists of five Python scripts:

- `prepare_data.py` turns MIDI files into a list of note tokens.
- `train_model.py` turns the same kind of token list into training windows.
- `music.py` is a second tokenizer, with `NOTE_`/`CHORD_`/`REST` and `DUR_`
  tokens.
- `generate_music.py` and `generate.py` number the tokens and seed a network
  with a window. They repeatedly take the argmax of the network's scores and
  turn the generated tokens back into timed notes and chords.

The model is pure. Every script is a function from its inputs to its outputs,
and every exception that ends a script is a `Failure` value in a `Result`.
The following are parameters:

- the parsed MIDI files;
- the content of a stored dict;
- the network, an uninterpreted function from a context of indices to a
  score vector;
- which strings music21's `note.Note(name)` accepts as pitch names
  (`isPitch`), since the generators hand it every token that is not
  chord-shaped;
- the number `np.random.randint` drew.

Since every script is a function of these parameters, a run is determined by
them. In particular `generate.py` samples nothing beyond the start offset, so
its output is fixed once the offset and the network are.

Modules:

| module | file | what it holds |
|---|---|---|
| `Results` | results.dfy | `Option`, `Result`, and the exceptions the scripts can raise |
| `Ordering` | ordering.dfy | Python's string order, and `sorted(set(xs))` |
| `Text` | text.dfy | `str(n)`, `int(s)`, `join`, `split`, `isdigit`, `endswith`, `lower` |
| `Scores` | scores.dfy | music21 elements, parsed scores and directory entries as plain values |
| `NoteTokens` | note_tokens.dfy | note → `str(pitch)`, chord → `'.'.join(normalOrder)` |
| `Vocabulary` | vocabulary.dfy | dicts as insertion-ordered item lists; fresh numbering, append-only extension, inversion, encoding |
| `Windows` | windows.dfy | `(xs[i:i+L], xs[i+L])` training pairs, over one sequence or per file |
| `Generation` | generation.dfy | argmax, the rolling buffer, and the generation loop |
| `Reconstruction` | reconstruction.dfy | generated token → timed note or chord event |
| `PrepareData`, `TrainModel`, `Music`, `GenerateMusic`, `Generate` | one file per script | the scripts themselves |

Choices that follow from the code:

- **Dicts are item lists.** A Python dict is a list of `(key, value)` items in
  insertion order, so that `d[n] = len(d)` and `{v: k for k, v in d.items()}`
  (the last item wins) are modelled exactly.
- **Offsets are half-beats.** An offset `0.5 * i` is kept as the integer `i`.
- **The network reads plain indices.** `generate.py` divides its whole
  index buffer by the vocabulary size before each prediction, and a function
  of the indices absorbs that. `generate_music.py` scales unevenly: the seed
  window is divided by `n_vocab` once when the windows are built (line 68)
  and again before each prediction (line 81), while each appended index is
  divided only once (lines 81 and 88). That mixed scaling is not modelled.
  `GenerateMusic.SongShape` and `Generation.ChosenAt` describe a network fed
  the unscaled index buffer.

## Behaviour worth knowing

- **Chord tokens in `music.py` keep music21's pitch order.** The pitches of a
  chord are joined in the order music21 lists them, with no sorting and no
  deduplication. `Music.ChordOrderKept` shows two orders giving two tokens.
- **One bad token aborts reconstruction.** Both generators call `int(n)` on
  every piece of a chord-shaped token and `note.Note(token)` on every other
  token, with no `try`. So one piece that is not a numeral ends the run with
  `InvalidLiteral`, and one name music21 cannot read ends it with
  `InvalidPitchName`. No token is skipped.
- **`train_model.py` does not skip bad files.** It calls `converter.parse`
  with no `try`, so one file that fails to parse ends the run
  (`ParseError`). `prepare_data.py` and `music.py`, in contrast, report the
  file and go on.
- **`train_model.py` has no empty-corpus check.** With no notes it fails with
  an `IndexError` (`notes[-1]`).
- **An unknown predicted index is a `KeyError`.** Nothing checks that the
  network's output size matches the vocabulary. An index the network predicts
  that `int_to_note` lacks raises a `KeyError`.
- **Six notes crash `generate_music.py`.** With exactly six notes,
  `generate_music.py` builds one window, passes its own size check, and then
  fails in `np.random.randint(0, 0)`. The upper bound is exclusive, so the
  last window is never drawn in any case (`GenerateMusic.PatternCounts`,
  `GenerateMusic.EarlyFailures`).

## Model

| member | source | states |
|---|---|---|
| `Ordering.SortedSet` | generate_music.py:27 | `sorted(set(xs))` is strictly ascending in Python's string order and holds exactly the elements of `xs` |
| `Ordering.SortedUnique` | generate_music.py:27 | two strictly ascending lists with the same elements are equal, so the sorted distinct list is unique |
| `Ordering.Below` | generate_music.py:27 | (definition, no contract) Python's `<` on strings, the order `sorted` uses: code points left to right, a proper prefix first; `BelowIrreflexive`, `BelowAsymmetric`, `BelowTransitive` and `BelowTotal` show it is a strict total order |
| `Ordering.BelowIrreflexive` | generate_music.py:27 | no string sorts before itself |
| `Ordering.BelowAsymmetric` | generate_music.py:27 | of two strings at most one sorts before the other |
| `Ordering.BelowTransitive` | generate_music.py:27 | the order is transitive |
| `Ordering.BelowTotal` | generate_music.py:27 | any two different strings are ordered one way or the other |
| `Text.Decimal` | prepare_data.py:32 | `str(n)` of a non-negative int is a non-empty digit string with no leading zero |
| `Text.DecimalRoundTrip` | generate_music.py:98 | `int(str(n)) == n` for every non-negative n |
| `Text.SplitJoin` | generate_music.py:97 | `sep.join(pieces).split(sep)` gives back the pieces when no piece contains `sep` |
| `Text.JoinCharacters` | prepare_data.py:32 | every character of a join is the separator or a character of some piece |
| `Text.Join` | prepare_data.py:32 | (definition, no contract) `sep.join(pieces)`, empty for no pieces; `SplitJoin`, `JoinSplit` and `JoinCharacters` state its properties |
| `Text.Split` | generate_music.py:97 | `s.split(sep)` gives at least one piece (`""` gives `[""]`) and no piece holds the separator; `JoinSplit` and `SplitJoin` make it the inverse of `join` |
| `Text.JoinSplit` | generate_music.py:97 | joining the pieces of `s.split(sep)` with `sep` gives back `s`, for every string |
| `Text.IsNumeral` | generate_music.py:96 | (definition, no contract) `s.isdigit()` on ASCII: a non-empty string of digits only; `Text.Decimal` shows every `str(n)` is one |
| `Text.ParseNat` | generate_music.py:98 | `int(s)` succeeds exactly when `s` is a non-empty digit string; `DecimalRoundTrip` shows it undoes `str(n)` |
| `Text.Lower` | music.py:36 | `s.lower()` keeps the length, turns each ASCII capital into its lower-case letter (code point plus 32), and changes no other character |
| `NoteTokens.StreamTokensAppend` | prepare_data.py:28-32 | tokens are appended element by element: the tokens of `a + b` are those of `a` followed by those of `b` |
| `NoteTokens.StreamTokensSources` | prepare_data.py:28-32 | a token is produced exactly when some Note or Chord element maps to it; other elements give nothing |
| `NoteTokens.ChordTokenShape` | prepare_data.py:32 | a chord token holds only decimal digits and dots |
| `NoteTokens.ChordTokenPieces` | generate_music.py:97 | splitting a chord token at its dots gives one numeral per pitch of the normal order |
| `NoteTokens.ChordToken` | prepare_data.py:32 | a chord token is empty exactly when the normal order is empty; its shape and pieces are `ChordTokenShape` and `ChordTokenPieces` |
| `NoteTokens.ElementToken` | prepare_data.py:28-32 | an element gives a token exactly when it is a Note or a Chord, and a chord's token holds only digits and dots |
| `NoteTokens.StreamTokens` | prepare_data.py:28-32 | a stream gives at most one token per element; which tokens, in what order, is `StreamTokensSources` and `StreamTokensAppend` |
| `Vocabulary.Get` | generate_music.py:33 | lookup finds a value exactly for the keys of the dict, and with distinct keys it is the value stored with the key |
| `Vocabulary.Enumerate` | music.py:48 | `{t: i for i, t in enumerate(ts)}` as an item list: item i is `(ts[i], i)`; `Build` and `InvertEnumerate` use it |
| `Vocabulary.KeysCardinality` | train_model.py:39 | a dict with distinct keys has as many keys as items |
| `Vocabulary.Build` | train_model.py:41 | the fresh dict numbers 0..N-1, has exactly the tokens as keys, and numbers them in ascending string order |
| `Vocabulary.BuildFollowsStringOrder` | generate_music.py:36 | one token sorts before another exactly when its index is smaller |
| `Vocabulary.BuildCanonical` | music.py:47-48 | any dict numbered 0..N-1 over the tokens in ascending order is the fresh dict |
| `Vocabulary.Extend` | generate_music.py:32-34 | extension keeps the loaded items as a prefix and adds exactly the unseen names, each at the size the dict had when it was added; a dict numbered 0..k-1 stays numbered densely |
| `Vocabulary.ExtendNewHead` | generate_music.py:32-34 | adding an unseen name at index `len(d)` and extending with the rest keeps `d` as a prefix, adds exactly the names, numbers every new item by its position, and keeps a dense dict dense |
| `Vocabulary.ExtendKeepsIndices` | generate_music.py:33-34 | a token already loaded keeps its index |
| `Vocabulary.ExtendAppendsInOrder` | generate_music.py:27-34 | with sorted names the new tokens are appended in ascending string order |
| `Vocabulary.ExtendSize` | generate_music.py:32-34 | the dict grows by exactly the number of distinct unseen names |
| `Vocabulary.Invert` | generate_music.py:75 | the inverted dict has exactly the values of the dict as keys |
| `Vocabulary.InvertLastWins` | generate_music.py:75 | for a value shared by several tokens, the last inserted token wins |
| `Vocabulary.InvertDense` | generate_music.py:75 | for a dict numbered 0..N-1 the inverse is defined on 0..N-1 and undoes the lookup of every key |
| `Vocabulary.InvertEnumerate` | music.py:48-49 | inverting `{t: i for i, t in enumerate(ts)}` gives `{i: t for i, t in enumerate(ts)}` |
| `Vocabulary.IndexTable` | music.py:49 | `{i: t for i, t in enumerate(ts)}`: defined exactly on 0..len(ts)-1, with entry i equal to `ts[i]`; `InvertEnumerate` shows it is the inverted enumeration |
| `Vocabulary.Encode` | generate_music.py:60-61 | each encoded index is the dict's value for the token at the same position |
| `Vocabulary.EncodeDecode` | generate.py:22 | indices from the fresh dict are below N and decode back to the tokens |
| `Vocabulary.EncodeKnown` | music.py:67 | dropping unknown tokens leaves no more indices than tokens, all of them values of the dict |
| `Vocabulary.KnownTokens` | music.py:67 | the tokens kept by `if t in token2idx` are at most the given ones, all keys, and are exactly the given tokens that are keys |
| `Vocabulary.EncodeKnownFilters` | music.py:67 | the comprehension is the plain encoding of the known tokens, in their order |
| `Vocabulary.EncodeKnownAllKnown` | music.py:67 | when every token is known nothing is dropped: the result is the plain encoding |
| `Windows.WindowCount` | train_model.py:46 | (definition, no contract) `len(range(n - L))`, that is `max(0, n - L)`; `Slide` and `SlideColumns` give it as the number of windows |
| `Windows.Contexts` | train_model.py:47-49 | the `network_input` column: one entry per window, entry i being window i's context; `SlideColumns` spells out its items |
| `Windows.Targets` | train_model.py:48-50 | the `network_output` column: one entry per window, entry i being window i's target; `SlideColumns` spells out its items |
| `Windows.Slide` | train_model.py:46-50 | `for i in range(len(xs) - L)` builds `max(0, n - L)` windows, and window i is `(xs[i:i+L], xs[i+L])`, in order of i |
| `Windows.SlideEach` | music.py:64-73 | (definition, no contract) the windows of each file in turn; `SlideEachWithinGroups` gives their number and shows none spans two files |
| `Windows.SlideColumns` | generate_music.py:57-61 | there are `max(0, n - L)` inputs and outputs; input i holds items i to i+L-1 of the sequence, in order, and output i is item i+L |
| `Windows.SlideContextLength` | train_model.py:46-47 | every window context has exactly L items |
| `Windows.SlideEachWithinGroups` | music.py:64-73 | per-file windows number the sum of `max(0, m - L)` over the files, and each lies inside one file |
| `Generation.Argmax` | generate_music.py:84 | `np.argmax` gives an index of a largest score, with every earlier score strictly smaller |
| `Generation.ArgmaxUnique` | generate_music.py:84 | ties go to the lowest index: no other index has those properties |
| `Generation.Step` | generate_music.py:80-89 | one pass keeps the buffer's length, appends one chosen index and the token `int_to_note` gives for it, keeps everything before, and can fail only with an empty score vector or a KeyError |
| `Generation.ChosenAt` | generate_music.py:83-86 | (definition, no contract) step i applied argmax to the scores of the window of `seed + chosen` before it and decoded the result; used by `StepFromSeed` and the `SongShape` lemmas |
| `Generation.FromSeed` | generate_music.py:79-89 | (definition, no contract) a session whose buffer is the last L indices of `seed + chosen` and whose every choice satisfies `ChosenAt`; `StepFromSeed` shows one step keeps it |
| `Generation.Run` | generate_music.py:79-89 | a run keeps the buffer's length, adds one index and one token per step, and can fail only with an empty score vector or a KeyError |
| `Generation.StepFromSeed` | generate_music.py:83-89 | one step keeps the buffer equal to the last L indices of `seed + chosen` and records a choice made by argmax |
| `Generation.RunFromSeed` | generate_music.py:79-89 | any number of successful steps keep a session following its seed: the buffer stays the last L indices of `seed + chosen` and every choice is the argmax of its window |
| `Generation.RunFromSeedProduces` | generate.py:27-34 | a run of k steps makes exactly k choices; choice i is the argmax for the window before it and its token is that index decoded; once k ≥ L the buffer is the last L chosen indices |
| `Generation.RunSucceeds` | generate_music.py:84-85 | a network whose argmax is always decodable never makes the loop raise |
| `Generation.ConstantChoice` | generate_music.py:79-86 | a network always favouring index k makes the output that token repeated once per step |
| `Reconstruction.ParsePieces` | generate_music.py:97-98 | `[int(n) for n in pieces]` succeeds exactly when every piece is a numeral, giving their values in order; otherwise it fails with the bad piece |
| `Reconstruction.IsChordToken` | generate_music.py:96 | (definition, no contract) `'.' in t or t.isdigit()`; `TokenEvent` and `TokenEventFails` state what follows from it |
| `Reconstruction.TokenEvent` | generate_music.py:96-108 | a converted token keeps its offset and is a chord exactly when it is chord-shaped; failure is a bad chord piece or a name music21 cannot read |
| `Reconstruction.Reconstruct` | generate_music.py:95-110 | conversion succeeds exactly when every token converts, with one event per token at its own offset; it fails only with a bad chord piece or a bad pitch name |
| `Reconstruction.ReconstructedEvents` | generate.py:40-51 | event i is at offset i * 0.5, is a chord exactly when token i contains a dot or is all digits, has one pitch per dot-separated piece, and is otherwise a note named by the token |
| `Reconstruction.TokenEventFails` | generate_music.py:96-108 | a chord-shaped token fails to convert exactly when some piece is not a numeral; any other token fails exactly when music21 does not read it as a pitch name |
| `Reconstruction.ChordTokenRoundTrip` | generate_music.py:96-101 | a chord token made from a non-empty normal order converts back into a chord of the same pitch numbers in the same order |
| `Reconstruction.EmptyChordReadsAsNote` | generate_music.py:104-105 | the token of a chord with an empty normal order is `""`, which is not chord-shaped: it becomes a note if music21 reads `""` as a pitch name and raises otherwise |
| `PrepareData.ScoreNotes` | prepare_data.py:24-39 | (definition, no contract) the tokens of every part in turn, or of the flat stream; `ScoreNotesAreStreamTokens` states what they are |
| `PrepareData.FileNotes` | prepare_data.py:18-42 | (definition, no contract) what one directory entry appends; `FileNotesSources` states which tokens |
| `PrepareData.CollectNotes` | prepare_data.py:14-42 | (definition, no contract) `notes` after the loop; `CollectNotesAppend`, `CollectNotesSnoc`, `SkippedFileLeavesNoTrace` and `CollectNotesSources` state its properties |
| `PrepareData.IsMidiName` | prepare_data.py:18 | (definition, no contract) the case-sensitive `.mid`/`.midi` suffix test; `FileNotesSources` shows other entries add nothing |
| `PrepareData.PartsNotes` | prepare_data.py:26-32 | (definition, no contract) the tokens of every part in turn; `PartsNotesConcat` shows this is the tokens of the parts concatenated |
| `PrepareData.ReadElements` | prepare_data.py:24-34 | (definition, no contract) all instrument parts when partitioning found some, the flat notes otherwise; `ScoreNotesAreStreamTokens` and `FileNotesSources` use it |
| `PrepareData.PartsNotesConcat` | prepare_data.py:25-32 | reading the parts one after another gives the tokens of their concatenation |
| `PrepareData.ScoreNotesAreStreamTokens` | prepare_data.py:24-39 | the partitioned and flat branches apply the same element mapping to the elements they read |
| `PrepareData.FileNotesSources` | prepare_data.py:18-42 | a file contributes a token exactly when it has a MIDI name, parses, and some note or chord in it maps to that token |
| `PrepareData.CollectNotesSnoc` | prepare_data.py:17-39 | the notes of the last listed file come after those of the files before it |
| `PrepareData.CollectNotesAppend` | prepare_data.py:14-42 | `notes` is only appended to: the listing `a + b` gives the notes of `a` followed by those of `b` |
| `PrepareData.SkippedFileLeavesNoTrace` | prepare_data.py:41-42 | a non-MIDI or unparsable file leaves `notes` as if it were not listed |
| `PrepareData.CollectNotesSources` | prepare_data.py:17-39 | a token is in `notes` exactly when some listed file contributes it |
| `TrainModel.Matching` | train_model.py:13 | the matched files are exactly the listed files whose name the `*.mid` pattern matches |
| `TrainModel.GlobMatches` | train_model.py:13 | (definition, no contract) the `*.mid` name pattern: the `.mid` suffix, and no leading dot; `Matching` states the filter |
| `TrainModel.MatchingAppend` | train_model.py:13 | the glob keeps listing order: the matches of `a + b` are those of `a` followed by those of `b` |
| `TrainModel.ScoreNotes` | train_model.py:20-31 | (definition, no contract) the tokens of the first part, or of the flat stream; `SinglePartAgrees` relates it to prepare_data.py |
| `TrainModel.ParseAll` | train_model.py:19-31 | reading the files succeeds exactly when every file parses; otherwise it fails with ParseError |
| `TrainModel.ParseAllSnoc` | train_model.py:19-31 | one more file appends its tokens after those read so far, or makes the loop fail if it does not parse |
| `TrainModel.ParseAllAppend` | train_model.py:19-31 | the files `a + b` parse exactly when both halves do, and then give the tokens of `a` followed by those of `b` |
| `TrainModel.ParseAllSources` | train_model.py:19-31 | a token is read exactly when some file's score yields it |
| `TrainModel.LoadNotes` | train_model.py:13-31 | NoMidiFiles exactly when no name matches; success exactly when some name matches and every matching file parses |
| `TrainModel.LoadNotesSources` | train_model.py:13-31 | after a successful step 1, a token is in `notes` exactly when some matching file's score yields it |
| `TrainModel.SequenceLength` | train_model.py:38 | the window length is -1 exactly for no notes; otherwise it lies in 0..min(20, n-1) and is 20 or n-1 |
| `TrainModel.PrepareSequences` | train_model.py:38-50 | window building fails, with IndexError, exactly when there are no notes |
| `TrainModel.Prepare` | train_model.py:13-50 | steps 1 and 2 fail only with NoMidiFiles, ParseError or IndexError, and on success give as many targets as input windows, at least one |
| `TrainModel.ToCategorical` | train_model.py:59 | one-hot encoding succeeds exactly when every label is in range, and row i has a single 1 in label i's column |
| `TrainModel.OneHot` | train_model.py:59 | a row of `num_classes` entries with a 1 at the label's column and 0 everywhere else |
| `TrainModel.Column` | train_model.py:59 | a label in `-num_classes .. num_classes-1` selects a column in range, counting from the end when negative; a non-negative label selects its own column |
| `TrainModel.WindowCount` | train_model.py:38-50 | for n ≥ 1 notes there are `max(n - 20, 1)` windows, each with `min(20, n - 1)` inputs |
| `TrainModel.WindowsEncodeNotes` | train_model.py:46-50 | window i holds the indices of `notes[i:i+L]`, and its target is the index of `notes[i+L]` |
| `TrainModel.VocabSizeIsMapSize` | train_model.py:39-41 | `n_vocab` equals the size of `note_to_int`, which numbers 0..n_vocab-1 |
| `TrainModel.TargetsInRange` | train_model.py:50 | every target index is below `n_vocab` |
| `TrainModel.TargetsOneHot` | train_model.py:59 | `to_categorical` succeeds, and row i is the one-hot row of target i |
| `TrainModel.SinglePartAgrees` | train_model.py:21-25 | for a score with at most one part, reading only the first part gives the same tokens as reading every part |
| `Music.Identity` | music.py:22-30 | the identity token is `REST` exactly for a rest, and no identity token starts with `DUR_` |
| `Music.EventTokens` | music.py:21-31 | (definition, no contract) the identity and `DUR_` tokens a note, rest or chord appends, and nothing for other elements; `EachElementInPlace` places them in the stream's tokens |
| `Music.Events` | music.py:20-31 | the notes, rests and chords of the stream: an element is kept exactly when it is one of those, nothing else is kept, and `EventsAppend` shows stream order is kept |
| `Music.Tokens` | music.py:18-32 | a stream gives an even number of tokens, at most two per element |
| `Music.MidiToTokens` | music.py:11-32 | a parsed file gives an even number of tokens, at most two per flat element |
| `Music.TokensPairUp` | music.py:20-31 | each note, rest or chord gives exactly an identity token and then its duration token; other elements give none |
| `Music.EventsSnoc` | music.py:21-31 | one more element extends the events by itself exactly when it is a note, rest or chord |
| `Music.TokensSnoc` | music.py:21-31 | one more element appends exactly its own tokens |
| `Music.EventsAppend` | music.py:20-31 | the events of `a + b` are the events of `a` followed by those of `b` |
| `Music.TokensAppend` | music.py:21-31 | the tokens of `a + b` are the tokens of `a` followed by those of `b` |
| `Music.EachElementInPlace` | music.py:21-31 | wherever an element stands, the stream's tokens are those of the elements before it, then its own identity and `DUR_` tokens (none unless a note, rest or chord), then those of the elements after it |
| `Music.DurationsAtOddPositions` | music.py:21-32 | the token list has even length, and a token starts with `DUR_` exactly at odd positions |
| `Music.ChordOrderKept` | music.py:29-30 | chord tokens list the pitches in their given order, so two orders give two tokens |
| `Music.MidiFiles` | music.py:36 | the files kept are exactly the entries whose lower-cased name ends in `.mid` or `.midi` |
| `Music.IsMidiName` | music.py:36 | (definition, no contract) `f.lower().endswith(('.mid', '.midi'))`; `MidiFiles` states the filter |
| `Music.UpperCaseMidiName` | music.py:36 | the test ignores case: `Song.MID` counts as a MIDI file, although it does not end with `.mid` as written |
| `Music.Pooled` | music.py:40-41 | (definition, no contract) the file parses and gives more than ten tokens; `PoolSources` and `ShortFileNoWindows` state what it decides |
| `Music.Pool` | music.py:35-44 | (definition, no contract) `all_tokens` after the first pass; `PoolSources` states which tokens it holds |
| `Music.PoolSources` | music.py:38-44 | a token is pooled exactly when a file that parses and yields more than ten tokens contains it |
| `Music.Preprocess` | music.py:34-79 | (definition, no contract) the whole script from the listing to the tables and X, Y; `VocabularyTables` and `DatasetShape` state its properties |
| `Music.FileIndices` | music.py:64-67 | (definition, no contract) one file's second-pass indices, none when its parse raises; `PooledFileKeepsAll`, `GroupsInRange` and `ShortFileNoWindows` state its properties |
| `Music.Indices` | music.py:64-67 | one index sequence per listed file, in listing order, each that file's second-pass indices |
| `Music.VocabularyTables` | music.py:47-49 | `token2idx` numbers the sorted distinct pooled tokens, and `idx2token` is its exact inverse on 0..V-1 |
| `Music.DatasetShape` | music.py:61-79 | X and Y have one row per window; each X row has 64 indices; no window spans two files; every index is below V |
| `Music.GroupsInRange` | music.py:67 | every index of the second pass is below the vocabulary size |
| `Music.WindowsInRange` | music.py:69-73 | windows cut from index lists below V hold only indices below V |
| `Music.PooledFileKeepsAll` | music.py:64-67 | a pooled file loses no token in the second pass |
| `Music.ShortFileNoWindows` | music.py:38-69 | a listed file of at most ten tokens is not pooled, so each of its tokens gets a vocabulary index exactly when some other pooled file yields it; it also gives no window of 64 |
| `GenerateMusic.SequenceLength` | generate_music.py:51 | the window length lies in [5, 20] and is below the note count exactly when there are more than five notes |
| `GenerateMusic.PatternCount` | generate_music.py:51-63 | (definition, no contract) `len(range(len(notes) - sequence_length))`; `PatternCounts` says when it is 0, 1 or at least 2 |
| `GenerateMusic.EncodedWindows` | generate_music.py:57-61 | (definition, no contract) input i holds the indices of `notes[i:i+L]` and output i that of `notes[i+L]`; `MakePatterns` and `SlideEncodes` establish it |
| `GenerateMusic.LoadNoteToInt` | generate_music.py:27-38 | the dict in use has distinct keys and covers every note |
| `GenerateMusic.MakePatterns` | generate_music.py:57-65 | "Dataset too small" is raised exactly for at most five notes; otherwise window i encodes `notes[i:i+L]` with target `notes[i+L]` |
| `GenerateMusic.Seed` | generate_music.py:73-74 | the draw fails exactly with fewer than two windows; otherwise the seed is a window other than the last |
| `GenerateMusic.PatternCounts` | generate_music.py:51-65 | no window exactly for at most five notes; exactly one window exactly for six notes |
| `GenerateMusic.Compose` | generate_music.py:57-73 | after the dict is ready, "Dataset too small" is raised exactly for at most five notes and the random-range error exactly for six; the empty-notes error never comes from here |
| `GenerateMusic.SlideEncodes` | generate_music.py:57-61 | window i of the encoded stream holds the indices of `notes[i:i+L]` and its target is the index of `notes[i+L]` |
| `GenerateMusic.ComposedSong` | generate_music.py:73-110 | a composed song is the 300-step run from window `start`, other than the last window, with its tokens converted to events |
| `GenerateMusic.Script` | generate_music.py:23-110 | (definition, no contract) the whole script; `EarlyFailures`, `ScriptComposes`, `Persistence` and `SongShape` state its properties |
| `GenerateMusic.EarlyFailures` | generate_music.py:23-73 | the script raises an empty-dataset error exactly for no notes, "too small" for one to five, and the random-range error for six |
| `GenerateMusic.ScriptComposes` | generate_music.py:23-73 | with at least one note the script's song is what the window, seed, generation and conversion steps give, and none of their errors is the empty-notes one |
| `GenerateMusic.Persistence` | generate_music.py:29-38 | only a freshly built dict is written back; an extended one never is |
| `GenerateMusic.ExtendedNoteToInt` | generate_music.py:29-34 | extension keeps every loaded index, appends unseen tokens in sorted order at the current size, and keeps a 0..k-1 dict dense |
| `GenerateMusic.IntToNoteInverts` | generate_music.py:75 | with a densely numbered dict, `int_to_note[note_to_int[t]] == t` for every note |
| `GenerateMusic.SongShape` | generate_music.py:73-110 | a song has 300 choices, tokens and events; each choice is the argmax over the previous window; the buffer holds the last L choices; event i matches token i at offset i * 0.5 |
| `Generate.NoteToInt` | generate.py:12-13 | `note_to_int` numbers 0..N-1 and has exactly the notes as keys |
| `Generate.IntToNote` | generate.py:12-14 | `int_to_note` is defined on exactly 0..N-1 and maps each index to a note of the corpus |
| `Generate.SeedIndices` | generate.py:21-22 | the seed holds 100 indices, the i-th being `note_to_int[notes[start + i]]` |
| `Generate.Script` | generate.py:19-20 | the random draw raises exactly when there are fewer than 102 notes |
| `Generate.TablesInverse` | generate.py:12-14 | `note_to_int` and `int_to_note` are mutual inverses over 0..N-1, and `int_to_note` is the inversion of `note_to_int` |
| `Generate.SeedDecodes` | generate.py:21-22 | every seed index is below N and decodes to the seed token |
| `Generate.SongShape` | generate.py:27-51 | a song has 200 choices, tokens and events; each choice is the argmax over the previous window; the 100-index buffer ends as the last 100 choices; event i matches token i at offset i * 0.5 |
| `Generate.ScriptRun` | generate.py:20-51 | a successful script is the 200-step run from the seed window followed by a successful conversion of its tokens, and the song is made of exactly those |
| `Generate.MatchingNetworkDecodes` | generate.py:27-50 | a network with one score per vocabulary entry never makes the loop raise; only a token that cannot be converted (a bad chord piece or a bad pitch name) can still fail |

## Left out

- **music21 and MIDI I/O.** Parsing, instrument partitioning, `normalOrder`,
  `nameWithOctave` and MIDI writing are left out. Their results are given
  values (`Scores`). A score's parts and flat stream are taken as
  independent inputs.
- **Keras.** Model construction, training, `load_model` and `model.predict`
  are left out. The network is an uninterpreted function from contexts to
  score vectors.
- **numpy.** `np.reshape` and the float normalisation `/ float(n_vocab)`
  are left out; the buffer is a plain index sequence.
- `GenerateMusic.SongShape`: states each choice as the argmax of the network
  applied to the plain window of indices. The script feeds the network seed
  values divided by `n_vocab` twice and generated values divided once
  (generate_music.py lines 68, 81 and 88); that mixed scaling is not
  modelled.
- `Generation.ChosenAt`: the same reading of the network input, shared by
  both generators.
- `Generation.Argmax`: scores are exact reals with no NaN. `np.argmax` on a
  float vector holding NaN returns the index of the first NaN; no `real`
  vector can express that case, and float rounding is not modelled either.
- `Reconstruction.TokenEvent`: which names music21 reads as pitches is the
  parameter `isPitch`; music21's pitch-name grammar is not modelled.
- **Randomness, the clock and the file system.** `np.random.randint` becomes
  the drawn number, passed as a parameter. `os.listdir` and `glob` become a
  given listing in a given order. The following are left out:
  - pickle, `np.save` and folder creation;
  - `os.startfile`/`subprocess` and the `FileNotFoundError` for a missing
    model file;
  - `print` and `tqdm`.
- **Partial appends.** An exception part-way through one file's element loop
  would leave that file's earlier tokens appended. The model treats a parse
  failure as all-or-nothing for the file.
- **`if parts:`** is read as "partitioning produced at least one part".
- `Text.ParseNat`: `int()` is modelled on ASCII digit strings only. Python
  also accepts signs, surrounding whitespace, underscores and non-ASCII
  digits. None of these occur in tokens built from `normalOrder`.
- `Text.IsNumeral`: `str.isdigit()` is modelled for ASCII digits only. Python
  also accepts other Unicode digit characters.
- `Text.Lower`: `str.lower()` is modelled on ASCII letters only.
- `TrainModel.ToCategorical`: with `num_classes` 0, Keras treats the
  argument as absent and uses `max(labels) + 1` (raising on no labels); the
  model instead gives `[]` for no labels and IndexError otherwise. The script
  never gets there: `n_vocab` is at least 1 once step 2 has succeeded.
- `TrainModel.GlobMatches`: only the name pattern is modelled. Directories
  that match `*.mid` are left out, as is the platform's case sensitivity.
- **Scalar formatting.** `str(pitch)` and the f-string formatting of
  quarter lengths are given strings.
- `chatbot.py` is not part of this model.
