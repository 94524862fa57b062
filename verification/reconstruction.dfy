/** The conversion of generated tokens back to timed music21 events, shared by
    generate_music.py and generate.py: a token that contains a dot or is all
    digits is a chord whose dot-separated pieces are pitch numbers; any other
    token is a note name. The i-th token sounds at offset i * 0.5, which is
    counted here in whole half beats. */
module Reconstruction {
  import opened Results
  import opened Text
  import opened NoteTokens

  /** One event of the output stream, `halfBeats` half quarter notes in. */
  datatype Event =
    | NoteEvent(name: string, halfBeats: nat)
    | ChordEvent(keys: seq<nat>, halfBeats: nat)

  /** What a generator script ends with: the chosen indices, their tokens,
      the rolling buffer after the last step, and the events written out. */
  datatype Song = Song(chosen: seq<int>, tokens: seq<string>, buffer: seq<int>, events: seq<Event>)

  /** Which strings music21's `note.Note(name)` reads as a pitch name
      ("C#4", "E-3", …); any other string makes it raise. The pitch-name
      parser itself is not part of this model, so it is a parameter. */
  type PitchNames = string -> bool

  /** `('.' in pattern) or pattern.isdigit()` */
  predicate IsChordToken(t: string) {
    '.' in t || IsNumeral(t)
  }

  /** `[int(n) for n in pieces]`, raising at the first piece that is not a
      numeral. */
  function ParsePieces(pieces: seq<string>): (r: Result<seq<nat>>)
    ensures r.Ok? <==> forall i :: 0 <= i < |pieces| ==> IsNumeral(pieces[i])
    ensures r.Ok? ==> |r.value| == |pieces|
    ensures r.Ok? ==> forall i :: 0 <= i < |pieces| ==> r.value[i] == NumeralValue(pieces[i])
    ensures r.Err? ==> r.failure.InvalidLiteral?
    decreases |pieces|
  {
    if |pieces| == 0 then Ok([])
    else
      match ParseNat(pieces[0])
      case None => Err(InvalidLiteral(pieces[0]))
      case Some(n) =>
        var rest :- ParsePieces(pieces[1..]);
        Ok([n] + rest)
  }

  /** The event for one token at the given offset. */
  function TokenEvent(t: string, halfBeats: nat, isPitch: PitchNames): (r: Result<Event>)
    ensures r.Ok? ==> r.value.halfBeats == halfBeats
    ensures r.Ok? ==> (r.value.ChordEvent? <==> IsChordToken(t))
    ensures r.Err? ==> r.failure.InvalidLiteral? || r.failure.InvalidPitchName?
  {
    if IsChordToken(t) then
      var keys :- ParsePieces(Split(t, '.'));
      Ok(ChordEvent(keys, halfBeats))
    else if isPitch(t) then
      Ok(NoteEvent(t, halfBeats))
    else
      Err(InvalidPitchName(t))
  }

  /** The conversion loop over the generated tokens, with `offset += 0.5`
      after each; the first token that cannot be converted ends it. */
  function Reconstruct(tokens: seq<string>, isPitch: PitchNames): (r: Result<seq<Event>>)
    ensures r.Ok? <==> forall i :: 0 <= i < |tokens| ==> TokenEvent(tokens[i], i, isPitch).Ok?
    ensures r.Ok? ==> |r.value| == |tokens|
    ensures r.Ok? ==> forall i :: 0 <= i < |tokens| ==> TokenEvent(tokens[i], i, isPitch) == Ok(r.value[i])
    ensures r.Err? ==> r.failure.InvalidLiteral? || r.failure.InvalidPitchName?
    decreases |tokens|
  {
    if |tokens| == 0 then Ok([])
    else
      var n := |tokens| - 1;
      var front :- Reconstruct(tokens[..n], isPitch);
      var last :- TokenEvent(tokens[n], n, isPitch);
      Ok(front + [last])
  }

  /** One event per token, the i-th at offset i * 0.5; a chord exactly for the
      chord-shaped tokens, with one pitch number per dot-separated piece; a
      note named by the token otherwise. */
  lemma ReconstructedEvents(tokens: seq<string>, isPitch: PitchNames)
    requires Reconstruct(tokens, isPitch).Ok?
    ensures var events := Reconstruct(tokens, isPitch).value;
      |events| == |tokens| &&
      forall i :: 0 <= i < |tokens| ==> EventFor(tokens[i], i, events[i])
  {
    var events := Reconstruct(tokens, isPitch).value;
    forall i | 0 <= i < |tokens|
      ensures EventFor(tokens[i], i, events[i])
    {
      assert TokenEvent(tokens[i], i, isPitch) == Ok(events[i]);
      if IsChordToken(tokens[i]) {
        assert ParsePieces(Split(tokens[i], '.')).Ok?;
      }
    }
  }

  /** The event a token at position i becomes. */
  predicate EventFor(t: string, i: nat, e: Event) {
    e.halfBeats == i &&
    (e.ChordEvent? <==> IsChordToken(t)) &&
    (e.NoteEvent? ==> e.name == t) &&
    (e.ChordEvent? ==>
      var pieces := Split(t, '.');
      |e.keys| == |pieces| &&
      forall j :: 0 <= j < |pieces| ==> IsNumeral(pieces[j]) && e.keys[j] == NumeralValue(pieces[j]))
  }

  /** A token fails to convert exactly when it is chord-shaped and one of its
      pieces is not a numeral, as in "4..7" or "A.4", or when it is not
      chord-shaped and music21 cannot read it as a pitch name. */
  lemma TokenEventFails(t: string, halfBeats: nat, isPitch: PitchNames)
    ensures TokenEvent(t, halfBeats, isPitch).Err? <==>
      if IsChordToken(t) then exists j :: 0 <= j < |Split(t, '.')| && !IsNumeral(Split(t, '.')[j])
      else !isPitch(t)
  {
    var pieces := Split(t, '.');
    if IsChordToken(t) {
      assert TokenEvent(t, halfBeats, isPitch).Err? <==> ParsePieces(pieces).Err?;
      if ParsePieces(pieces).Err? {
        assert !forall j :: 0 <= j < |pieces| ==> IsNumeral(pieces[j]);
        var j :| 0 <= j < |pieces| && !IsNumeral(pieces[j]);
        assert !IsNumeral(Split(t, '.')[j]);
      }
    }
  }

  /** A chord token written by prepare_data.py or train_model.py comes back
      as a chord of the same pitch numbers in the same order. */
  lemma ChordTokenRoundTrip(normalOrder: seq<nat>, halfBeats: nat, isPitch: PitchNames)
    requires |normalOrder| > 0
    ensures IsChordToken(ChordToken(normalOrder))
    ensures TokenEvent(ChordToken(normalOrder), halfBeats, isPitch) == Ok(ChordEvent(normalOrder, halfBeats))
  {
    var pieces := Decimals(normalOrder);
    ChordTokenPieces(normalOrder);
    if |normalOrder| == 1 {
      assert ChordToken(normalOrder) == pieces[0];
    } else {
      assert ChordToken(normalOrder)[|pieces[0]|] == '.';
    }
    forall i | 0 <= i < |pieces|
      ensures IsNumeral(pieces[i]) && NumeralValue(pieces[i]) == normalOrder[i]
    {
      DecimalRoundTrip(normalOrder[i]);
    }
    var keys := ParsePieces(pieces).value;
    assert keys == normalOrder;
  }

  /** A chord with an empty normal order is written as the empty token, which
      is not chord-shaped: the conversion hands it to `note.Note`, so it
      becomes a note named "" if music21 accepts that name and raises
      otherwise. */
  lemma EmptyChordReadsAsNote(halfBeats: nat, isPitch: PitchNames)
    ensures ChordToken([]) == ""
    ensures TokenEvent(ChordToken([]), halfBeats, isPitch) ==
      if isPitch("") then Ok(NoteEvent("", halfBeats)) else Err(InvalidPitchName(""))
  {
  }
}
