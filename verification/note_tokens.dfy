/** The element-to-token mapping shared by prepare_data.py and train_model.py:
    a note becomes the text of its pitch, a chord its normal order written as
    dot-separated decimal numbers, and every other element nothing. */
module NoteTokens {
  import opened Results
  import opened Text
  import opened Scores

  function Decimals(ns: seq<nat>): (r: seq<string>)
    ensures |r| == |ns|
    ensures forall i :: 0 <= i < |ns| ==> r[i] == Decimal(ns[i])
  {
    seq(|ns|, i requires 0 <= i < |ns| => Decimal(ns[i]))
  }

  /** `'.'.join(str(n) for n in chord.normalOrder)`, order kept as given. */
  function ChordToken(normalOrder: seq<nat>): (r: string)
    ensures r == "" <==> |normalOrder| == 0
  {
    var pieces := Decimals(normalOrder);
    assert |pieces| > 0 ==> |pieces[0]| > 0;
    Join('.', pieces)
  }

  /** The token `str(element.pitch)` or the chord token for a note or chord;
      nothing for any other element. A chord's token is digits and dots. */
  function ElementToken(e: Element): (r: Option<string>)
    ensures r.Some? <==> e.Note? || e.Chord?
    ensures e.Chord? ==> forall c :: c in r.value ==> IsDigit(c) || c == '.'
  {
    match e
    case Note(pitch, _, _) => Some(pitch)
    case Chord(normalOrder, _, _) =>
      ChordTokenShape(normalOrder);
      Some(ChordToken(normalOrder))
    case _ => None
  }

  /** The tokens one pass of `for element in notes_to_parse` appends. */
  function StreamTokens(es: seq<Element>): (r: seq<string>)
    ensures |r| <= |es|
    decreases |es|
  {
    if |es| == 0 then []
    else
      match ElementToken(es[0])
      case Some(t) => [t] + StreamTokens(es[1..])
      case None => StreamTokens(es[1..])
  }

  /** Tokens are appended element by element, in stream order. */
  lemma {:induction false} StreamTokensAppend(a: seq<Element>, b: seq<Element>)
    ensures StreamTokens(a + b) == StreamTokens(a) + StreamTokens(b)
    decreases |a|
  {
    if |a| == 0 {
      assert a + b == b;
    } else {
      assert (a + b)[1..] == a[1..] + b;
      StreamTokensAppend(a[1..], b);
    }
  }

  /** A token is produced exactly when some note or chord element maps to it. */
  lemma {:induction false} StreamTokensSources(es: seq<Element>, t: string)
    ensures t in StreamTokens(es) <==> exists i :: 0 <= i < |es| && ElementToken(es[i]) == Some(t)
    decreases |es|
  {
    if |es| > 0 {
      StreamTokensSources(es[1..], t);
      if exists i :: 0 <= i < |es[1..]| && ElementToken(es[1..][i]) == Some(t) {
        var i :| 0 <= i < |es[1..]| && ElementToken(es[1..][i]) == Some(t);
        assert ElementToken(es[i + 1]) == Some(t);
      }
      if exists i :: 0 <= i < |es| && ElementToken(es[i]) == Some(t) {
        var i :| 0 <= i < |es| && ElementToken(es[i]) == Some(t);
        if i > 0 {
          assert ElementToken(es[1..][i - 1]) == Some(t);
        }
      }
    }
  }

  /** A chord token is made of decimal digits and dots only. */
  lemma ChordTokenShape(normalOrder: seq<nat>)
    ensures forall c :: c in ChordToken(normalOrder) ==> IsDigit(c) || c == '.'
  {
    var pieces := Decimals(normalOrder);
    forall c | c in ChordToken(normalOrder)
      ensures IsDigit(c) || c == '.'
    {
      JoinCharacters('.', pieces, c);
      if c != '.' {
        var i :| 0 <= i < |pieces| && c in pieces[i];
        var k :| 0 <= k < |pieces[i]| && pieces[i][k] == c;
      }
    }
  }

  /** Splitting a chord token at its dots gives back one numeral per pitch. */
  lemma ChordTokenPieces(normalOrder: seq<nat>)
    requires |normalOrder| > 0
    ensures Split(ChordToken(normalOrder), '.') == Decimals(normalOrder)
  {
    var pieces := Decimals(normalOrder);
    forall i | 0 <= i < |pieces|
      ensures '.' !in pieces[i]
    {
      assert IsNumeral(pieces[i]);
    }
    SplitJoin('.', pieces);
  }
}
