/** The autoregressive loop of generate_music.py and generate.py: the network
    scores the current context, the index with the highest score is decoded
    to a token and appended to the output, and the context slides by one to
    take it in. No sampling is involved, so a run is fixed by its seed
    context and the network. */
module Generation {
  import opened Results

  /** The trained network seen from outside: a score for every vocabulary
      index, given a context of indices. generate.py divides the whole
      context by the vocabulary size before `model.predict`, which a function
      of the indices can absorb. generate_music.py scales the seed part of
      its buffer twice and the appended indices once; that mixed scaling is
      not modelled, and its network is seen here as reading the plain
      indices. */
  type Predictor = seq<int> -> seq<real>

  /** `np.argmax`: the first index of a largest score. */
  function Argmax(scores: seq<real>): (k: nat)
    requires |scores| > 0
    ensures k < |scores|
    ensures forall j :: 0 <= j < |scores| ==> scores[j] <= scores[k]
    ensures forall j :: 0 <= j < k ==> scores[j] < scores[k]
    decreases |scores|
  {
    if |scores| == 1 then 0
    else
      var k := Argmax(scores[..|scores| - 1]);
      if scores[|scores| - 1] > scores[k] then |scores| - 1 else k
  }

  /** Ties go to the lowest index: no other index is a largest score with
      only smaller scores before it. */
  lemma ArgmaxUnique(scores: seq<real>, k: nat)
    requires k < |scores|
    requires forall j :: 0 <= j < |scores| ==> scores[j] <= scores[k]
    requires forall j :: 0 <= j < k ==> scores[j] < scores[k]
    ensures Argmax(scores) == k
  {
  }

  /** The rolling context, the indices chosen so far and their tokens. */
  datatype Session = Session(context: seq<int>, chosen: seq<int>, output: seq<string>)

  /** One pass of the loop body: predict, take the argmax, decode it with
      `int_to_note` (KeyError when it has no entry), append the token, and
      slide the context by appending the index and dropping the head. */
  function Step(predict: Predictor, intToNote: map<int, string>, s: Session): (r: Result<Session>)
    ensures r.Ok? ==> |r.value.context| == |s.context|
    ensures r.Ok? ==> |r.value.chosen| == |s.chosen| + 1 && r.value.chosen[..|s.chosen|] == s.chosen
    ensures r.Ok? ==> |r.value.output| == |s.output| + 1 && r.value.output[..|s.output|] == s.output
    ensures r.Ok? ==> r.value.chosen[|s.chosen|] in intToNote && r.value.output[|s.output|] == intToNote[r.value.chosen[|s.chosen|]]
    ensures r.Err? ==> r.failure.EmptyPrediction? || r.failure.KeyError?
  {
    var scores := predict(s.context);
    if |scores| == 0 then Err(EmptyPrediction)
    else
      var k := Argmax(scores);
      if k !in intToNote then Err(KeyError(k))
      else Ok(Session((s.context + [k])[1..], s.chosen + [k], s.output + [intToNote[k]]))
  }

  /** `for note_index in range(steps)`: the loop body repeated, stopping at
      the first exception. */
  function Run(predict: Predictor, intToNote: map<int, string>, s: Session, steps: nat): (r: Result<Session>)
    ensures r.Ok? ==> |r.value.context| == |s.context|
    ensures r.Ok? ==> |r.value.chosen| == |s.chosen| + steps
    ensures r.Ok? ==> |r.value.output| == |s.output| + steps
    ensures r.Err? ==> r.failure.EmptyPrediction? || r.failure.KeyError?
    decreases steps
  {
    if steps == 0 then Ok(s)
    else
      var next :- Step(predict, intToNote, s);
      Run(predict, intToNote, next, steps - 1)
  }

  /** Step i saw the |seed| indices before it in the stream `seed + chosen`,
      chose the first largest score, and output that index's token. */
  predicate ChosenAt(predict: Predictor, intToNote: map<int, string>, seed: seq<int>, chosen: seq<int>, output: seq<string>, i: int)
    requires 0 <= i < |chosen| && |output| == |chosen|
  {
    var scores := predict((seed + chosen)[i..i + |seed|]);
    |scores| > 0 && chosen[i] == Argmax(scores) && chosen[i] in intToNote && output[i] == intToNote[chosen[i]]
  }

  /** A session that started from `seed`: the context is the last |seed|
      indices of the stream, and every step so far chose as the loop does. */
  predicate FromSeed(predict: Predictor, intToNote: map<int, string>, seed: seq<int>, s: Session) {
    |s.output| == |s.chosen| &&
    s.context == (seed + s.chosen)[|s.chosen|..] &&
    forall i :: 0 <= i < |s.chosen| ==> ChosenAt(predict, intToNote, seed, s.chosen, s.output, i)
  }

  lemma StepFromSeed(predict: Predictor, intToNote: map<int, string>, seed: seq<int>, s: Session)
    requires FromSeed(predict, intToNote, seed, s)
    requires Step(predict, intToNote, s).Ok?
    ensures FromSeed(predict, intToNote, seed, Step(predict, intToNote, s).value)
  {
    var t := Step(predict, intToNote, s).value;
    var k := t.chosen[|s.chosen|];
    assert t.chosen == s.chosen + [k];
    var stream, stream' := seed + s.chosen, seed + t.chosen;
    assert stream' == stream + [k];
    assert t.context == stream'[|t.chosen|..];
    forall i | 0 <= i < |t.chosen|
      ensures ChosenAt(predict, intToNote, seed, t.chosen, t.output, i)
    {
      assert stream'[i..i + |seed|] == if i < |s.chosen| then stream[i..i + |seed|] else s.context;
      if i < |s.chosen| {
        assert ChosenAt(predict, intToNote, seed, s.chosen, s.output, i);
      }
    }
  }

  lemma {:induction false} RunFromSeed(predict: Predictor, intToNote: map<int, string>, seed: seq<int>, s: Session, steps: nat)
    requires FromSeed(predict, intToNote, seed, s)
    requires Run(predict, intToNote, s, steps).Ok?
    ensures FromSeed(predict, intToNote, seed, Run(predict, intToNote, s, steps).value)
    decreases steps
  {
    if steps > 0 {
      StepFromSeed(predict, intToNote, seed, s);
      RunFromSeed(predict, intToNote, seed, Step(predict, intToNote, s).value, steps - 1);
    }
  }

  /** What a successful run from a seed context produces: exactly `steps`
      tokens; the i-th index is the argmax of the network's scores for the
      window of the stream `seed + chosen` ending just before it; each token
      is that index decoded; the final context has the seed's length and is
      the last |seed| indices of the stream, which once `steps >= |seed|`
      are all generated ones. */
  lemma RunFromSeedProduces(predict: Predictor, intToNote: map<int, string>, seed: seq<int>, steps: nat)
    requires Run(predict, intToNote, Session(seed, [], []), steps).Ok?
    ensures var t := Run(predict, intToNote, Session(seed, [], []), steps).value;
      |t.chosen| == steps && |t.output| == steps && |t.context| == |seed| &&
      t.context == (seed + t.chosen)[steps..] &&
      (steps >= |seed| ==> t.context == t.chosen[steps - |seed|..]) &&
      forall i :: 0 <= i < steps ==> ChosenAt(predict, intToNote, seed, t.chosen, t.output, i)
  {
    var s := Session(seed, [], []);
    assert seed + [] == seed;
    RunFromSeed(predict, intToNote, seed, s, steps);
    var t := Run(predict, intToNote, s, steps).value;
    if steps >= |seed| {
      assert (seed + t.chosen)[steps..] == t.chosen[steps - |seed|..];
    }
  }

  /** The network always gives a non-empty score vector whose argmax
      `int_to_note` can decode. */
  ghost predicate AlwaysDecodes(predict: Predictor, intToNote: map<int, string>) {
    forall ctx :: |predict(ctx)| > 0 && Argmax(predict(ctx)) in intToNote
  }

  /** With such a network no step raises, whatever the number of steps. */
  lemma {:induction false} RunSucceeds(predict: Predictor, intToNote: map<int, string>, s: Session, steps: nat)
    requires AlwaysDecodes(predict, intToNote)
    ensures Run(predict, intToNote, s, steps).Ok?
    decreases steps
  {
    if steps > 0 {
      assert |predict(s.context)| > 0 && Argmax(predict(s.context)) in intToNote;
      RunSucceeds(predict, intToNote, Step(predict, intToNote, s).value, steps - 1);
    }
  }

  /** A network whose largest score is always at index `k` makes the run
      output the token of `k`, `steps` times. */
  lemma {:induction false} ConstantChoice(predict: Predictor, intToNote: map<int, string>, s: Session, steps: nat, k: nat)
    requires forall ctx :: |predict(ctx)| > 0 && Argmax(predict(ctx)) == k
    requires k in intToNote
    ensures Run(predict, intToNote, s, steps).Ok?
    ensures Run(predict, intToNote, s, steps).value.output == s.output + seq(steps, _ => intToNote[k])
    decreases steps
  {
    if steps > 0 {
      assert |predict(s.context)| > 0 && Argmax(predict(s.context)) == k;
      var next := Step(predict, intToNote, s).value;
      ConstantChoice(predict, intToNote, next, steps - 1, k);
      assert next.output + seq(steps - 1, _ => intToNote[k]) == s.output + seq(steps, _ => intToNote[k]);
    } else {
      assert s.output + [] == s.output;
    }
  }
}
