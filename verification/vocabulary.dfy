/** The token-to-index dictionaries of the scripts. A Python dict is modelled
    by its items in insertion order, which is what decides both where
    `d[t] = len(d)` puts a new token and which key wins when the dict is
    inverted. */
module Vocabulary {
  import opened Results
  import opened Ordering

  /** A dict from token to index, as its items in insertion order. */
  type Items = seq<(string, int)>

  /** Dict keys are unique. */
  predicate DistinctKeys(d: Items) {
    forall i, j :: 0 <= i < j < |d| ==> d[i].0 != d[j].0
  }

  function Keys(d: Items): set<string> {
    set i | 0 <= i < |d| :: d[i].0
  }

  function Values(d: Items): set<int> {
    set i | 0 <= i < |d| :: d[i].1
  }

  /** The i-th token inserted has index i: a bijection onto 0..|d|-1. */
  predicate Dense(d: Items) {
    DistinctKeys(d) && forall i :: 0 <= i < |d| ==> d[i].1 == i
  }

  lemma KeysOfPrefix(d: Items)
    requires |d| > 0
    ensures Keys(d) == Keys(d[..|d| - 1]) + {d[|d| - 1].0}
    ensures Values(d) == Values(d[..|d| - 1]) + {d[|d| - 1].1}
  {
    var p := d[..|d| - 1];
    forall t | t in Keys(d)
      ensures t in Keys(p) + {d[|d| - 1].0}
    {
      var i :| 0 <= i < |d| && d[i].0 == t;
      if i < |d| - 1 {
        assert p[i].0 == t;
      }
    }
    forall v | v in Values(d)
      ensures v in Values(p) + {d[|d| - 1].1}
    {
      var i :| 0 <= i < |d| && d[i].1 == v;
      if i < |d| - 1 {
        assert p[i].1 == v;
      }
    }
  }

  lemma KeysOfTail(d: Items)
    requires |d| > 0
    ensures Keys(d) == {d[0].0} + Keys(d[1..])
  {
    forall t | t in Keys(d)
      ensures t in {d[0].0} + Keys(d[1..])
    {
      var i :| 0 <= i < |d| && d[i].0 == t;
      if i > 0 {
        assert d[1..][i - 1].0 == t;
      }
    }
  }

  /** A dict has as many keys as items. */
  lemma {:induction false} KeysCardinality(d: Items)
    requires DistinctKeys(d)
    ensures |Keys(d)| == |d|
    decreases |d|
  {
    if |d| == 0 {
      assert Keys(d) == {};
    } else {
      var p := d[..|d| - 1];
      KeysOfPrefix(d);
      KeysCardinality(p);
      assert d[|d| - 1].0 !in Keys(p);
    }
  }

  /** `d[t]`, or `None` where Python raises KeyError. */
  function Get(d: Items, t: string): (r: Option<int>)
    ensures r.None? <==> t !in Keys(d)
    ensures DistinctKeys(d) ==> forall i :: 0 <= i < |d| && d[i].0 == t ==> r == Some(d[i].1)
    decreases |d|
  {
    if |d| == 0 then None
    else
      KeysOfTail(d);
      if d[0].0 == t then Some(d[0].1) else Get(d[1..], t)
  }

  /** `{t: i for i, t in enumerate(ts)}` for tokens `ts` without repeats. */
  function Enumerate(ts: seq<string>): (d: Items)
    ensures |d| == |ts|
    ensures forall i :: 0 <= i < |ts| ==> d[i] == (ts[i], i)
  {
    seq(|ts|, i requires 0 <= i < |ts| => (ts[i], i))
  }

  /** The fresh vocabulary `{t: i for i, t in enumerate(sorted(set(tokens)))}`:
      the distinct tokens numbered 0..N-1 in ascending string order. */
  function Build(tokens: seq<string>): (d: Items)
    ensures Dense(d)
    ensures forall t :: t in Keys(d) <==> t in tokens
    ensures forall i, j :: 0 <= i < j < |d| ==> Below(d[i].0, d[j].0)
  {
    var names := SortedSet(tokens);
    SortedDistinct(names);
    var d := Enumerate(names);
    assert forall t :: t in Keys(d) ==> t in names;
    assert forall i :: 0 <= i < |names| ==> names[i] == d[i].0;
    d
  }

  /** Indices follow string order: a token sorts before another exactly when
      its index is smaller. */
  lemma BuildFollowsStringOrder(tokens: seq<string>, t: string, u: string)
    requires t in tokens && u in tokens
    ensures var d := Build(tokens);
      Get(d, t).Some? && Get(d, u).Some? &&
      (Below(t, u) <==> Get(d, t).value < Get(d, u).value)
  {
    var d := Build(tokens);
    var i :| 0 <= i < |d| && d[i].0 == t;
    var j :| 0 <= j < |d| && d[j].0 == u;
    assert Get(d, t) == Some(i) && Get(d, u) == Some(j);
    if Below(t, u) {
      if i == j {
        BelowIrreflexive(t);
      } else if j < i {
        BelowAsymmetric(u, t);
      }
    }
  }

  function KeySeq(d: Items): (ks: seq<string>)
    ensures |ks| == |d|
    ensures forall i :: 0 <= i < |d| ==> ks[i] == d[i].0
  {
    seq(|d|, i requires 0 <= i < |d| => d[i].0)
  }

  /** The fresh vocabulary is the only dense dict over the tokens whose
      indices follow string order; so building it twice from the same tokens,
      in whatever order they come, gives the same dict. */
  lemma BuildCanonical(tokens: seq<string>, d: Items)
    requires Dense(d)
    requires forall t :: t in Keys(d) <==> t in tokens
    requires forall i, j :: 0 <= i < j < |d| ==> Below(d[i].0, d[j].0)
    ensures d == Build(tokens)
  {
    var b := Build(tokens);
    var ks, bs := KeySeq(d), KeySeq(b);
    forall t
      ensures t in ks <==> t in bs
    {
      if t in ks {
        var i :| 0 <= i < |ks| && ks[i] == t;
        assert t in Keys(d);
        var j :| 0 <= j < |b| && b[j].0 == t;
        assert bs[j] == t;
      }
      if t in bs {
        var i :| 0 <= i < |bs| && bs[i] == t;
        assert t in Keys(b);
        var j :| 0 <= j < |d| && d[j].0 == t;
        assert ks[j] == t;
      }
    }
    SortedUnique(ks, bs);
    assert |d| == |b|;
    forall i | 0 <= i < |d|
      ensures d[i] == b[i]
    {
      assert ks[i] == bs[i];
    }
  }

  /** generate_music.py's extension of a loaded dict: every name not yet a key
      is added with index `len(d)` at the time of insertion. */
  function Extend(d: Items, names: seq<string>): (r: Items)
    requires DistinctKeys(d)
    ensures DistinctKeys(r)
    ensures |d| <= |r| && r[..|d|] == d
    ensures Keys(r) == Keys(d) + set t | t in names
    ensures forall i :: |d| <= i < |r| ==> r[i].1 == i && r[i].0 in names && r[i].0 !in Keys(d)
    ensures Dense(d) ==> Dense(r)
    decreases |names|
  {
    if |names| == 0 then d
    else if names[0] in Keys(d) then
      assert (set t | t in names) == {names[0]} + set t | t in names[1..];
      Extend(d, names[1..])
    else
      var d' := d + [(names[0], |d|)];
      AppendNewKey(d, names[0]);
      var r := Extend(d', names[1..]);
      ExtendNewHead(d, names, r);
      r
  }

  /** The step of `Extend` that adds `names[0]`: what the rest of the names
      give for the grown dict carries over to `d`. */
  lemma ExtendNewHead(d: Items, names: seq<string>, r: Items)
    requires DistinctKeys(d) && |names| > 0 && names[0] !in Keys(d)
    requires var d' := d + [(names[0], |d|)];
      DistinctKeys(r) && |d'| <= |r| && r[..|d'|] == d' &&
      Keys(r) == Keys(d') + (set t | t in names[1..]) &&
      (forall i :: |d'| <= i < |r| ==> r[i].1 == i && r[i].0 in names[1..] && r[i].0 !in Keys(d')) &&
      (Dense(d') ==> Dense(r))
    ensures |d| <= |r| && r[..|d|] == d
    ensures Keys(r) == Keys(d) + set t | t in names
    ensures forall i :: |d| <= i < |r| ==> r[i].1 == i && r[i].0 in names && r[i].0 !in Keys(d)
    ensures Dense(d) ==> Dense(r)
  {
    var d' := d + [(names[0], |d|)];
    AppendNewKey(d, names[0]);
    assert (set t | t in names) == {names[0]} + set t | t in names[1..];
    assert r[..|d|] == r[..|d'|][..|d|];
    assert r[|d|] == r[..|d'|][|d|];
    assert forall t :: t in names[1..] ==> t in names;
  }

  /** `d[t] = len(d)` for a new key `t`. */
  lemma AppendNewKey(d: Items, t: string)
    requires DistinctKeys(d) && t !in Keys(d)
    ensures var d' := d + [(t, |d|)];
      DistinctKeys(d') && d'[..|d|] == d && d'[|d|] == (t, |d|) &&
      Keys(d') == Keys(d) + {t} && (Dense(d) ==> Dense(d'))
  {
    var d' := d + [(t, |d|)];
    KeysOfPrefix(d');
    assert d'[..|d'| - 1] == d;
  }

  /** The items from position `k` on have keys in ascending string order. */
  predicate AppendedInOrder(k: nat, r: Items) {
    forall i, j :: k <= i < j < |r| ==> Below(r[i].0, r[j].0)
  }

  /** New tokens are appended in the order given; with the names sorted, as
      `sorted(set(notes))` leaves them, they are appended in string order. */
  lemma {:induction false} ExtendAppendsInOrder(d: Items, names: seq<string>)
    requires DistinctKeys(d) && StrictlySorted(names)
    ensures AppendedInOrder(|d|, Extend(d, names))
    decreases |names|
  {
    if |names| > 0 {
      assert StrictlySorted(names[1..]);
      if names[0] in Keys(d) {
        ExtendAppendsInOrder(d, names[1..]);
        assert Extend(d, names) == Extend(d, names[1..]);
      } else {
        var d' := d + [(names[0], |d|)];
        KeysOfPrefix(d');
        ExtendAppendsInOrder(d', names[1..]);
        NewHeadBelowAppended(d, names);
        var r := Extend(d, names);
        forall i, j | |d| <= i < j < |r|
          ensures Below(r[i].0, r[j].0)
        {
          if i == |d| {
            assert r[i].0 == names[0];
          }
        }
      }
    }
  }

  /** When the first name is new it is appended first, below the names that
      follow it. */
  lemma NewHeadBelowAppended(d: Items, names: seq<string>)
    requires DistinctKeys(d) && StrictlySorted(names)
    requires |names| > 0 && names[0] !in Keys(d)
    ensures var d' := d + [(names[0], |d|)];
      DistinctKeys(d') &&
      Extend(d, names) == Extend(d', names[1..]) &&
      Extend(d, names)[|d|].0 == names[0] &&
      forall j :: |d'| <= j < |Extend(d, names)| ==> Below(names[0], Extend(d, names)[j].0)
  {
    var d' := d + [(names[0], |d|)];
    KeysOfPrefix(d');
    HeadIsLeast(names);
    AppendedAbove(d', names[1..], names[0]);
    var r := Extend(d', names[1..]);
    assert r[|d|] == d'[|d|] by {
      assert r[..|d'|] == d';
    }
  }

  lemma AppendedAbove(d: Items, names: seq<string>, x: string)
    requires DistinctKeys(d)
    requires forall t :: t in names ==> Below(x, t)
    ensures forall j :: |d| <= j < |Extend(d, names)| ==> Below(x, Extend(d, names)[j].0)
  {
  }

  /** A token that was already loaded keeps its index. */
  lemma ExtendKeepsIndices(d: Items, names: seq<string>, t: string)
    requires DistinctKeys(d) && t in Keys(d)
    ensures Get(Extend(d, names), t) == Get(d, t)
  {
    var r := Extend(d, names);
    var i :| 0 <= i < |d| && d[i].0 == t;
    assert r[i] == r[..|d|][i];
  }

  /** Extension adds exactly the names that were not yet keys: a dense dict of
      size k extended by m unseen names is dense of size k + m. */
  lemma ExtendSize(d: Items, names: seq<string>)
    requires DistinctKeys(d)
    ensures |Extend(d, names)| == |d| + |(set t | t in names) - Keys(d)|
  {
    var r := Extend(d, names);
    var s := set t | t in names;
    KeysCardinality(d);
    KeysCardinality(r);
    assert Keys(r) == Keys(d) + (s - Keys(d));
    assert Keys(d) !! (s - Keys(d));
  }

  /** Item i is the last one carrying its value. */
  predicate LastWithValue(d: Items, i: int)
    requires 0 <= i < |d|
  {
    forall j :: i < j < |d| ==> d[j].1 != d[i].1
  }

  /** `{v: k for k, v in d.items()}`: a later item overwrites an earlier one
      that carries the same value. */
  function Invert(d: Items): (inv: map<int, string>)
    ensures inv.Keys == Values(d)
    decreases |d|
  {
    if |d| == 0 then map[]
    else
      KeysOfPrefix(d);
      Invert(d[..|d| - 1])[d[|d| - 1].1 := d[|d| - 1].0]
  }

  /** Each value maps back to the key of the last item that carries it. */
  lemma {:induction false} InvertLastWins(d: Items, i: int)
    requires 0 <= i < |d| && LastWithValue(d, i)
    ensures d[i].1 in Invert(d) && Invert(d)[d[i].1] == d[i].0
    decreases |d|
  {
    if i < |d| - 1 {
      var p := d[..|d| - 1];
      assert d[|d| - 1].1 != d[i].1;
      assert LastWithValue(p, i) by {
        forall j | i < j < |p|
          ensures p[j].1 != p[i].1
        {
          assert p[j] == d[j];
        }
      }
      InvertLastWins(p, i);
    }
  }

  /** The inverse of a dense dict maps every index 0..|d|-1 back to its
      token and has no other entry, so decoding an encoded token gives the
      token back. */
  lemma InvertDense(d: Items)
    requires Dense(d)
    ensures forall v :: v in Invert(d) <==> 0 <= v < |d|
    ensures forall i :: 0 <= i < |d| ==> Invert(d)[i] == d[i].0
    ensures forall t :: t in Keys(d) ==> Get(d, t).Some? && Invert(d)[Get(d, t).value] == t
  {
    forall i | 0 <= i < |d|
      ensures i in Invert(d) && Invert(d)[i] == d[i].0
    {
      InvertLastWins(d, i);
    }
  }

  /** `{i: t for i, t in enumerate(ts)}`. */
  function IndexTable(ts: seq<string>): (m: map<int, string>)
    ensures forall i :: i in m <==> 0 <= i < |ts|
    ensures forall i :: 0 <= i < |ts| ==> m[i] == ts[i]
  {
    map i | 0 <= i < |ts| :: ts[i]
  }

  /** Inverting the enumeration of `ts` gives the index table of `ts`:
      generate.py's `int_to_note` and music.py's `idx2token` are the same map. */
  lemma InvertEnumerate(ts: seq<string>)
    ensures Invert(Enumerate(ts)) == IndexTable(ts)
  {
    var d := Enumerate(ts);
    var table := IndexTable(ts);
    forall i | 0 <= i < |d|
      ensures i in Invert(d) && Invert(d)[i] == table[i]
    {
      InvertLastWins(d, i);
    }
    assert Invert(d).Keys == table.Keys;
  }

  /** `[d[t] for t in ts]` where every token is a key. */
  function Encode(d: Items, ts: seq<string>): (r: seq<int>)
    requires forall i :: 0 <= i < |ts| ==> ts[i] in Keys(d)
    ensures |r| == |ts|
    ensures forall i :: 0 <= i < |ts| ==> Get(d, ts[i]) == Some(r[i])
  {
    seq(|ts|, i requires 0 <= i < |ts| => Get(d, ts[i]).value)
  }

  /** Encoding with the fresh vocabulary and decoding with its inverse gives
      the tokens back, and every index is below the vocabulary size. */
  lemma {:induction false} EncodeDecode(tokens: seq<string>, ts: seq<string>)
    requires forall i :: 0 <= i < |ts| ==> ts[i] in tokens
    ensures var d := Build(tokens);
      (forall i :: 0 <= i < |ts| ==> ts[i] in Keys(d)) &&
      var ks := Encode(d, ts);
      forall i :: 0 <= i < |ts| ==> 0 <= ks[i] < |d| && ks[i] in Invert(d) && Invert(d)[ks[i]] == ts[i]
  {
    var d := Build(tokens);
    InvertDense(d);
    var ks := Encode(d, ts);
    forall i | 0 <= i < |ts|
      ensures 0 <= ks[i] < |d|
    {
      GetFindsItem(d, ts[i]);
      var j :| 0 <= j < |d| && d[j] == (ts[i], Get(d, ts[i]).value);
    }
  }

  /** music.py's `[token2idx[t] for t in toks if t in token2idx]`: unknown
      tokens are dropped before indexing. */
  function EncodeKnown(d: Items, ts: seq<string>): (r: seq<int>)
    ensures |r| <= |ts|
    ensures forall k :: 0 <= k < |r| ==> r[k] in Values(d)
    decreases |ts|
  {
    if |ts| == 0 then []
    else
      GetFindsItem(d, ts[0]);
      match Get(d, ts[0])
      case Some(v) => [v] + EncodeKnown(d, ts[1..])
      case None => EncodeKnown(d, ts[1..])
  }

  /** Encoding a known token followed by more tokens. */
  lemma EncodeCons(d: Items, t: string, ts: seq<string>)
    requires t in Keys(d)
    requires forall i :: 0 <= i < |ts| ==> ts[i] in Keys(d)
    ensures Encode(d, [t] + ts) == [Get(d, t).value] + Encode(d, ts)
  {
    var l, r := Encode(d, [t] + ts), [Get(d, t).value] + Encode(d, ts);
    forall i | 0 <= i < |l|
      ensures l[i] == r[i]
    {
      if i > 0 {
        assert ([t] + ts)[i] == ts[i - 1];
      }
    }
  }

  /** The tokens of `ts` that are keys of `d`, in their order in `ts`. */
  function KnownTokens(d: Items, ts: seq<string>): (r: seq<string>)
    ensures |r| <= |ts|
    ensures forall i :: 0 <= i < |r| ==> r[i] in Keys(d)
    ensures forall t :: t in r <==> t in ts && t in Keys(d)
    decreases |ts|
  {
    if |ts| == 0 then []
    else if ts[0] in Keys(d) then [ts[0]] + KnownTokens(d, ts[1..])
    else KnownTokens(d, ts[1..])
  }

  /** Dropping the unknown tokens while indexing is the same as keeping the
      known tokens in order and encoding them. */
  lemma {:induction false} EncodeKnownFilters(d: Items, ts: seq<string>)
    ensures EncodeKnown(d, ts) == Encode(d, KnownTokens(d, ts))
    decreases |ts|
  {
    if |ts| > 0 {
      EncodeKnownFilters(d, ts[1..]);
      var rest := KnownTokens(d, ts[1..]);
      if ts[0] in Keys(d) {
        var v := Get(d, ts[0]).value;
        calc {
          EncodeKnown(d, ts);
          [v] + EncodeKnown(d, ts[1..]);
          [v] + Encode(d, rest);
          { EncodeCons(d, ts[0], rest); }
          Encode(d, [ts[0]] + rest);
          Encode(d, KnownTokens(d, ts));
        }
      } else {
        calc {
          EncodeKnown(d, ts);
          EncodeKnown(d, ts[1..]);
          Encode(d, rest);
          Encode(d, KnownTokens(d, ts));
        }
      }
    }
  }

  lemma {:induction false} GetFindsItem(d: Items, t: string)
    ensures Get(d, t).Some? ==> exists i :: 0 <= i < |d| && d[i] == (t, Get(d, t).value)
    decreases |d|
  {
    if |d| > 0 && d[0].0 != t {
      GetFindsItem(d[1..], t);
      if Get(d, t).Some? {
        var i :| 0 <= i < |d[1..]| && d[1..][i] == (t, Get(d, t).value);
        assert d[i + 1] == (t, Get(d, t).value);
      }
    }
  }

  /** When every token is known nothing is dropped. */
  lemma {:induction false} EncodeKnownAllKnown(d: Items, ts: seq<string>)
    requires forall i :: 0 <= i < |ts| ==> ts[i] in Keys(d)
    ensures EncodeKnown(d, ts) == Encode(d, ts)
    decreases |ts|
  {
    if |ts| > 0 {
      EncodeKnownAllKnown(d, ts[1..]);
    }
  }
}
