/** Sliding-window training pairs: every script turns a sequence into the
    pairs `(xs[i:i+L], xs[i+L])` for `i in range(len(xs) - L)`. */
module Windows {

  /** A context of consecutive items and the item that follows it. */
  datatype Window<T> = Window(context: seq<T>, target: T)

  /** How many windows of length `L` fit in `n` items: `len(range(n - L))`. */
  function WindowCount(n: nat, L: nat): nat {
    if n > L then n - L else 0
  }

  /** The pairs built by `for i in range(len(xs) - L)`, in order of `i`. */
  function Slide<T>(xs: seq<T>, L: nat): (ws: seq<Window<T>>)
    ensures |ws| == WindowCount(|xs|, L)
    ensures forall i :: 0 <= i < |ws| ==> ws[i] == Window(xs[i..i + L], xs[i + L])
  {
    seq(WindowCount(|xs|, L), i requires 0 <= i < WindowCount(|xs|, L) => Window(xs[i..i + L], xs[i + L]))
  }

  /** Every context holds exactly `L` items. */
  lemma SlideContextLength<T>(xs: seq<T>, L: nat)
    ensures forall w :: w in Slide(xs, L) ==> |w.context| == L
  {
    var ws := Slide(xs, L);
    forall w | w in ws
      ensures |w.context| == L
    {
      var i :| 0 <= i < |ws| && ws[i] == w;
    }
  }

  /** The network inputs: the context of every window, in order. */
  function Contexts<T>(ws: seq<Window<T>>): (xs: seq<seq<T>>)
    ensures |xs| == |ws|
    ensures forall i :: 0 <= i < |ws| ==> xs[i] == ws[i].context
  {
    seq(|ws|, i requires 0 <= i < |ws| => ws[i].context)
  }

  /** The network outputs: the target of every window, in order. */
  function Targets<T>(ws: seq<Window<T>>): (ys: seq<T>)
    ensures |ys| == |ws|
    ensures forall i :: 0 <= i < |ws| ==> ys[i] == ws[i].target
  {
    seq(|ws|, i requires 0 <= i < |ws| => ws[i].target)
  }

  /** Input `i` holds items `i .. i+L-1` and output `i` is item `i+L`. */
  lemma SlideColumns<T>(xs: seq<T>, L: nat)
    ensures var ws := Slide(xs, L);
      |Contexts(ws)| == |Targets(ws)| == WindowCount(|xs|, L) &&
      forall i :: 0 <= i < |ws| ==>
        |Contexts(ws)[i]| == L && Targets(ws)[i] == xs[i + L] &&
        forall j :: 0 <= j < L ==> Contexts(ws)[i][j] == xs[i + j]
  {
    var ws := Slide(xs, L);
    var cs, ts := Contexts(ws), Targets(ws);
    forall i | 0 <= i < |ws|
      ensures |cs[i]| == L && ts[i] == xs[i + L]
      ensures forall j :: 0 <= j < L ==> cs[i][j] == xs[i + j]
    {
      var c := xs[i..i + L];
      assert ws[i] == Window(c, xs[i + L]);
      assert cs[i] == c;
    }
  }

  /** Windows of each sequence in turn, none spanning two sequences. */
  function SlideEach<T>(groups: seq<seq<T>>, L: nat): (ws: seq<Window<T>>)
    decreases |groups|
  {
    if |groups| == 0 then []
    else SlideEach(groups[..|groups| - 1], L) + Slide(groups[|groups| - 1], L)
  }

  function TotalWindows<T>(groups: seq<seq<T>>, L: nat): nat
    decreases |groups|
  {
    if |groups| == 0 then 0
    else TotalWindows(groups[..|groups| - 1], L) + WindowCount(|groups[|groups| - 1]|, L)
  }

  /** `L` consecutive items of group `g` starting at `i`, and the next one. */
  ghost predicate WindowOf<T>(groups: seq<seq<T>>, L: nat, w: Window<T>, g: int, i: int) {
    0 <= g < |groups| && 0 <= i && i + L < |groups[g]| &&
    w == Window(groups[g][i..i + L], groups[g][i + L])
  }

  /** The window lies inside one of the groups. */
  ghost predicate InSomeGroup<T>(groups: seq<seq<T>>, L: nat, w: Window<T>) {
    exists g, i :: WindowOf(groups, L, w, g, i)
  }

  /** Every window is taken from inside one of the groups. */
  ghost predicate WithinGroups<T>(groups: seq<seq<T>>, L: nat, ws: seq<Window<T>>) {
    forall k :: 0 <= k < |ws| ==> InSomeGroup(groups, L, ws[k])
  }

  /** Each group of m items gives max(0, m - L) windows, and each window is
      taken from inside a single group. */
  lemma {:induction false} SlideEachWithinGroups<T>(groups: seq<seq<T>>, L: nat)
    ensures |SlideEach(groups, L)| == TotalWindows(groups, L)
    ensures WithinGroups(groups, L, SlideEach(groups, L))
    decreases |groups|
  {
    if |groups| > 0 {
      var n := |groups|;
      var front := groups[..n - 1];
      SlideEachWithinGroups(front, L);
      var ws := SlideEach(groups, L);
      var a := SlideEach(front, L);
      var b := Slide(groups[n - 1], L);
      assert ws == a + b;
      forall k | 0 <= k < |ws|
        ensures InSomeGroup(groups, L, ws[k])
      {
        if k < |a| {
          var g, i :| WindowOf(front, L, a[k], g, i);
          assert front[g] == groups[g];
          assert WindowOf(groups, L, ws[k], g, i);
        } else {
          assert ws[k] == b[k - |a|];
          assert WindowOf(groups, L, ws[k], n - 1, k - |a|);
        }
      }
    }
  }
}
