/** Recurrent layer states as folds over a token history.

    A temporal (SSM / linear attention) state is the fold of an arbitrary step
    function.  A conv state is the window of the last `width` inputs, which is the
    fold of a shift. */
module Recurrence {

  /** The state after consuming `toks` from state `s`. */
  function Fold<S>(step: (S, int) -> S, s: S, toks: seq<int>): S {
    if toks == [] then s
    else step(Fold(step, s, toks[..|toks| - 1]), toks[|toks| - 1])
  }

  lemma {:induction false} FoldConcat<S>(step: (S, int) -> S, s: S, a: seq<int>, b: seq<int>)
    ensures Fold(step, s, a + b) == Fold(step, Fold(step, s, a), b)
    decreases |b|
  {
    if b == [] {
      assert a + b == a;
    } else {
      var m := |b| - 1;
      assert (a + b)[..|a + b| - 1] == a + b[..m];
      FoldConcat(step, s, a, b[..m]);
    }
  }

  lemma FoldEmpty<S>(step: (S, int) -> S, s: S)
    ensures Fold(step, s, []) == s
  {}

  function Zeros(n: nat): (z: seq<int>)
    ensures |z| == n
  {
    seq(n, _ => 0)
  }

  /** The last `width` inputs after `toks`, starting from an all-zero window. */
  function Window(width: nat, toks: seq<int>): (w: seq<int>)
    ensures |w| == width
  {
    (Zeros(width) + toks)[|toks|..]
  }

  /** Entry by entry: the last inputs, and 0 where there were none yet. */
  lemma WindowAt(width: nat, toks: seq<int>, j: nat)
    requires j < width
    ensures Window(width, toks)[j] == if j + |toks| >= width then toks[j + |toks| - width] else 0
  {}

  lemma WindowEmpty(width: nat)
    ensures Window(width, []) == Zeros(width)
  {}

  /** Reading `width` entries `k` places into `Window(hist) + toks` gives the window after `k` more tokens. */
  lemma WindowSlides(width: nat, hist: seq<int>, toks: seq<int>, k: nat)
    requires k <= |toks|
    ensures (Window(width, hist) + toks)[k..k + width] == Window(width, hist + toks[..k])
  {
    var z := Zeros(width);
    assert z + (hist + toks[..k]) == (z + hist) + toks[..k];
    assert Window(width, hist) + toks == (z + hist + toks)[|hist|..];
  }
}
