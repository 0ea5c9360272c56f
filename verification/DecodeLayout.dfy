/** Layouts of a decode batch: flat tokens, the padded grid of requests by tokens, and the
    flattened per-token metadata. */
module DecodeLayout {
  import Arith

  /** First flat index of request b; of all requests together it is the number of tokens. */
  function Offset(lens: seq<nat>, b: nat): nat
    requires b <= |lens|
  {
    if b == 0 then 0 else Offset(lens, b - 1) + lens[b - 1]
  }

  function Total(lens: seq<nat>): nat {
    Offset(lens, |lens|)
  }

  /** The flat index of token t of request b. */
  function Flat(lens: seq<nat>, b: nat, t: nat): nat
    requires b < |lens|
  {
    Offset(lens, b) + t
  }

  /** torch.repeat_interleave over the first n entries. */
  function RepeatFirst<T>(xs: seq<T>, lens: seq<nat>, n: nat): (r: seq<T>)
    requires n <= |xs| == |lens|
    ensures |r| == Offset(lens, n)
  {
    if n == 0 then [] else RepeatFirst(xs, lens, n - 1) + seq(lens[n - 1], i => xs[n - 1])
  }

  function Repeat<T>(xs: seq<T>, lens: seq<nat>): (r: seq<T>)
    requires |xs| == |lens|
    ensures |r| == Total(lens)
  {
    RepeatFirst(xs, lens, |xs|)
  }

  lemma {:induction false} OffsetGrows(lens: seq<nat>, a: nat, b: nat)
    requires a <= b <= |lens|
    ensures Offset(lens, a) <= Offset(lens, b)
    decreases b
  {
    if a < b {
      OffsetGrows(lens, a, b - 1);
    }
  }

  lemma Within(lens: seq<nat>, b: nat, t: nat)
    requires b < |lens| && t < lens[b]
    ensures Offset(lens, b) + t < Total(lens)
  {
    OffsetGrows(lens, b + 1, |lens|);
  }

  /** Token t of request b repeats the entry of request b. */
  lemma {:induction false} RepeatAt<T>(xs: seq<T>, lens: seq<nat>, n: nat, b: nat, t: nat)
    requires b < n <= |xs| == |lens| && t < lens[b]
    ensures Offset(lens, b) + t < Offset(lens, n) && RepeatFirst(xs, lens, n)[Offset(lens, b) + t] == xs[b]
    decreases n
  {
    if b < n - 1 {
      RepeatAt(xs, lens, n - 1, b, t);
    }
  }

  /** Every flat token belongs to a request. */
  lemma {:induction false} RequestOf(lens: seq<nat>, n: nat, i: nat) returns (b: nat, t: nat)
    requires n <= |lens| && i < Offset(lens, n)
    ensures b < n && t < lens[b] && i == Offset(lens, b) + t
    decreases n
  {
    if i < Offset(lens, n - 1) {
      b, t := RequestOf(lens, n - 1, i);
    } else {
      b, t := n - 1, i - Offset(lens, n - 1);
    }
  }

  // ---- Scatter into the padded grid ---------------------------------------------------------------

  function Arange(n: nat): seq<nat> {
    seq(n, i => i)
  }

  function Starts(lens: seq<nat>): seq<nat> {
    seq(|lens|, b requires 0 <= b < |lens| => Offset(lens, b))
  }

  datatype Scatter = Scatter(reqId: seq<nat>, intra: seq<int>)

  /** _build_decode_scatter_indices. */
  function BuildScatter(lens: seq<nat>): (s: Scatter)
    ensures |s.reqId| == |s.intra| == Total(lens)
  {
    var starts := Repeat(Starts(lens), lens);
    Scatter(Repeat(Arange(|lens|), lens), seq(Total(lens), i requires 0 <= i < Total(lens) => i - starts[i]))
  }

  /** Flat token offset_b + t goes to row b, column t. */
  lemma ScatterAt(lens: seq<nat>, b: nat, t: nat)
    requires b < |lens| && t < lens[b]
    ensures Offset(lens, b) + t < Total(lens)
    ensures BuildScatter(lens).reqId[Offset(lens, b) + t] == b && BuildScatter(lens).intra[Offset(lens, b) + t] == t
  {
    RepeatAt(Arange(|lens|), lens, |lens|, b, t);
    RepeatAt(Starts(lens), lens, |lens|, b, t);
  }

  /** A grid cell as the layout defines it. */
  function Cell<T>(tokens: seq<T>, pad: T, lens: seq<nat>, b: nat, t: nat): T
    requires |tokens| == Total(lens) && b < |lens|
  {
    if t < lens[b] then
      Within(lens, b, t);
      tokens[Offset(lens, b) + t]
    else pad
  }

  predicate Fits(lens: seq<nat>, lmax: nat) {
    forall b | 0 <= b < |lens| :: lens[b] <= lmax
  }

  /** _scatter_decode_tokens_by_request. */
  method ScatterDecodeTokens<T(0)>(tokens: seq<T>, pad: T, lens: seq<nat>, lmax: nat) returns (out: array2<T>)
    requires |tokens| == Total(lens) && Fits(lens, lmax)
    ensures fresh(out) && out.Length0 == |lens| && out.Length1 == lmax
    ensures forall b, t | 0 <= b < |lens| && 0 <= t < lmax :: out[b, t] == Cell(tokens, pad, lens, b, t)
  {
    var s := BuildScatter(lens);
    out := new T[|lens|, lmax]((b, t) => pad);
    for i := 0 to |tokens|
      invariant forall b, t | 0 <= b < |lens| && 0 <= t < lmax ::
        out[b, t] == if t < lens[b] && Flat(lens, b, t) < i then Cell(tokens, pad, lens, b, t) else pad
    {
      ghost var b, t := RequestOf(lens, |lens|, i);
      ScatterAt(lens, b, t);
      out[s.reqId[i], s.intra[i]] := tokens[i];
      forall a, u | 0 <= a < |lens| && 0 <= u < lens[a] && Flat(lens, a, u) == i
        ensures a == b && u == t
      {
        SameToken(lens, a, u, b, t);
      }
    }
    forall b, t | 0 <= b < |lens| && 0 <= t < lens[b]
      ensures Flat(lens, b, t) < |tokens|
    {
      Within(lens, b, t);
    }
  }

  /** A flat index determines its request and position. */
  lemma SameToken(lens: seq<nat>, a: nat, t: nat, b: nat, u: nat)
    requires a < |lens| && b < |lens| && t < lens[a] && u < lens[b] && Flat(lens, a, t) == Flat(lens, b, u)
    ensures a == b && t == u
  {
    if a < b {
      OffsetGrows(lens, a + 1, b);
    } else if b < a {
      OffsetGrows(lens, b + 1, a);
    }
  }

  /** Reading a grid back in request order. */
  function Unpack<T>(cell: (nat, nat) -> T, lens: seq<nat>, n: nat): (r: seq<T>)
    requires n <= |lens|
    ensures |r| == Offset(lens, n)
  {
    if n == 0 then [] else Unpack(cell, lens, n - 1) + seq(lens[n - 1], t requires 0 <= t => cell(n - 1, t))
  }

  /** Unpacking undoes the scatter, whatever the decode lengths. */
  lemma {:induction false} UnpackScatter<T>(tokens: seq<T>, pad: T, lens: seq<nat>, n: nat)
    requires |tokens| == Total(lens) && n <= |lens| && Offset(lens, n) <= Total(lens)
    ensures Unpack((b: nat, t: nat) => if b < |lens| then Cell(tokens, pad, lens, b, t) else pad, lens, n)
        == tokens[..Offset(lens, n)]
    decreases n
  {
    if n > 0 {
      UnpackScatter(tokens, pad, lens, n - 1);
      var cell := (b: nat, t: nat) => if b < |lens| then Cell(tokens, pad, lens, b, t) else pad;
      var row := seq(lens[n - 1], t requires 0 <= t => cell(n - 1, t));
      assert row == tokens[Offset(lens, n - 1)..Offset(lens, n)];
    }
  }

  // ---- Token lengths of the selection rows ------------------------------------------------------------

  /** _decode_topk_seq_lens: length of row r of the [batch, nextN] grid.  The decode tokens come first in
      positions; the padded layout scatters them with -1 and adds 1, the shortcut slices. */
  function TopkSeqLen(positions: seq<nat>, lens: seq<nat>, nextN: nat, padding: bool, r: nat): int
    requires nextN > 0 && |positions| >= Total(lens) && r < |lens| * nextN && (!padding ==> r < |positions|)
  {
    if !padding then positions[r] + 1
    else
      RowInside(r, |lens|, nextN);
      Cell<int>(positions[..Total(lens)], -1, lens, r / nextN, r % nextN) + 1
  }

  lemma RowInside(r: nat, n: nat, w: nat)
    requires w > 0 && r < n * w
    ensures r / w < n
  {
    Arith.DivBounds(r, w);
    if r / w >= n {
      Arith.MulLe(n, r / w, w);
    }
  }

  /** A real row has one more than its own token's position, a padded row has length 0. */
  lemma TopkLenIs(positions: seq<nat>, lens: seq<nat>, nextN: nat, b: nat, t: nat)
    requires nextN > 0 && |positions| >= Total(lens) && b < |lens| && t < nextN
    ensures 0 <= b * nextN + t < |lens| * nextN
    ensures t < lens[b] ==> Flat(lens, b, t) < |positions|
    ensures TopkSeqLen(positions, lens, nextN, true, b * nextN + t)
         == if t < lens[b] then positions[Flat(lens, b, t)] + 1 else 0
    ensures b * nextN + t < |positions| ==>
              TopkSeqLen(positions, lens, nextN, false, b * nextN + t) == positions[b * nextN + t] + 1
  {
    Arith.MulLe(b + 1, |lens|, nextN);
    Arith.MulLe(0, b, nextN);
    Arith.Split(b, t, nextN);
    if t < lens[b] {
      Within(lens, b, t);
    }
  }

  predicate Uniform(lens: seq<nat>, w: nat) {
    forall b | 0 <= b < |lens| :: lens[b] == w
  }

  lemma {:induction false} UniformOffset(lens: seq<nat>, w: nat, b: nat)
    requires Uniform(lens, w) && b <= |lens|
    ensures Offset(lens, b) == b * w
  {
    if b > 0 {
      UniformOffset(lens, w, b - 1);
      assert b * w == (b - 1) * w + w;
    }
  }

  /** On a uniform batch the shortcut and the padded layout give every row the same length. */
  lemma TopkLensAlike(positions: seq<nat>, lens: seq<nat>, nextN: nat, r: nat)
    requires nextN > 0 && |positions| >= Total(lens) && Uniform(lens, nextN) && r < |lens| * nextN
    ensures r < |positions|
    ensures TopkSeqLen(positions, lens, nextN, true, r) == TopkSeqLen(positions, lens, nextN, false, r)
  {
    RowInside(r, |lens|, nextN);
    UniformOffset(lens, nextN, |lens|);
    UniformOffset(lens, nextN, r / nextN);
    Arith.Whole(r, nextN);
    Within(lens, r / nextN, r % nextN);
  }

  /** The two layouts have the same rows with the same lengths if and only if the batch is uniform. */
  lemma ShortcutExactly(positions: seq<nat>, lens: seq<nat>, nextN: nat)
    requires nextN > 0 && |positions| >= Total(lens) && Fits(lens, nextN)
    ensures (forall r: nat | r < |lens| * nextN :: SameLen(positions, lens, nextN, r)) <==> Uniform(lens, nextN)
  {
    if Uniform(lens, nextN) {
      forall r: nat | r < |lens| * nextN
        ensures SameLen(positions, lens, nextN, r)
      {
        TopkLensAlike(positions, lens, nextN, r);
      }
    } else {
      var b: nat :| b < |lens| && lens[b] != nextN;
      var r := b * nextN + (nextN - 1);
      Arith.Split(b, nextN - 1, nextN);
      Arith.MulLe(b + 1, |lens|, nextN);
      Arith.MulLe(0, b, nextN);
      assert !SameLen(positions, lens, nextN, r);
    }
  }

  ghost predicate SameLen(positions: seq<nat>, lens: seq<nat>, nextN: nat, r: nat)
    requires nextN > 0 && |positions| >= Total(lens) && r < |lens| * nextN
  {
    r < |positions| && TopkSeqLen(positions, lens, nextN, true, r) == TopkSeqLen(positions, lens, nextN, false, r)
  }

  /** The shortcut reads a row's own token if and only if every request before it is full: past the first
      shorter request every row reads another token. */
  lemma ShortcutAligned(lens: seq<nat>, nextN: nat, b: nat, t: nat)
    requires Fits(lens, nextN) && b < |lens| && t < lens[b]
    ensures Offset(lens, b) <= b * nextN
    ensures Flat(lens, b, t) == b * nextN + t <==> forall a | 0 <= a < b :: lens[a] == nextN
  {
    OffsetShort(lens, nextN, b);
  }

  lemma {:induction false} OffsetShort(lens: seq<nat>, w: nat, b: nat)
    requires Fits(lens, w) && b <= |lens|
    ensures Offset(lens, b) <= b * w
    ensures Offset(lens, b) == b * w <==> forall a | 0 <= a < b :: lens[a] == w
  {
    if b > 0 {
      OffsetShort(lens, w, b - 1);
      assert b * w == (b - 1) * w + w;
    }
  }

  // ---- Flattened per-token metadata --------------------------------------------------------------------

  /** The variable path: per-token lengths by one repeat_interleave. */
  function VariableLens(seqLens: seq<nat>, lens: seq<nat>): seq<int>
    requires |seqLens| == |lens|
  {
    var base := seq(|lens|, b requires 0 <= b < |lens| => seqLens[b] - lens[b] - Offset(lens, b));
    var expanded := Repeat(base, lens);
    seq(Total(lens), i requires 0 <= i < Total(lens) => expanded[i] + i + 1)
  }

  function VariableTable<T>(table: seq<T>, lens: seq<nat>): seq<T>
    requires |table| == |lens|
  {
    Repeat(table, lens)
  }

  /** Each flat token sees its request's context up to and including itself, through its own row. */
  lemma VariableAt<T>(seqLens: seq<nat>, table: seq<T>, lens: seq<nat>, b: nat, t: nat)
    requires |seqLens| == |table| == |lens| && b < |lens| && t < lens[b]
    ensures Offset(lens, b) + t < Total(lens)
    ensures VariableLens(seqLens, lens)[Offset(lens, b) + t] == seqLens[b] - lens[b] + t + 1
    ensures VariableTable(table, lens)[Offset(lens, b) + t] == table[b]
  {
    RepeatAt(seq(|lens|, b requires 0 <= b < |lens| => seqLens[b] - lens[b] - Offset(lens, b)), lens, |lens|, b, t);
    RepeatAt(table, lens, |lens|, b, t);
  }

  /** _prepare_uniform_decode_kernel over all tokens. */
  method UniformDecode<T(0)>(seqLens: seq<nat>, table: seq<T>, maxLen: nat) returns (outLens: array<int>,
                         outTable: array<T>)
    requires maxLen > 0 && |seqLens| == |table|
    ensures forall lens: seq<nat> | |lens| == |seqLens| && Uniform(lens, maxLen) ::
              outLens[..] == VariableLens(seqLens, lens) && outTable[..] == VariableTable(table, lens)
  {
    var n := |seqLens| * maxLen;
    outLens, outTable := new int[n], new T[n];
    for idx := 0 to n
      invariant forall i | 0 <= i < idx :: UniformEntry(seqLens, maxLen, i, outLens[i])
      invariant forall i | 0 <= i < idx :: UniformRow(table, maxLen, i, outTable[i])
    {
      RowInside(idx, |seqLens|, maxLen);
      var reqId, localIdx := idx / maxLen, idx % maxLen;
      outLens[idx] := seqLens[reqId] - maxLen + localIdx + 1;
      outTable[idx] := table[reqId];
    }
    forall lens: seq<nat> | |lens| == |seqLens| && Uniform(lens, maxLen)
      ensures outLens[..] == VariableLens(seqLens, lens) && outTable[..] == VariableTable(table, lens)
    {
      UniformIsVariable(seqLens, table, lens, maxLen, outLens[..], outTable[..]);
    }
  }

  ghost predicate UniformEntry(seqLens: seq<nat>, w: nat, i: nat, x: int)
    requires w > 0
  {
    i / w < |seqLens| && x == seqLens[i / w] - w + i % w + 1
  }

  ghost predicate UniformRow<T>(table: seq<T>, w: nat, i: nat, x: T)
    requires w > 0
  {
    i / w < |table| && x == table[i / w]
  }

  /** The uniform kernel and the variable path agree whenever both apply. */
  lemma UniformIsVariable<T>(seqLens: seq<nat>, table: seq<T>, lens: seq<nat>, w: nat, outLens: seq<int>,
                             outTable: seq<T>)
    requires w > 0 && |seqLens| == |table| == |lens| && Uniform(lens, w) && |outLens| == |outTable| == |lens| * w
    requires forall i | 0 <= i < |outLens| :: UniformEntry(seqLens, w, i, outLens[i])
    requires forall i | 0 <= i < |outTable| :: UniformRow(table, w, i, outTable[i])
    ensures outLens == VariableLens(seqLens, lens) && outTable == VariableTable(table, lens)
  {
    UniformOffset(lens, w, |lens|);
    forall i | 0 <= i < |lens| * w
      ensures outLens[i] == VariableLens(seqLens, lens)[i] && outTable[i] == VariableTable(table, lens)[i]
    {
      RowInside(i, |lens|, w);
      UniformOffset(lens, w, i / w);
      Arith.Whole(i, w);
      VariableAt(seqLens, table, lens, i / w, i % w);
      assert UniformEntry(seqLens, w, i, outLens[i]) && UniformRow(table, w, i, outTable[i]);
    }
  }
}
