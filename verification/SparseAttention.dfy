/** Sparse attention with a running maximum, in one pass or in splits merged by their
    log-sum-exp, against the direct softmax-weighted sum.  One query, head and output lane at a
    time, over exact reals. */
module SparseAttention {
  import Arith

  /** The scalar functions of the kernels; ln2 is LOGE2. */
  datatype Math = Math(exp2: real -> real, log2: real -> real, exp: real -> real, ln2: real)

  ghost predicate Multiplies(e: real -> real, x: real, y: real) {
    e(x + y) == e(x) * e(y)
  }

  ghost predicate Exponential(e: real -> real) {
    && (forall x :: e(x) > 0.0)
    && (forall x, y :: Multiplies(e, x, y))
  }

  ghost predicate Lawful(m: Math) {
    && Exponential(m.exp2) && Exponential(m.exp)
    && (forall x | x > 0.0 :: m.exp2(m.log2(x)) == x)
    && (forall x :: m.exp(x * m.ln2) == m.exp2(x))
  }

  /** One query row: its top-k indices, and the scaled score and value lane of a cached token. */
  datatype Row = Row(indices: seq<int>, seqKv: int, score: int -> real, value: int -> real)

  const NEG_LARGE: real := -1000000000000000000000000000000.0

  predicate Attends(c: Row, i: int) {
    0 <= i < c.seqKv
  }

  /** The index at a position of the top-k axis; -1 beyond the end of the slice. */
  function IndexAt(c: Row, p: nat, end: nat): int
    requires end <= |c.indices|
  {
    if p < end then c.indices[p] else -1
  }

  function Score(c: Row, p: nat, end: nat): real
    requires end <= |c.indices|
  {
    if Attends(c, IndexAt(c, p, end)) then c.score(IndexAt(c, p, end)) else NEG_LARGE
  }

  /** The value lane, or 1 when the weights themselves are summed. */
  function Part(c: Row, ones: bool, p: nat, end: nat): real
    requires end <= |c.indices|
  {
    if ones then 1.0
    else if Attends(c, IndexAt(c, p, end)) then c.value(IndexAt(c, p, end)) else 0.0
  }

  // ---- Scaled sums -----------------------------------------------------------------------------

  /** A running sum that was divided by e(at) stands for the mass. */
  ghost predicate Represents(e: real -> real, x: real, at: real, mass: real) {
    x * e(at) == mass
  }

  lemma Rescale(e: real -> real, x: real, at: real, n: real, mass: real)
    requires Exponential(e) && Represents(e, x, at, mass)
    ensures Represents(e, x * e(at - n), n, mass)
  {
    assert Multiplies(e, at - n, n);
    assert x * e(at - n) * e(n) == x * (e(at - n) * e(n));
  }

  lemma AddUp(e: real -> real, x: real, y: real, n: real, a: real, b: real)
    requires Represents(e, x, n, a) && Represents(e, y, n, b)
    ensures Represents(e, x + y, n, a + b)
  {}

  /** The guarded division at the end of every kernel. */
  function SafeDivide(acc: real, sum: real): real {
    acc / (if sum > 0.0 then sum else 1.0)
  }

  ghost function Ratio(num: real, den: real): real {
    if den > 0.0 then num / den else 0.0
  }

  lemma Quotient(e: real -> real, acc: real, sum: real, at: real, num: real, den: real)
    requires Exponential(e) && Represents(e, acc, at, num) && Represents(e, sum, at, den)
    requires sum >= 0.0 && (sum == 0.0 ==> acc == 0.0)
    ensures SafeDivide(acc, sum) == Ratio(num, den)
    ensures sum > 0.0 <==> den > 0.0
  {
    if sum > 0.0 {
      assert den > 0.0;
      var q := acc / sum;
      assert q * sum == acc;
      assert q * den == (q * sum) * e(at) == num;
    }
  }

  // ---- The tile loop -------------------------------------------------------------------------

  /** tl.max over the lanes [a, b), together with the running maximum. */
  function TileMax(c: Row, end: nat, a: nat, b: nat, e: real): (n: real)
    requires end <= |c.indices| && a <= b
    ensures n >= e && forall p | a <= p < b :: n >= Score(c, p, end)
    ensures n == e || exists p | a <= p < b :: n == Score(c, p, end)
    decreases b
  {
    if a == b then e
    else
      var n := TileMax(c, end, a, b - 1, e);
      if Score(c, b - 1, end) > n then Score(c, b - 1, end) else n
  }

  function ScaledTerm(c: Row, m: Math, ones: bool, end: nat, p: nat, n: real): real
    requires end <= |c.indices|
  {
    m.exp2(Score(c, p, end) - n) * Part(c, ones, p, end)
  }

  ghost function Term(c: Row, m: Math, ones: bool, end: nat, p: nat): real
    requires end <= |c.indices|
  {
    m.exp2(Score(c, p, end)) * Part(c, ones, p, end)
  }

  /** tl.sum(p) and tl.dot(p, v) over the lanes [a, b), with p = exp2(qk - n). */
  function TileSum(c: Row, m: Math, ones: bool, end: nat, a: nat, b: nat, n: real): real
    requires end <= |c.indices| && a <= b
    decreases b
  {
    if a == b then 0.0 else TileSum(c, m, ones, end, a, b - 1, n) + ScaledTerm(c, m, ones, end, b - 1, n)
  }

  /** The first stop of the range(start, end, blockN) loop at or past end. */
  function StopAt(start: nat, end: nat, blockN: nat): (s: nat)
    requires blockN > 0
    ensures start <= s && end <= s && (start >= end ==> s == start)
    decreases if start <= end then end - start else 0
  {
    if start >= end then start else StopAt(start + blockN, end, blockN)
  }

  /** Unscaled mass of the lanes [a, b). */
  ghost function Mass(c: Row, m: Math, ones: bool, end: nat, a: nat, b: nat): real
    requires end <= |c.indices| && a <= b
    decreases b
  {
    if a == b then 0.0 else Mass(c, m, ones, end, a, b - 1) + Term(c, m, ones, end, b - 1)
  }

  lemma TermScaled(c: Row, m: Math, ones: bool, end: nat, p: nat, n: real)
    requires Lawful(m) && end <= |c.indices|
    ensures Represents(m.exp2, ScaledTerm(c, m, ones, end, p, n), n, Term(c, m, ones, end, p))
  {
    var s, v := Score(c, p, end), Part(c, ones, p, end);
    assert Multiplies(m.exp2, s - n, n);
    assert m.exp2(s - n) * v * m.exp2(n) == (m.exp2(s - n) * m.exp2(n)) * v;
  }

  lemma {:induction false} TileScaled(c: Row, m: Math, ones: bool, end: nat, a: nat, b: nat, n: real)
    requires Lawful(m) && end <= |c.indices| && a <= b
    ensures Represents(m.exp2, TileSum(c, m, ones, end, a, b, n), n, Mass(c, m, ones, end, a, b))
    decreases b
  {
    hide Lawful, ScaledTerm, Term;
    if a < b {
      hide Represents;
      TileScaled(c, m, ones, end, a, b - 1, n);
      TermScaled(c, m, ones, end, b - 1, n);
      AddUp(m.exp2, TileSum(c, m, ones, end, a, b - 1, n), ScaledTerm(c, m, ones, end, b - 1, n), n,
            Mass(c, m, ones, end, a, b - 1), Term(c, m, ones, end, b - 1));
    }
  }

  lemma {:induction false} MassJoins(c: Row, m: Math, ones: bool, end: nat, a: nat, b: nat, d: nat)
    requires end <= |c.indices| && a <= b <= d
    ensures Mass(c, m, ones, end, a, b) + Mass(c, m, ones, end, b, d) == Mass(c, m, ones, end, a, d)
    decreases d
  {
    hide Term;
    if b < d {
      MassJoins(c, m, ones, end, a, b, d - 1);
    }
  }

  /** One round of the loop: rescale the accumulator and add the tile. */
  lemma TileStep(c: Row, m: Math, ones: bool, end: nat, start: nat, s: nat, t: nat, acc: real, e: real, n: real,
                 acc': real)
    requires Lawful(m) && end <= |c.indices| && start <= s <= t
    requires Represents(m.exp2, acc, e, Mass(c, m, ones, end, start, s))
    requires acc' == acc * m.exp2(e - n) + TileSum(c, m, ones, end, s, t, n)
    ensures Represents(m.exp2, acc', n, Mass(c, m, ones, end, start, t))
  {
    hide Represents, Exponential, Mass, TileSum;
    Rescale(m.exp2, acc, e, n, Mass(c, m, ones, end, start, s));
    TileScaled(c, m, ones, end, s, t, n);
    MassJoins(c, m, ones, end, start, s, t);
    AddUp(m.exp2, acc * m.exp2(e - n), TileSum(c, m, ones, end, s, t, n), n,
          Mass(c, m, ones, end, start, s), Mass(c, m, ones, end, s, t));
  }

  /** The body of the loop: one tile of blockN lanes from s. */
  method TileRound(c: Row, m: Math, ghost start: nat, end: nat, s: nat, t: nat, acc: real, eMax: real, eSum: real)
    returns (acc': real, n: real, eSum': real)
    requires Lawful(m) && end <= |c.indices| && start <= s <= t
    requires Represents(m.exp2, acc, eMax, Mass(c, m, false, end, start, s))
    requires Represents(m.exp2, eSum, eMax, Mass(c, m, true, end, start, s))
    ensures Represents(m.exp2, acc', n, Mass(c, m, false, end, start, t))
    ensures Represents(m.exp2, eSum', n, Mass(c, m, true, end, start, t))
    ensures eMax <= n && forall p | s <= p < t :: Score(c, p, end) <= n
  {
    hide Represents, Lawful, Mass, TileSum, Score;
    n := TileMax(c, end, s, t, eMax);
    var reScale := m.exp2(eMax - n);
    acc' := acc * reScale;
    acc' := acc' + TileSum(c, m, false, end, s, t, n);
    eSum' := eSum * reScale + TileSum(c, m, true, end, s, t, n);
    TileStep(c, m, false, end, start, s, t, acc, eMax, n, acc');
    TileStep(c, m, true, end, start, s, t, eSum, eMax, n, eSum');
  }

  /** _sparse_mla_compute_tile over [start, end) of the top-k axis. */
  method ComputeTile(c: Row, m: Math, start: nat, end: nat, blockN: nat) returns (acc: real, eMax: real, eSum: real)
    requires Lawful(m) && blockN > 0 && end <= |c.indices|
    ensures Represents(m.exp2, acc, eMax, Mass(c, m, false, end, start, StopAt(start, end, blockN)))
    ensures Represents(m.exp2, eSum, eMax, Mass(c, m, true, end, start, StopAt(start, end, blockN)))
    ensures forall p | start <= p < StopAt(start, end, blockN) :: Score(c, p, end) <= eMax
    ensures start >= end ==> acc == 0.0 && eSum == 0.0
  {
    eMax, eSum, acc := NEG_LARGE, 0.0, 0.0;
    var s := start;
    assert Represents(m.exp2, acc, eMax, 0.0);
    while s < end
      invariant start <= s && StopAt(start, end, blockN) == StopAt(s, end, blockN)
      invariant Represents(m.exp2, acc, eMax, Mass(c, m, false, end, start, s))
      invariant Represents(m.exp2, eSum, eMax, Mass(c, m, true, end, start, s))
      invariant forall p | start <= p < s :: Score(c, p, end) <= eMax
      invariant s == start ==> acc == 0.0 && eSum == 0.0
      decreases if s <= end then end - s else 0
    {
      hide Represents, Lawful, Mass, Score;
      acc, eMax, eSum := TileRound(c, m, start, end, s, s + blockN, acc, eMax, eSum);
      s := s + blockN;
    }
  }

  // ---- Direct softmax --------------------------------------------------------------------------

  /** The weight of the attended indices alone, those of the row's own context, summed directly. */
  ghost function Direct(c: Row, m: Math, ones: bool, k: nat): real
    requires k <= |c.indices|
  {
    if k == 0 then 0.0
    else if 0 <= c.indices[k - 1] < c.seqKv
    then Direct(c, m, ones, k - 1)
         + m.exp2(c.score(c.indices[k - 1])) * (if ones then 1.0 else c.value(c.indices[k - 1]))
    else Direct(c, m, ones, k - 1)
  }

  function Masked(c: Row, k: nat): nat
    requires k <= |c.indices|
  {
    if k == 0 then 0 else Masked(c, k - 1) + if 0 <= c.indices[k - 1] < c.seqKv then 0 else 1
  }

  /** The weight n masked lanes add to the denominator. */
  ghost function MaskWeight(m: Math, n: nat): real {
    n as real * m.exp2(NEG_LARGE)
  }

  lemma MaskWeights(m: Math, a: nat, b: nat)
    ensures MaskWeight(m, 0) == 0.0 && MaskWeight(m, 1) == m.exp2(NEG_LARGE)
    ensures MaskWeight(m, a + b) == MaskWeight(m, a) + MaskWeight(m, b)
  {
    assert (a + b) as real == a as real + b as real;
  }

  ghost function Numerator(c: Row, m: Math): real {
    Direct(c, m, false, |c.indices|)
  }

  ghost function Denominator(c: Row, m: Math, pads: nat): real {
    Direct(c, m, true, |c.indices|) + MaskWeight(m, Masked(c, |c.indices|) + pads)
  }

  /** What the kernels output when pads lanes were added to fill whole tiles. */
  ghost function Output(c: Row, m: Math, pads: nat): real {
    Ratio(Numerator(c, m), Denominator(c, m, pads))
  }

  lemma {:induction false} MassIsDirect(c: Row, m: Math, ones: bool, k: nat)
    requires k <= |c.indices|
    ensures Mass(c, m, ones, |c.indices|, 0, k)
         == Direct(c, m, ones, k) + if ones then MaskWeight(m, Masked(c, k)) else 0.0
  {
    hide MaskWeight;
    MaskWeights(m, 0, 0);
    if k > 0 {
      MassIsDirect(c, m, ones, k - 1);
      MaskWeights(m, Masked(c, k - 1), 1);
    }
  }

  /** The lanes past the end of a slice weigh NEG_LARGE and carry no value. */
  lemma {:induction false} MassOfSlice(c: Row, m: Math, ones: bool, end: nat, a: nat, b: nat)
    requires end <= |c.indices| && a <= b
    ensures b <= end ==> Mass(c, m, ones, end, a, b) == Mass(c, m, ones, |c.indices|, a, b)
    ensures a <= end <= b ==>
      Mass(c, m, ones, end, a, b)
      == Mass(c, m, ones, |c.indices|, a, end) + if ones then MaskWeight(m, b - end) else 0.0
    decreases b
  {
    hide MaskWeight;
    MaskWeights(m, 0, 0);
    if a < b {
      MassOfSlice(c, m, ones, end, a, b - 1);
      if end < b && a <= end {
        MaskWeights(m, b - 1 - end, 1);
      }
    }
  }

  lemma {:induction false} MassPositive(c: Row, m: Math, end: nat, a: nat, b: nat)
    requires Lawful(m) && end <= |c.indices| && a <= b
    ensures if a < b then Mass(c, m, true, end, a, b) > 0.0 else Mass(c, m, true, end, a, b) == 0.0
    decreases b
  {
    if a < b {
      MassPositive(c, m, end, a, b - 1);
    }
  }

  // ---- Single pass -----------------------------------------------------------------------------

  function Pads(start: nat, end: nat, blockN: nat): nat
    requires blockN > 0
  {
    if start >= end then 0 else StopAt(start, end, blockN) - end
  }

  /** The sum of a tile loop is positive exactly when the loop ran. */
  lemma SumSign(c: Row, m: Math, end: nat, a: nat, b: nat, sum: real, at: real)
    requires Lawful(m) && end <= |c.indices| && a <= b && Represents(m.exp2, sum, at, Mass(c, m, true, end, a, b))
    ensures if a < b then sum > 0.0 else sum == 0.0
  {
    MassPositive(c, m, end, a, b);
    assert m.exp2(at) > 0.0;
  }

  /** _sparse_mla_kernel_final for one row. */
  method FinalKernel(c: Row, m: Math, blockN: nat) returns (out: real)
    requires Lawful(m) && blockN > 0
    ensures out == Output(c, m, Pads(0, |c.indices|, blockN))
  {
    var k := |c.indices|;
    var acc, eMax, eSum := ComputeTile(c, m, 0, k, blockN);
    var eSumSafe := if eSum > 0.0 then eSum else 1.0;
    out := acc / eSumSafe;
    assert out == SafeDivide(acc, eSum);
    hide SafeDivide, Represents, Mass, Direct, Masked, MaskWeight, Ratio, Exponential;
    ghost var stop := StopAt(0, k, blockN);
    SumSign(c, m, k, 0, stop, eSum, eMax);
    MassIsDirect(c, m, false, k);
    MassIsDirect(c, m, true, k);
    MassOfSlice(c, m, false, k, 0, stop);
    MassOfSlice(c, m, true, k, 0, stop);
    MaskWeights(m, Masked(c, k), stop - k);
    Quotient(m.exp2, acc, eSum, eMax, Numerator(c, m), Denominator(c, m, stop - k));
  }

  // ---- Split and merge ---------------------------------------------------------------------------

  /** A stored log-sum-exp; log2(0) is minus infinity. */
  datatype Lse = NegInf | Fin(x: real)

  function Log2(m: Math, x: real): Lse {
    if x > 0.0 then Fin(m.log2(x)) else NegInf
  }

  ghost function Weight(m: Math, l: Lse): real {
    if l.NegInf? then 0.0 else m.exp(l.x)
  }

  function SplitSize(k: nat, splits: nat): nat
    requires splits > 0
  {
    (k + splits - 1) / splits
  }

  function SplitStart(k: nat, splits: nat, id: nat): nat
    requires splits > 0
  {
    id * SplitSize(k, splits)
  }

  function SplitEnd(k: nat, splits: nat, id: nat): (e: nat)
    requires splits > 0
    ensures e <= k
  {
    if SplitStart(k, splits, id) + SplitSize(k, splits) < k then SplitStart(k, splits, id) + SplitSize(k, splits) else k
  }

  /** Mass of the positions of one slice. */
  ghost function SliceMass(c: Row, m: Math, ones: bool, start: nat, end: nat): real
    requires end <= |c.indices|
  {
    if start >= end then 0.0 else Mass(c, m, ones, |c.indices|, start, end)
  }

  /** A partial output and log-sum-exp carry the numerator and denominator of their slice. */
  ghost predicate Carries(c: Row, m: Math, out: real, lse: Lse, start: nat, end: nat, blockN: nat)
    requires blockN > 0 && end <= |c.indices|
  {
    && Weight(m, lse) * out == SliceMass(c, m, false, start, end)
    && Weight(m, lse) == SliceMass(c, m, true, start, end) + MaskWeight(m, Pads(start, end, blockN))
  }

  lemma LseWeight(m: Math, acc: real, eMax: real, eSum: real, num: real, den: real)
    requires Lawful(m) && eSum > 0.0 && Represents(m.exp2, acc, eMax, num) && Represents(m.exp2, eSum, eMax, den)
    ensures Weight(m, Fin((eMax + m.log2(eSum)) * m.ln2)) == den
    ensures den * (acc / eSum) == num
  {
    assert Multiplies(m.exp2, eMax, m.log2(eSum));
    var x := (eMax + m.log2(eSum)) * m.ln2;
    assert m.exp(x) == m.exp2(eMax + m.log2(eSum)) == m.exp2(eMax) * eSum;
    var q := acc / eSum;
    assert q * eSum == acc;
    assert den * q == (q * eSum) * m.exp2(eMax);
  }

  lemma SliceCarried(c: Row, m: Math, start: nat, end: nat, blockN: nat, acc: real, eMax: real, eSum: real)
    requires Lawful(m) && blockN > 0 && start < end <= |c.indices|
    requires Represents(m.exp2, acc, eMax, Mass(c, m, false, end, start, StopAt(start, end, blockN)))
    requires Represents(m.exp2, eSum, eMax, Mass(c, m, true, end, start, StopAt(start, end, blockN)))
    ensures eSum > 0.0 && Carries(c, m, acc / eSum, Fin((eMax + m.log2(eSum)) * m.ln2), start, end, blockN)
  {
    hide Represents, Mass, MaskWeight, Exponential, Weight;
    var stop := StopAt(start, end, blockN);
    SumSign(c, m, end, start, stop, eSum, eMax);
    MassOfSlice(c, m, false, end, start, stop);
    MassOfSlice(c, m, true, end, start, stop);
    LseWeight(m, acc, eMax, eSum, Mass(c, m, false, end, start, stop), Mass(c, m, true, end, start, stop));
  }

  lemma EmptyCarried(c: Row, m: Math, start: nat, end: nat, blockN: nat, out: real)
    requires blockN > 0 && end <= |c.indices| && start >= end
    ensures Carries(c, m, out, NegInf, start, end, blockN)
  {
    MaskWeights(m, 0, 0);
  }

  /** _sparse_mla_kernel_split for one row and split. */
  method SplitKernel(c: Row, m: Math, blockN: nat, splits: nat, id: nat, midOut: array<real>, midLse: array<Lse>)
    requires Lawful(m) && blockN > 0 && id < splits == midOut.Length == midLse.Length
    modifies midOut, midLse
    ensures Carries(c, m, midOut[id], midLse[id], SplitStart(|c.indices|, splits, id),
        SplitEnd(|c.indices|, splits, id), blockN)
    ensures forall j | 0 <= j < splits && j != id :: midOut[j] == old(midOut[j]) && midLse[j] == old(midLse[j])
  {
    hide Represents, Mass, MaskWeight, Lawful, SplitStart, SplitEnd, Weight;
    var start := SplitStart(|c.indices|, splits, id);
    var end := SplitEnd(|c.indices|, splits, id);
    var acc, eMax, eSum := ComputeTile(c, m, start, end, blockN);
    var eSumSafe := if eSum > 0.0 then eSum else 1.0;
    midOut[id] := acc / eSumSafe;
    var l := Log2(m, eSum);
    midLse[id] := if l.NegInf? then NegInf else Fin((eMax + l.x) * m.ln2);
    if start < end {
      SliceCarried(c, m, start, end, blockN, acc, eMax, eSum);
      assert midLse[id] == Fin((eMax + m.log2(eSum)) * m.ln2);
      assert Carries(c, m, midOut[id], midLse[id], start, end, blockN);
    } else {
      EmptyCarried(c, m, start, end, blockN, midOut[id]);
    }
  }

  /** Total weight of the first k stored partials, and their weighted sum. */
  ghost function Total(m: Math, lses: seq<Lse>, k: nat): real
    requires k <= |lses|
  {
    if k == 0 then 0.0 else Total(m, lses, k - 1) + Weight(m, lses[k - 1])
  }

  ghost function Blend(m: Math, outs: seq<real>, lses: seq<Lse>, k: nat): real
    requires k <= |lses| == |outs|
  {
    if k == 0 then 0.0 else Blend(m, outs, lses, k - 1) + Weight(m, lses[k - 1]) * outs[k - 1]
  }

  function ExpAt(m: Math, l: Lse, n: real): real {
    if l.NegInf? then 0.0 else m.exp(l.x - n)
  }

  /** One round of the merge loop, for the accumulator (v = the partial) and for the sum (v = 1). */
  lemma MergeStep(m: Math, acc: real, e: real, n: real, l: Lse, v: real, mass: real, acc': real)
    requires Lawful(m) && Represents(m.exp, acc, e, mass)
    requires acc' == acc * m.exp(e - n) + ExpAt(m, l, n) * v
    ensures Represents(m.exp, acc', n, mass + Weight(m, l) * v)
  {
    Rescale(m.exp, acc, e, n, mass);
    assert Represents(m.exp, ExpAt(m, l, n) * v, n, Weight(m, l) * v) by {
      if l.Fin? {
        assert Multiplies(m.exp, l.x - n, n);
        assert m.exp(l.x - n) * v * m.exp(n) == (m.exp(l.x - n) * m.exp(n)) * v;
      }
    }
    AddUp(m.exp, acc * m.exp(e - n), ExpAt(m, l, n) * v, n, mass, Weight(m, l) * v);
  }

  lemma MergeSign(m: Math, acc: real, e: real, n: real, l: Lse, v: real, sum: real)
    requires Lawful(m) && sum >= 0.0 && (sum == 0.0 ==> acc == 0.0)
    ensures sum * m.exp(e - n) + ExpAt(m, l, n) >= 0.0
    ensures sum * m.exp(e - n) + ExpAt(m, l, n) == 0.0 ==> acc * m.exp(e - n) + ExpAt(m, l, n) * v == 0.0
  {
    if sum > 0.0 {
      assert sum * m.exp(e - n) > 0.0;
    }
  }

  lemma MergeQuotient(m: Math, acc: real, sum: real, at: real, num: real, den: real)
    requires Lawful(m) && Represents(m.exp, acc, at, num) && Represents(m.exp, sum, at, den)
    requires sum >= 0.0 && (sum == 0.0 ==> acc == 0.0)
    ensures acc / (if sum > 0.0 then sum else 1.0) == Ratio(num, den)
  {
    hide Represents, Exponential, Ratio;
    Quotient(m.exp, acc, sum, at, num, den);
  }

  /** The body of the merge loop: fold in one partial. */
  method MergeRound(m: Math, tv: real, tlogic: Lse, acc: real, eMax: real, eSum: real, ghost num: real, ghost den: real)
    returns (acc': real, n: real, eSum': real)
    requires Lawful(m) && Represents(m.exp, acc, eMax, num) && Represents(m.exp, eSum, eMax, den)
    requires eSum >= 0.0 && (eSum == 0.0 ==> acc == 0.0)
    ensures Represents(m.exp, acc', n, num + Weight(m, tlogic) * tv)
    ensures Represents(m.exp, eSum', n, den + Weight(m, tlogic))
    ensures eSum' >= 0.0 && (eSum' == 0.0 ==> acc' == 0.0)
    ensures eMax <= n && (tlogic.Fin? ==> tlogic.x <= n)
  {
    hide Lawful, Represents, Weight, ExpAt;
    n := if tlogic.NegInf? || tlogic.x <= eMax then eMax else tlogic.x;
    var oldScale := m.exp(eMax - n);
    var expLogic := ExpAt(m, tlogic, n);
    acc' := acc * oldScale + expLogic * tv;
    eSum' := eSum * oldScale + expLogic;
    MergeStep(m, acc, eMax, n, tlogic, tv, num, acc');
    MergeStep(m, eSum, eMax, n, tlogic, 1.0, den, eSum');
    MergeSign(m, acc, eMax, n, tlogic, tv, eSum);
  }

  /** _sparse_mla_merge_kernel for one row and lane. */
  method MergeKernel(m: Math, midOut: array<real>, midLse: array<Lse>) returns (out: real)
    requires Lawful(m) && midOut.Length == midLse.Length
    ensures out == Ratio(Blend(m, midOut[..], midLse[..], midLse.Length), Total(m, midLse[..], midLse.Length))
  {
    var eMax, eSum, acc := NEG_LARGE, 0.0, 0.0;
    assert Represents(m.exp, acc, eMax, 0.0);
    hide Lawful, Represents, Weight, Ratio;
    for id := 0 to midLse.Length
      invariant Represents(m.exp, acc, eMax, Blend(m, midOut[..], midLse[..], id))
      invariant Represents(m.exp, eSum, eMax, Total(m, midLse[..], id))
      invariant eSum >= 0.0 && (eSum == 0.0 ==> acc == 0.0)
    {
      acc, eMax, eSum := MergeRound(m, midOut[id], midLse[id], acc, eMax, eSum,
                                    Blend(m, midOut[..], midLse[..], id), Total(m, midLse[..], id));
    }
    var eSumSafe := if eSum > 0.0 then eSum else 1.0;
    out := acc / eSumSafe;
    MergeQuotient(m, acc, eSum, eMax, Blend(m, midOut[..], midLse[..], midLse.Length),
        Total(m, midLse[..], midLse.Length));
  }

  // ---- Split against single pass -------------------------------------------------------------------

  ghost predicate Stored(c: Row, m: Math, outs: seq<real>, lses: seq<Lse>, splits: nat, blockN: nat, ids: nat)
    requires blockN > 0 && ids <= splits == |outs| == |lses|
  {
    forall id | 0 <= id < ids ::
      Carries(c, m, outs[id], lses[id], SplitStart(|c.indices|, splits, id), SplitEnd(|c.indices|, splits, id), blockN)
  }

  /** Padding over the first ids slices of a split launch. */
  function SplitPads(k: nat, splits: nat, blockN: nat, ids: nat): nat
    requires blockN > 0 && splits > 0
  {
    if ids == 0 then 0
    else
      SplitPads(k, splits, blockN, ids - 1)
      + Pads(SplitStart(k, splits, ids - 1), SplitEnd(k, splits, ids - 1), blockN)
  }

  /** Where the first ids slices end. */
  function Covered(k: nat, splits: nat, ids: nat): nat
    requires splits > 0
  {
    if SplitStart(k, splits, ids) < k then SplitStart(k, splits, ids) else k
  }

  lemma SliceIsNext(k: nat, splits: nat, id: nat)
    requires splits > 0
    ensures Covered(k, splits, id) <= Covered(k, splits, id + 1) <= k
    ensures if SplitStart(k, splits, id) < SplitEnd(k, splits, id)
            then Covered(k, splits, id) == SplitStart(k, splits, id)
                && Covered(k, splits, id + 1) == SplitEnd(k, splits, id)
            else Covered(k, splits, id) == Covered(k, splits, id + 1)
  {
    assert SplitStart(k, splits, id + 1) == SplitStart(k, splits, id) + SplitSize(k, splits);
  }

  lemma AllCovered(k: nat, splits: nat)
    requires splits > 0
    ensures Covered(k, splits, 0) == 0 && Covered(k, splits, splits) == k
  {
    Arith.DivBounds(k + splits - 1, splits);
    assert 0 * SplitSize(k, splits) == 0;
  }

  /** Partials of the first ids slices blend into the mass of the positions they cover. */
  lemma {:induction false} BlendIsMass(c: Row, m: Math, outs: seq<real>, lses: seq<Lse>, splits: nat, blockN: nat,
          ids: nat)
    requires blockN > 0 && splits > 0 && ids <= splits == |outs| == |lses|
    requires Stored(c, m, outs, lses, splits, blockN, ids)
    ensures Covered(|c.indices|, splits, ids) <= |c.indices|
    ensures Blend(m, outs, lses, ids) == Mass(c, m, false, |c.indices|, 0, Covered(|c.indices|, splits, ids))
    ensures Total(m, lses, ids)
      == Mass(c, m, true, |c.indices|, 0, Covered(|c.indices|, splits, ids))
          + MaskWeight(m, SplitPads(|c.indices|, splits, blockN, ids))
  {
    hide SplitStart, SplitEnd, Covered, MaskWeight, Weight;
    var k := |c.indices|;
    if ids == 0 {
      AllCovered(k, splits);
      MaskWeights(m, 0, 0);
    } else {
      BlendIsMass(c, m, outs, lses, splits, blockN, ids - 1);
      SliceIsNext(k, splits, ids - 1);
      var start, end := SplitStart(k, splits, ids - 1), SplitEnd(k, splits, ids - 1);
      if start < end {
        MassJoins(c, m, false, k, 0, start, end);
        MassJoins(c, m, true, k, 0, start, end);
      }
      MaskWeights(m, SplitPads(k, splits, blockN, ids - 1), Pads(start, end, blockN));
    }
  }

  /** triton_mla_sparse_attention for one row: final kernel, or splits and merge. */
  method Attention(c: Row, m: Math, splits: nat, finalBlock: nat, splitBlock: nat) returns (out: real)
    requires Lawful(m) && splits > 0 && finalBlock > 0 && splitBlock > 0
    ensures out == Output(c, m, LaunchPads(|c.indices|, splits, finalBlock, splitBlock))
  {
    hide Output, Carries, Lawful, SplitPads;
    if splits == 1 {
      out := FinalKernel(c, m, finalBlock);
      return;
    }
    var midOut, midLse := new real[splits], new Lse[splits](_ => NegInf);
    for id := 0 to splits
      invariant Stored(c, m, midOut[..], midLse[..], splits, splitBlock, id)
    {
      SplitKernel(c, m, splitBlock, splits, id, midOut, midLse);
    }
    out := MergeKernel(m, midOut, midLse);
    MergedOutput(c, m, midOut[..], midLse[..], splits, splitBlock);
  }

  function LaunchPads(k: nat, splits: nat, finalBlock: nat, splitBlock: nat): nat
    requires splits > 0 && finalBlock > 0 && splitBlock > 0
  {
    if splits == 1 then Pads(0, k, finalBlock) else SplitPads(k, splits, splitBlock, splits)
  }

  lemma MergedOutput(c: Row, m: Math, outs: seq<real>, lses: seq<Lse>, splits: nat, blockN: nat)
    requires blockN > 0 && splits > 0 && splits == |outs| == |lses| && Stored(c, m, outs, lses, splits, blockN, splits)
    ensures Ratio(Blend(m, outs, lses, splits), Total(m, lses, splits))
        == Output(c, m, SplitPads(|c.indices|, splits, blockN, splits))
  {
    hide Ratio, Blend, Total, Mass, Direct, Masked, MaskWeight, SplitPads;
    var k := |c.indices|;
    BlendIsMass(c, m, outs, lses, splits, blockN, splits);
    AllCovered(k, splits);
    MassIsDirect(c, m, false, k);
    MassIsDirect(c, m, true, k);
    MaskWeights(m, Masked(c, k), SplitPads(k, splits, blockN, splits));
  }

  lemma {:induction false} DirectPositive(c: Row, m: Math, k: nat)
    requires Lawful(m) && k <= |c.indices|
    ensures Masked(c, k) <= k
    ensures Direct(c, m, true, k) >= 0.0
    ensures Direct(c, m, true, k) == 0.0 <==> Masked(c, k) == k
    ensures Masked(c, k) == k ==> Direct(c, m, false, k) == 0.0
  {
    if k > 0 {
      DirectPositive(c, m, k - 1);
      var s := c.score(c.indices[k - 1]);
      assert m.exp2(s) > 0.0;
    }
  }

  lemma DenominatorSign(c: Row, m: Math, pads: nat)
    requires Lawful(m)
    ensures Denominator(c, m, pads) >= 0.0
    ensures Denominator(c, m, pads) == 0.0 ==> c.indices == [] && pads == 0
    ensures c.indices == [] ==> Numerator(c, m) == 0.0
  {
    DirectPositive(c, m, |c.indices|);
    assert m.exp2(NEG_LARGE) > 0.0;
    var n := Masked(c, |c.indices|) + pads;
    assert MaskWeight(m, n) >= 0.0 && (n > 0 ==> MaskWeight(m, n) > 0.0);
  }

  lemma RatioEqual(num: real, p: real, q: real)
    requires p > 0.0 && q > 0.0
    ensures num / p == num / q <==> p == q || num == 0.0
  {
    var x, y := num / p, num / q;
    assert x * p == num == y * q;
    if x == y && p != q {
      assert x * (p - q) == 0.0;
      assert x == 0.0;
    }
  }

  /** Two launches agree exactly when they pad alike, or the numerator is 0. */
  lemma PadsDecide(c: Row, m: Math, a: nat, b: nat)
    requires Lawful(m)
    ensures Output(c, m, a) == Output(c, m, b) <==> a == b || Numerator(c, m) == 0.0
  {
    var num, p, q := Numerator(c, m), Denominator(c, m, a), Denominator(c, m, b);
    DenominatorSign(c, m, a);
    DenominatorSign(c, m, b);
    assert p == q <==> a == b by {
      var x, n := m.exp2(NEG_LARGE), Masked(c, |c.indices|);
      assert (n + a) as real * x - (n + b) as real * x == ((n + a) as real - (n + b) as real) * x;
      assert x > 0.0;
    }
    if p > 0.0 && q > 0.0 {
      RatioEqual(num, p, q);
    } else {
      hide Numerator, Denominator;
      assert num == 0.0;
    }
  }

  /** Splitting changes nothing exactly when it pads like the single pass, or the numerator is 0. */
  lemma SplitAgreesExactly(c: Row, m: Math, splits: nat, finalBlock: nat, splitBlock: nat)
    requires Lawful(m) && splits > 0 && finalBlock > 0 && splitBlock > 0
    ensures Output(c, m, LaunchPads(|c.indices|, splits, finalBlock, splitBlock))
         == Output(c, m, LaunchPads(|c.indices|, 1, finalBlock, splitBlock))
      <==> (Numerator(c, m) == 0.0
            || LaunchPads(|c.indices|, splits, finalBlock, splitBlock)
                == LaunchPads(|c.indices|, 1, finalBlock, splitBlock))
  {
    hide Output, Numerator, LaunchPads;
    PadsDecide(c, m, LaunchPads(|c.indices|, splits, finalBlock, splitBlock),
        LaunchPads(|c.indices|, 1, finalBlock, splitBlock));
  }

  /** The kernels give the softmax over the attended indices exactly when no lane was masked or
      padded, or the numerator is 0: a masked lane still weighs exp2(NEG_LARGE). */
  lemma SoftmaxExactly(c: Row, m: Math, pads: nat)
    requires Lawful(m) && Masked(c, |c.indices|) < |c.indices|
    ensures Direct(c, m, true, |c.indices|) > 0.0
    ensures Output(c, m, pads) == Numerator(c, m) / Direct(c, m, true, |c.indices|)
      <==> Masked(c, |c.indices|) + pads == 0 || Numerator(c, m) == 0.0
  {
    var n := Masked(c, |c.indices|) + pads;
    DirectPositive(c, m, |c.indices|);
    var x := m.exp2(NEG_LARGE);
    assert x > 0.0;
    assert MaskWeight(m, n) >= 0.0 && (MaskWeight(m, n) == 0.0 <==> n == 0);
    RatioEqual(Numerator(c, m), Denominator(c, m, pads), Direct(c, m, true, |c.indices|));
  }

  // ---- How far from the softmax ----------------------------------------------------------------------

  /** exp2 grows, and doubles from one whole number to the next. */
  ghost predicate Doubling(m: Math) {
    m.exp2(1.0) == 2.0 && forall x: real, y: real | x <= y :: m.exp2(x) <= m.exp2(y)
  }

  function TwoTo(k: nat): (r: real)
    ensures r > 0.0
  {
    if k == 0 then 1.0 else 2.0 * TwoTo(k - 1)
  }

  function Abs(x: real): real {
    if x < 0.0 then -x else x
  }

  lemma PositiveAt(m: Math, x: real)
    requires Lawful(m)
    ensures m.exp2(x) > 0.0
  {}

  lemma DoubleNext(m: Math, x: real, y: real)
    requires Lawful(m) && Doubling(m) && y == x + 1.0
    ensures m.exp2(y) == m.exp2(x) * 2.0
  {
    assert Multiplies(m.exp2, x, 1.0);
  }

  lemma {:induction false} Doubles(m: Math, x: real, k: nat)
    requires Lawful(m) && Doubling(m)
    ensures m.exp2(x + k as real) == m.exp2(x) * TwoTo(k)
  {
    hide Lawful, Doubling;
    if k == 0 {
      assert x + k as real == x;
    } else {
      Doubles(m, x, k - 1);
      DoubleNext(m, x + (k - 1) as real, x + k as real);
    }
  }

  /** 2^k masked lanes weigh no more than a lane whose score is at least k above the mask's. */
  lemma MaskedLight(m: Math, score: real, k: nat)
    requires Lawful(m) && Doubling(m) && score >= k as real - 1000000000000000000000000000000.0
    ensures m.exp2(NEG_LARGE) * TwoTo(k) <= m.exp2(score)
  {
    Doubles(m, NEG_LARGE, k);
    assert NEG_LARGE + k as real <= score;
  }

  lemma {:induction false} DirectAtLeast(c: Row, m: Math, k: nat, i: nat)
    requires Lawful(m) && i < k <= |c.indices| && 0 <= c.indices[i] < c.seqKv
    ensures Direct(c, m, true, k) >= m.exp2(c.score(c.indices[i]))
  {
    DirectPositive(c, m, k - 1);
    PositiveAt(m, c.score(c.indices[k - 1]));
    if i < k - 1 {
      DirectAtLeast(c, m, k - 1, i);
    }
  }

  lemma DivideBack(num: real, d: real)
    requires d > 0.0
    ensures num / d * d == num
  {}

  /** If out and soft are the same mass over d + x and over d, their gap is soft's share of x. */
  lemma GapIs(out: real, soft: real, d: real, x: real)
    requires d > 0.0 && x >= 0.0 && out * (d + x) == soft * d
    ensures Abs(out - soft) * (d + x) == Abs(soft) * x
  {
    Spread(soft, d, x);
    Spread(soft - out, d, x);
    Spread(out, d, x);
    assert (soft - out) * (d + x) == soft * (d + x) - out * (d + x) by {
      Differ(soft, out, d + x);
    }
    AbsTimes(soft - out, d + x);
    AbsTimes(soft, x);
  }

  lemma Spread(a: real, x: real, y: real)
    ensures a * (x + y) == a * x + a * y
  {}

  lemma Differ(a: real, b: real, y: real)
    ensures (a - b) * y == a * y - b * y
  {}

  lemma AbsTimes(x: real, y: real)
    requires y >= 0.0
    ensures Abs(x * y) == Abs(x) * y
  {}

  lemma ProductLe(a: real, x: real, y: real)
    requires a >= 0.0 && x <= y
    ensures a * x <= a * y
  {}

  lemma ProductLeft(a: real, b: real, y: real)
    requires y > 0.0 && a * y <= b * y
    ensures a <= b
  {}

  /** gap * h == size * (n * w) and w * t <= h give gap * t <= n * size. */
  lemma GapLight(gap: real, size: real, n: real, w: real, t: real, h: real)
    requires h > 0.0 && t > 0.0 && n >= 0.0 && size >= 0.0 && w * t <= h && gap * h == size * (n * w)
    ensures gap * t <= n * size
  {
    ProductNonNegative(n, size);
    ProductLe(n * size, w * t, h);
    Regroup(gap, t, h, size, n, w);
    ProductLeft(gap * t, n * size, h);
  }

  lemma ProductNonNegative(x: real, y: real)
    requires x >= 0.0 && y >= 0.0
    ensures x * y >= 0.0
  {}

  lemma Regroup(gap: real, t: real, h: real, size: real, n: real, w: real)
    requires gap * h == size * (n * w)
    ensures gap * t * h == n * size * (w * t)
  {
    assert gap * t * h == gap * h * t;
    assert size * (n * w) == n * size * w;
    assert n * size * w * t == n * size * (w * t);
  }

  /** A quotient whose denominator grows by n light lanes hardly moves. */
  lemma LightLanes(num: real, d: real, n: real, w: real, t: real)
    requires d > 0.0 && n >= 0.0 && w > 0.0 && t > 0.0 && w * t <= d && n * w >= 0.0
    ensures Abs(num / (d + n * w) - num / d) * t <= n * Abs(num / d)
  {
    var x := n * w;
    DivideBack(num, d);
    DivideBack(num, d + x);
    GapIs(num / (d + x), num / d, d, x);
    var gap, size := Abs(num / (d + x) - num / d), Abs(num / d);
    GapLight(gap, size, n, w, t, d + x);
  }

  /** The kernels are within n / 2^k of the softmax over the attended indices, relative to it, when some attended
      score is at least k - 10^30; n counts the masked and padded lanes. */
  lemma NearSoftmax(c: Row, m: Math, pads: nat, i: nat, k: nat)
    requires Lawful(m) && Doubling(m) && i < |c.indices| && 0 <= c.indices[i] < c.seqKv
    requires c.score(c.indices[i]) >= k as real - 1000000000000000000000000000000.0
    ensures Direct(c, m, true, |c.indices|) > 0.0
    ensures var softmax := Numerator(c, m) / Direct(c, m, true, |c.indices|);
            Abs(Output(c, m, pads) - softmax) * TwoTo(k) <= (Masked(c, |c.indices|) + pads) as real * Abs(softmax)
  {
    hide Masked, Direct, TwoTo, Abs, Lawful, Doubling;
    var d, n, w := Direct(c, m, true, |c.indices|), (Masked(c, |c.indices|) + pads) as real, m.exp2(NEG_LARGE);
    DirectAtLeast(c, m, |c.indices|, i);
    MaskedLight(m, c.score(c.indices[i]), k);
    PositiveAt(m, c.score(c.indices[i]));
    PositiveAt(m, NEG_LARGE);
    OutputIs(c, m, pads, d, n, w);
    LightLanes(Numerator(c, m), d, n, w, TwoTo(k));
  }

  lemma OutputIs(c: Row, m: Math, pads: nat, d: real, n: real, w: real)
    requires d == Direct(c, m, true, |c.indices|) > 0.0 && n == (Masked(c, |c.indices|) + pads) as real
    requires w == m.exp2(NEG_LARGE) > 0.0
    ensures n * w >= 0.0 && Output(c, m, pads) == Numerator(c, m) / (d + n * w)
  {
    hide Direct, Masked, Numerator;
  }

  /** Exactly: every masked or padded lane adds 2^(-10^30) to the denominator. */
  lemma MaskedWeight(c: Row, m: Math, pads: nat)
    requires Lawful(m) && c.indices != []
    ensures Output(c, m, pads) * (Direct(c, m, true, |c.indices|) + (Masked(c, |c.indices|) + pads) as real
                                    * m.exp2(-1000000000000000000000000000000.0)) == Numerator(c, m)
  {
    DenominatorSign(c, m, pads);
    hide Numerator, Direct, Masked, Lawful;
  }

  /** Every position of the tile loop: whole tiles of lanes up to the end. */
  lemma {:induction false} StopAtTile(start: nat, end: nat, blockN: nat, tiles: nat)
    requires blockN > 0 && start + tiles * blockN < end <= start + (tiles + 1) * blockN
    ensures StopAt(start, end, blockN) == start + (tiles + 1) * blockN
    decreases tiles
  {
    assert (tiles + 1) * blockN == tiles * blockN + blockN;
    if tiles > 0 {
      assert tiles * blockN == (tiles - 1) * blockN + blockN;
      StopAtTile(start + blockN, end, blockN, tiles - 1);
    }
  }

  /** A disagreement: 272 indices in two slices of 136 and tiles of 32 pad 24 lanes each, where the single
      pass over tiles of 16 pads none. */
  lemma SplitDisagrees(c: Row, m: Math)
    requires Lawful(m) && |c.indices| == 272 && Numerator(c, m) != 0.0
    ensures LaunchPads(272, 2, 16, 32) == 48 && LaunchPads(272, 1, 16, 32) == 0
    ensures Output(c, m, LaunchPads(272, 2, 16, 32)) != Output(c, m, LaunchPads(272, 1, 16, 32))
  {
    hide Output, Numerator;
    var k := 272;
    StopAtTile(0, 136, 32, 4);
    StopAtTile(136, 272, 32, 4);
    StopAtTile(0, 272, 16, 16);
    assert SplitStart(k, 2, 0) == 0 && SplitEnd(k, 2, 0) == 136;
    assert SplitStart(k, 2, 1) == 136 && SplitEnd(k, 2, 1) == 272;
    assert SplitPads(k, 2, 32, 0) == 0 && SplitPads(k, 2, 32, 1) == 24;
    PadsDecide(c, m, 48, 0);
  }

  /** A row without any valid index gives 0, however it was launched. */
  lemma NothingAttended(c: Row, m: Math, pads: nat)
    requires Lawful(m) && Masked(c, |c.indices|) == |c.indices|
    ensures Output(c, m, pads) == 0.0
  {
    DirectPositive(c, m, |c.indices|);
    DenominatorSign(c, m, pads);
  }

  lemma {:induction false} StopAligned(start: nat, end: nat, blockN: nat)
    requires blockN > 0 && start <= end
    ensures StopAt(start, end, blockN) == end <==> (end - start) % blockN == 0
    decreases end - start
  {
    var n := end - start;
    if n > 0 {
      if n < blockN {
        assert StopAt(start + blockN, end, blockN) == start + blockN;
        Arith.ModSmall(n, blockN);
      } else {
        StopAligned(start + blockN, end, blockN);
        Arith.ModStep(n, blockN);
      }
    }
  }

  predicate SliceFits(k: nat, splits: nat, blockN: nat, id: nat)
    requires blockN > 0 && splits > 0
  {
    SplitStart(k, splits, id) < SplitEnd(k, splits, id) ==>
        (SplitEnd(k, splits, id) - SplitStart(k, splits, id)) % blockN == 0
  }

  /** No lane is padded exactly when every slice is whole tiles. */
  lemma {:induction false} SplitPadsZero(k: nat, splits: nat, blockN: nat, ids: nat)
    requires blockN > 0 && splits > 0
    ensures SplitPads(k, splits, blockN, ids) == 0 <==> forall id | 0 <= id < ids :: SliceFits(k, splits, blockN, id)
  {
    hide SplitStart, SplitEnd;
    if ids > 0 {
      SplitPadsZero(k, splits, blockN, ids - 1);
      var start, end := SplitStart(k, splits, ids - 1), SplitEnd(k, splits, ids - 1);
      if start < end {
        StopAligned(start, end, blockN);
      }
      assert Pads(start, end, blockN) == 0 <==> SliceFits(k, splits, blockN, ids - 1);
    }
  }

  // ---- Choosing the split count ---------------------------------------------------------------------

  predicate PowerOfTwo(n: nat) {
    n == 1 || (n > 1 && n % 2 == 0 && PowerOfTwo(n / 2))
  }

  function NextPowerOfTwo(n: nat): (p: nat)
    ensures PowerOfTwo(p) && n <= p && (p == 1 || p < 2 * n)
  {
    if n <= 1 then 1 else 2 * NextPowerOfTwo((n + 1) / 2)
  }

  /** 1 << (n.bit_length() - 1). */
  function FloorPowerOfTwo(n: nat): (p: nat)
    requires n > 0
    ensures PowerOfTwo(p) && p <= n < 2 * p
  {
    if n == 1 then 1 else 2 * FloorPowerOfTwo(n / 2)
  }

  lemma {:induction false} PowersDouble(q: nat, r: nat)
    requires PowerOfTwo(q) && PowerOfTwo(r) && q < r
    ensures 2 * q <= r
  {
    if q > 1 {
      PowersDouble(q / 2, r / 2);
    }
  }

  const MIN_TOPK_PER_SPLIT := 128
  const SPLIT_MAX_OCCUPANCY := 4

  function Max1(n: nat): nat {
    if n < 1 then 1 else n
  }

  /** A split count that leaves at least about 64 positions to a split and does not overfill the device. */
  predicate SplitFits(q: nat, baseline: nat, topk: nat, smCount: nat) {
    q == 1 || (q < 2 * (topk / 128) && q * baseline <= smCount)
  }

  lemma CeilingCap(q: nat, n: nat)
    requires PowerOfTwo(q) && n > 0
    ensures q <= NextPowerOfTwo(n) <==> q < 2 * n
  {
    hide PowerOfTwo, NextPowerOfTwo;
    var p := NextPowerOfTwo(n);
    if q > p {
      PowersDouble(p, q);
    }
  }

  lemma FloorCap(q: nat, n: nat)
    requires PowerOfTwo(q) && n > 0
    ensures q <= FloorPowerOfTwo(n) <==> q <= n
  {
    hide PowerOfTwo, FloorPowerOfTwo;
    var p := FloorPowerOfTwo(n);
    if q > p {
      PowersDouble(p, q);
    }
  }

  lemma TimesFits(q: nat, b: nat, n: nat)
    requires b > 0
    ensures q * b <= n <==> q <= n / b
  {
    Arith.DivBounds(n, b);
    if q <= n / b {
      Arith.MulLe(q, n / b, b);
    } else {
      Arith.MulLe(n / b + 1, q, b);
    }
  }

  lemma CapsAreFits(q: nat, baseline: nat, topk: nat, smCount: nat)
    requires PowerOfTwo(q) && baseline > 0
    ensures SplitFits(q, baseline, topk, smCount)
      <==> q <= NextPowerOfTwo(Max1(topk / MIN_TOPK_PER_SPLIT)) && q <= FloorPowerOfTwo(Max1(smCount / baseline))
  {
    CeilingCap(q, Max1(topk / MIN_TOPK_PER_SPLIT));
    FloorCap(q, Max1(smCount / baseline));
    TimesFits(q, baseline, smCount);
    PowerPositive(q);
    hide PowerOfTwo, NextPowerOfTwo, FloorPowerOfTwo;
  }

  lemma PowerPositive(q: nat)
    requires PowerOfTwo(q)
    ensures q >= 1
  {}

  /** _choose_num_kv_splits: the largest power of two that fits and divides topk. */
  method ChooseNumKvSplits(numTokens: nat, numHeadGroups: nat, topk: nat, smCount: nat) returns (r: nat)
    ensures PowerOfTwo(r) && topk % r == 0
    ensures numTokens * numHeadGroups == 0 || numTokens * numHeadGroups * 4 >= smCount ==> r == 1
    ensures SplitFits(r, numTokens * numHeadGroups, topk, smCount)
    ensures 0 < numTokens * numHeadGroups && numTokens * numHeadGroups * 4 < smCount ==>
      forall q: nat | PowerOfTwo(q) && topk % q == 0 && SplitFits(q, numTokens * numHeadGroups, topk, smCount) ::
          q <= r
  {
    var baseline := numTokens * numHeadGroups;
    if baseline == 0 || baseline * SPLIT_MAX_OCCUPANCY >= smCount {
      return 1;
    }
    var ideal := NextPowerOfTwo(Max1(topk / MIN_TOPK_PER_SPLIT));
    var maxSplits := Max1(smCount / baseline);
    maxSplits := FloorPowerOfTwo(maxSplits);
    r := if ideal < maxSplits then ideal else maxSplits;
    ghost var cap := r;
    forall q: nat | PowerOfTwo(q)
      ensures SplitFits(q, baseline, topk, smCount) <==> q <= cap
    {
      CapsAreFits(q, baseline, topk, smCount);
    }
    hide SplitFits;
    while r > 1 && topk % r != 0
      invariant PowerOfTwo(r) && r <= cap
      invariant forall q: nat | PowerOfTwo(q) && topk % q == 0 && q <= cap :: q <= r
    {
      forall q: nat | PowerOfTwo(q) && topk % q == 0 && q <= cap
        ensures q <= r / 2
      {
        PowersDouble(q, r);
      }
      r := r / 2;
    }
  }

  /** A split count that divides topk cuts it into equal consecutive slices; with whole tiles in
      each, splitting equals the single pass. */
  lemma EvenSplitsAgree(c: Row, m: Math, splits: nat, finalBlock: nat, splitBlock: nat)
    requires Lawful(m) && splits > 0 && finalBlock > 0 && splitBlock > 0
    requires |c.indices| % splits == 0 && |c.indices| % finalBlock == 0 && |c.indices| / splits % splitBlock == 0
    ensures forall id | 0 <= id < splits ::
              SplitEnd(|c.indices|, splits, id) == SplitStart(|c.indices|, splits, id) + |c.indices| / splits
    ensures Output(c, m, LaunchPads(|c.indices|, splits, finalBlock, splitBlock))
         == Output(c, m, LaunchPads(|c.indices|, 1, finalBlock, splitBlock)) == Output(c, m, 0)
  {
    var k := |c.indices|;
    var w := k / splits;
    Arith.Whole(k, splits);
    Arith.DivUnique(k + splits - 1, splits, w);
    forall id: nat | 0 <= id < splits
      ensures SplitEnd(k, splits, id) == SplitStart(k, splits, id) + w && SliceFits(k, splits, splitBlock, id)
    {
      Arith.MulLe(id + 1, splits, w);
    }
    SplitPadsZero(k, splits, splitBlock, splits);
    StopAligned(0, k, finalBlock);
  }
}
