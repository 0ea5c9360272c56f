/** The Hadamard rotation of the indexer heads: butterfly stages against the recursively doubled
    matrix, for every power of two. */
module Hadamard {

  type Vector = seq<real>
  type Matrix = seq<seq<real>>

  function Pow2(k: nat): (n: nat)
    ensures n > 0
  {
    if k == 0 then 1 else 2 * Pow2(k - 1)
  }

  function Add(a: Vector, b: Vector): (r: Vector)
    requires |a| == |b|
    ensures |r| == |a|
  {
    seq(|a|, i requires 0 <= i < |a| => a[i] + b[i])
  }

  function Sub(a: Vector, b: Vector): (r: Vector)
    requires |a| == |b|
    ensures |r| == |a|
  {
    seq(|a|, i requires 0 <= i < |a| => a[i] - b[i])
  }

  function Times(x: real, y: real): real {
    x * y
  }

  function Scale(c: real, a: Vector): (r: Vector)
    ensures |r| == |a|
  {
    seq(|a|, i requires 0 <= i < |a| => Times(c, a[i]))
  }

  // ---- Butterfly stages ------------------------------------------------------------------------

  /** n elements are whole groups of w. */
  predicate Tiles(n: nat, w: nat)
    requires w > 0
  {
    n == 0 || (n >= w && Tiles(n - w, w))
  }

  /** One group of a stage: (lo, hi) becomes (lo + hi, lo - hi). */
  function Butterfly(lo: Vector, hi: Vector): (r: Vector)
    requires |lo| == |hi|
    ensures |r| == |lo| + |hi|
  {
    Add(lo, hi) + Sub(lo, hi)
  }

  /** _fwht_stage: the flat tensor viewed as (GROUPS, 2, STRIDE). */
  function Stage(x: Vector, stride: nat): (r: Vector)
    requires stride > 0 && Tiles(|x|, 2 * stride)
    ensures |r| == |x|
    decreases |x|
  {
    if x == [] then []
    else Butterfly(x[..stride], x[stride..2 * stride]) + Stage(x[2 * stride..], stride)
  }

  /** The stages of strides 1, 2, ..., 2^(k-1), one after the other. */
  function Stages(x: Vector, k: nat): (r: Vector)
    requires Tiles(|x|, Pow2(k))
    ensures |r| == |x|
    decreases k
  {
    if k == 0 then x
    else
      TilesHalve(|x|, Pow2(k - 1));
      Stage(Stages(x, k - 1), Pow2(k - 1))
  }

  lemma {:induction false} TilesJoin(a: nat, b: nat, w: nat)
    requires w > 0 && Tiles(a, w) && Tiles(b, w)
    ensures Tiles(a + b, w)
    decreases a
  {
    if a > 0 {
      TilesJoin(a - w, b, w);
    }
  }

  lemma {:induction false} TilesHalve(n: nat, w: nat)
    requires w > 0 && Tiles(n, 2 * w)
    ensures Tiles(n, w)
    decreases n
  {
    if n > 0 {
      TilesHalve(n - 2 * w, w);
    }
  }

  lemma Regroup(a: Vector, b: Vector, c: Vector)
    ensures a + (b + c) == (a + b) + c
  {}

  /** Pairs never straddle a group boundary. */
  lemma {:induction false} StageJoins(x: Vector, y: Vector, stride: nat)
    requires stride > 0 && Tiles(|x|, 2 * stride) && Tiles(|y|, 2 * stride)
    ensures Tiles(|x + y|, 2 * stride) && Stage(x + y, stride) == Stage(x, stride) + Stage(y, stride)
    decreases |x|
  {
    hide Butterfly;
    TilesJoin(|x|, |y|, 2 * stride);
    if x == [] {
      assert x + y == y;
    } else {
      var z, rest := x + y, x[2 * stride..];
      StageJoins(rest, y, stride);
      assert z[..stride] == x[..stride] && z[stride..2 * stride] == x[stride..2 * stride];
      assert z[2 * stride..] == rest + y;
      var b := Butterfly(x[..stride], x[stride..2 * stride]);
      assert Stage(z, stride) == b + Stage(rest + y, stride);
      Regroup(b, Stage(rest, stride), Stage(y, stride));
    }
  }

  lemma {:induction false} StagesJoin(x: Vector, y: Vector, k: nat)
    requires Tiles(|x|, Pow2(k)) && Tiles(|y|, Pow2(k))
    ensures Tiles(|x + y|, Pow2(k)) && Stages(x + y, k) == Stages(x, k) + Stages(y, k)
    decreases k
  {
    TilesJoin(|x|, |y|, Pow2(k));
    if k > 0 {
      TilesHalve(|x|, Pow2(k - 1));
      TilesHalve(|y|, Pow2(k - 1));
      StagesJoin(x, y, k - 1);
      StageJoins(Stages(x, k - 1), Stages(y, k - 1), Pow2(k - 1));
    }
  }

  lemma RowTiles(k: nat)
    ensures Tiles(Pow2(k), Pow2(k))
  {
    assert Tiles(0, Pow2(k));
  }

  /** The stages over a single row. */
  function RowTransform(x: Vector, k: nat): (r: Vector)
    requires |x| == Pow2(k)
    ensures |r| == |x|
  {
    RowTiles(k);
    Stages(x, k)
  }

  /** The stages of one row are one butterfly over the stages of its halves. */
  lemma RowUnfold(lo: Vector, hi: Vector, k: nat)
    requires |lo| == |hi| == Pow2(k)
    ensures RowTransform(lo + hi, k + 1) == Butterfly(RowTransform(lo, k), RowTransform(hi, k))
  {
    var w := Pow2(k);
    RowTiles(k);
    RowTiles(k + 1);
    StagesJoin(lo, hi, k);
    var s := Stages(lo, k) + Stages(hi, k);
    assert s[..w] == Stages(lo, k) && s[w..2 * w] == Stages(hi, k) && s[2 * w..] == [];
    assert Stage(s, w) == Butterfly(s[..w], s[w..2 * w]) + Stage(s[2 * w..], w);
  }

  // ---- Rows ------------------------------------------------------------------------------------

  function Flat(rows: seq<Vector>): Vector {
    if rows == [] then [] else rows[0] + Flat(rows[1..])
  }

  ghost predicate Rows(rows: seq<Vector>, k: nat) {
    forall i | 0 <= i < |rows| :: |rows[i]| == Pow2(k)
  }

  /** Transforming BLOCK_R rows as one flat tensor transforms every row by itself. */
  lemma {:induction false} FlatIsRowByRow(rows: seq<Vector>, k: nat)
    requires Rows(rows, k)
    ensures Tiles(|Flat(rows)|, Pow2(k)) && Tiles(Pow2(k), Pow2(k))
    ensures Stages(Flat(rows), k) == Flat(seq(|rows|, i requires 0 <= i < |rows| => Stages(rows[i], k)))
    decreases |rows|
  {
    RowTiles(k);
    var each := seq(|rows|, i requires 0 <= i < |rows| => Stages(rows[i], k));
    if rows == [] {
      assert Stages([], k) == [];
    } else {
      FlatIsRowByRow(rows[1..], k);
      StagesJoin(rows[0], Flat(rows[1..]), k);
      assert each[1..] == seq(|rows[1..]|, i requires 0 <= i < |rows[1..]| => Stages(rows[1..][i], k));
    }
  }

  // ---- The doubled matrix ----------------------------------------------------------------------

  function Negated(h: Matrix): Matrix {
    seq(|h|, i requires 0 <= i < |h| => Scale(-1.0, h[i]))
  }

  /** torch.cat along dim 1. */
  function Beside(a: Matrix, b: Matrix): Matrix
    requires |a| == |b|
  {
    seq(|a|, i requires 0 <= i < |a| => a[i] + b[i])
  }

  function Doubled(h: Matrix): Matrix {
    Beside(h, h) + Beside(h, Negated(h))
  }

  ghost predicate Square(h: Matrix, n: nat) {
    |h| == n && forall i | 0 <= i < n :: |h[i]| == n
  }

  function HadamardMatrix(k: nat): (h: Matrix)
    ensures Square(h, Pow2(k))
  {
    if k == 0 then [[1.0]] else Doubled(HadamardMatrix(k - 1))
  }

  /** x @ h for the first m rows: entry j. */
  function Dot(x: Vector, h: Matrix, j: nat, m: nat): real
    requires m <= |x| && m <= |h| && forall i | 0 <= i < m :: j < |h[i]|
  {
    if m == 0 then 0.0 else Dot(x, h, j, m - 1) + Times(x[m - 1], h[m - 1][j])
  }

  function VecMat(x: Vector, h: Matrix): (r: Vector)
    requires Square(h, |x|)
    ensures |r| == |x|
  {
    seq(|x|, j requires 0 <= j < |x| => Dot(x, h, j, |x|))
  }

  /** Rows 0..m of the doubled matrix: the column j of h, twice. */
  lemma {:induction false} DotUpper(x: Vector, h: Matrix, n: nat, j: nat, m: nat)
    requires Square(h, n) && |x| == 2 * n && j < n && m <= n
    ensures |Doubled(h)| == 2 * n && forall i | 0 <= i < 2 * n :: |Doubled(h)[i]| == 2 * n
    ensures Dot(x, Doubled(h), j, m) == Dot(x[..n], h, j, m) == Dot(x, Doubled(h), n + j, m)
  {
    if m > 0 {
      DotUpper(x, h, n, j, m - 1);
      DoubledRow(h, n, j, m - 1);
      hide Times, Doubled;
    }
  }

  lemma TimesNegated(v: real, e: real)
    ensures Times(v, -e) == -Times(v, e)
  {}

  lemma DoubledRow(h: Matrix, n: nat, j: nat, i: nat)
    requires Square(h, n) && j < n && i < n
    ensures |Doubled(h)| == 2 * n && |Doubled(h)[i]| == |Doubled(h)[n + i]| == 2 * n
    ensures Doubled(h)[i][j] == Doubled(h)[i][n + j] == Doubled(h)[n + i][j] == h[i][j]
    ensures Doubled(h)[n + i][n + j] == -h[i][j]
  {
    assert Doubled(h)[n + i] == h[i] + Scale(-1.0, h[i]);
  }

  /** Rows n..n+m: the column j of h, with either sign. */
  lemma {:induction false} DotLower(x: Vector, h: Matrix, n: nat, j: nat, m: nat)
    requires Square(h, n) && |x| == 2 * n && j < n && m <= n
    ensures |Doubled(h)| == 2 * n && forall i | 0 <= i < 2 * n :: |Doubled(h)[i]| == 2 * n
    ensures Dot(x, Doubled(h), j, n + m) == Dot(x[..n], h, j, n) + Dot(x[n..], h, j, m)
    ensures Dot(x, Doubled(h), n + j, n + m) == Dot(x[..n], h, j, n) - Dot(x[n..], h, j, m)
  {
    if m == 0 {
      DotUpper(x, h, n, j, n);
    } else {
      DotLower(x, h, n, j, m - 1);
      DoubledRow(h, n, j, m - 1);
      hide Doubled;
      var v, e := x[n + m - 1], h[m - 1][j];
      assert x[n..][m - 1] == v;
      TimesNegated(v, e);
      hide Times;
      assert Dot(x, Doubled(h), j, n + m) == Dot(x, Doubled(h), j, n + m - 1) + Times(v, e);
      assert Dot(x, Doubled(h), n + j, n + m) == Dot(x, Doubled(h), n + j, n + m - 1) - Times(v, e);
    }
  }

  lemma DoubledSquare(h: Matrix, n: nat)
    requires Square(h, n)
    ensures Square(Doubled(h), 2 * n)
  {}

  lemma VecMatUnfold(lo: Vector, hi: Vector, h: Matrix)
    requires |lo| == |hi| && Square(h, |lo|)
    ensures Square(Doubled(h), |lo + hi|)
    ensures VecMat(lo + hi, Doubled(h)) == Butterfly(VecMat(lo, h), VecMat(hi, h))
  {
    var n, x := |lo|, lo + hi;
    DoubledSquare(h, n);
    assert x[..n] == lo && x[n..] == hi;
    forall j | 0 <= j < n
      ensures VecMat(x, Doubled(h))[j] == VecMat(lo, h)[j] + VecMat(hi, h)[j]
      ensures VecMat(x, Doubled(h))[n + j] == VecMat(lo, h)[j] - VecMat(hi, h)[j]
    {
      DotLower(x, h, n, j, n);
    }
    var b := Butterfly(VecMat(lo, h), VecMat(hi, h));
    forall j | 0 <= j < 2 * n
      ensures VecMat(x, Doubled(h))[j] == b[j]
    {
      if j >= n {
        var i := j - n;
        assert VecMat(x, Doubled(h))[n + i] == b[j];
      }
    }
  }

  /** The staged transform of one row is the product with the Hadamard matrix. */
  lemma {:induction false} StagesAreMatrix(x: Vector, k: nat)
    requires |x| == Pow2(k)
    ensures RowTransform(x, k) == VecMat(x, HadamardMatrix(k))
    decreases k
  {
    if k == 0 {
      assert Dot(x, [[1.0]], 0, 1) == x[0];
    } else {
      var n := Pow2(k - 1);
      var lo, hi := x[..n], x[n..];
      assert x == lo + hi;
      StagesAreMatrix(lo, k - 1);
      StagesAreMatrix(hi, k - 1);
      RowUnfold(lo, hi, k - 1);
      VecMatUnfold(lo, hi, HadamardMatrix(k - 1));
    }
  }

  /** Bits that two numbers below 2^k have in common. */
  function CommonBits(k: nat, i: nat, j: nat): nat {
    if k == 0 then 0
    else
      var n := Pow2(k - 1);
      if i >= n && j >= n then CommonBits(k - 1, i - n, j - n) + 1
      else CommonBits(k - 1, if i >= n then i - n else i, if j >= n then j - n else j)
  }

  /** Entry (i, j) of the matrix is 1 or -1 by the parity of the bits that i and j have in common. */
  lemma {:induction false} MatrixEntry(k: nat, i: nat, j: nat)
    requires i < Pow2(k) && j < Pow2(k)
    ensures HadamardMatrix(k)[i][j] == if CommonBits(k, i, j) % 2 == 0 then 1.0 else -1.0
  {
    hide Doubled;
    if k > 0 {
      var n := Pow2(k - 1);
      var u, v := if i >= n then i - n else i, if j >= n then j - n else j;
      var h, x := HadamardMatrix(k - 1), CommonBits(k - 1, u, v);
      MatrixEntry(k - 1, u, v);
      DoubledRow(h, n, v, u);
      assert HadamardMatrix(k) == Doubled(h);
      assert CommonBits(k, i, j) == if i >= n && j >= n then x + 1 else x;
    }
  }

  /** The doubling loop of _hadamard128_torch, for n = 2^k with k > 0. */
  method TorchMatrix(k: nat) returns (h: Matrix)
    requires k > 0
    ensures h == HadamardMatrix(k)
  {
    var n := Pow2(k);
    h := [[1.0, 1.0], [1.0, -1.0]];
    ghost var j := 1;
    assert h == HadamardMatrix(1) by {
      var one: Matrix := [[1.0]];
      assert HadamardMatrix(0) == one;
      assert Scale(-1.0, [1.0]) == [-1.0];
      assert Negated(one) == [[-1.0]];
      assert Beside(one, one) == [[1.0] + [1.0]] && Beside(one, Negated(one)) == [[1.0] + [-1.0]];
      assert [1.0] + [1.0] == [1.0, 1.0] && [1.0] + [-1.0] == [1.0, -1.0];
      assert Doubled(one) == h;
    }
    while |h| < n
      invariant 1 <= j <= k && h == HadamardMatrix(j)
      decreases k - j
    {
      PowersGrow(j, k);
      h := Beside(h, h) + Beside(h, Negated(h));
      j := j + 1;
    }
    PowersGrow(j, k);
  }

  lemma {:induction false} PowersGrow(j: nat, k: nat)
    requires j <= k
    ensures Pow2(j) <= Pow2(k) && (j < k ==> Pow2(j) < Pow2(k))
    decreases k
  {
    if j < k {
      PowersGrow(j, k - 1);
    }
  }

  // ---- Twice is n times ------------------------------------------------------------------------

  lemma Halves(x: Vector, n: nat)
    requires |x| == 2 * n
    ensures x == x[..n] + x[n..]
  {}

  function Combine(plus: bool, a: Vector, b: Vector): (r: Vector)
    requires |a| == |b|
    ensures |r| == |a|
  {
    if plus then Add(a, b) else Sub(a, b)
  }

  lemma CombineHalves(plus: bool, al: Vector, ah: Vector, bl: Vector, bh: Vector)
    requires |al| == |bl| && |ah| == |bh|
    ensures Combine(plus, al + ah, bl + bh) == Combine(plus, al, bl) + Combine(plus, ah, bh)
  {}

  /** The transform of a sum or difference is the sum or difference of the transforms. */
  lemma {:induction false} Linear(plus: bool, a: Vector, b: Vector, k: nat)
    requires |a| == |b| == Pow2(k)
    ensures RowTransform(Combine(plus, a, b), k) == Combine(plus, RowTransform(a, k), RowTransform(b, k))
    decreases k
  {
    hide Combine, Butterfly, RowTransform;
    if k == 0 {
      RowOne(a);
      RowOne(b);
      RowOne(Combine(plus, a, b));
    } else {
      var n := Pow2(k - 1);
      var al, ah, bl, bh := a[..n], a[n..], b[..n], b[n..];
      Halves(a, n);
      Halves(b, n);
      Linear(plus, al, bl, k - 1);
      Linear(plus, ah, bh, k - 1);
      RowUnfold(al, ah, k - 1);
      RowUnfold(bl, bh, k - 1);
      CombineHalves(plus, al, ah, bl, bh);
      RowUnfold(Combine(plus, al, bl), Combine(plus, ah, bh), k - 1);
      ButterflyLinear(plus, RowTransform(al, k - 1), RowTransform(ah, k - 1), RowTransform(bl, k - 1),
          RowTransform(bh, k - 1));
    }
  }

  lemma ButterflyLinear(plus: bool, p: Vector, q: Vector, r: Vector, s: Vector)
    requires |p| == |q| == |r| == |s|
    ensures Butterfly(Combine(plus, p, r), Combine(plus, q, s)) == Combine(plus, Butterfly(p, q), Butterfly(r, s))
  {
    CombineHalves(plus, Add(p, q), Sub(p, q), Add(r, s), Sub(r, s));
    assert Add(Combine(plus, p, r), Combine(plus, q, s)) == Combine(plus, Add(p, q), Add(r, s));
    assert Sub(Combine(plus, p, r), Combine(plus, q, s)) == Combine(plus, Sub(p, q), Sub(r, s));
  }

  lemma TimesTwice(c: real, d: real, e: real, x: real)
    requires e == d * c
    ensures Times(d, Times(c, x)) == Times(e, x)
  {}

  lemma ScaleTwice(c: real, d: real, e: real, x: Vector)
    requires e == d * c
    ensures Scale(d, Scale(c, x)) == Scale(e, x)
  {
    forall i | 0 <= i < |x|
      ensures Scale(d, Scale(c, x))[i] == Scale(e, x)[i]
    {
      TimesTwice(c, d, e, x[i]);
    }
  }

  lemma ScaleHalves(c: real, lo: Vector, hi: Vector)
    ensures Scale(c, lo + hi) == Scale(c, lo) + Scale(c, hi)
  {}

  /** A butterfly over a butterfly doubles both halves. */
  lemma ButterflyTwice(u: Vector, v: Vector, two: real)
    requires |u| == |v| && two == 2.0
    ensures Butterfly(Add(u, v), Sub(u, v)) == Scale(two, u) + Scale(two, v)
  {
    var b := Butterfly(Add(u, v), Sub(u, v));
    assert b[..|u|] == Scale(two, u);
    assert b[|u|..] == Scale(two, v);
    assert b == b[..|u|] + b[|u|..];
  }

  lemma ButterflyScale(c: real, e: real, lo: Vector, hi: Vector)
    requires |lo| == |hi| && e == 2.0 * c
    ensures Butterfly(Add(Scale(c, lo), Scale(c, hi)), Sub(Scale(c, lo), Scale(c, hi))) == Scale(e, lo + hi)
  {
    hide Add, Sub, Scale, Butterfly;
    var two: real := 2.0;
    ButterflyTwice(Scale(c, lo), Scale(c, hi), two);
    ScaleTwice(c, two, e, lo);
    ScaleTwice(c, two, e, hi);
    ScaleHalves(e, lo, hi);
  }

  /** The unscaled transform is its own inverse up to a factor n. */
  lemma {:induction false} TwiceIsScale(x: Vector, k: nat)
    requires |x| == Pow2(k)
    ensures RowTransform(RowTransform(x, k), k) == Scale(Pow2(k) as real, x)
    decreases k
  {
    hide Add, Sub, Scale, Butterfly, RowTransform;
    if k == 0 {
      ScaleOne(x);
      ScaleOne(RowTransform(x, 0));
      RowOne(x);
    } else {
      var n := Pow2(k - 1);
      var lo, hi := x[..n], x[n..];
      Halves(x, n);
      TwiceIsScale(lo, k - 1);
      TwiceIsScale(hi, k - 1);
      RowTwice(lo, hi, k - 1);
      ButterflyScale(n as real, Pow2(k) as real, lo, hi);
    }
  }

  lemma RowOne(x: Vector)
    requires |x| == 1
    ensures RowTransform(x, 0) == x
  {}

  lemma RowTwice(lo: Vector, hi: Vector, k: nat)
    requires |lo| == |hi| == Pow2(k)
    ensures RowTransform(RowTransform(lo + hi, k + 1), k + 1)
      == Butterfly(Add(RowTransform(RowTransform(lo, k), k), RowTransform(RowTransform(hi, k), k)),
                   Sub(RowTransform(RowTransform(lo, k), k), RowTransform(RowTransform(hi, k), k)))
  {
    hide Add, Sub, Butterfly, RowTransform;
    var p, q := RowTransform(lo, k), RowTransform(hi, k);
    RowUnfold(lo, hi, k);
    ButterflySplit(p, q);
    RowUnfold(Add(p, q), Sub(p, q), k);
    Linear(true, p, q, k);
    Linear(false, p, q, k);
  }

  lemma ButterflySplit(p: Vector, q: Vector)
    requires |p| == |q|
    ensures Butterfly(p, q) == Add(p, q) + Sub(p, q)
  {}

  lemma {:induction false} Homogeneous(c: real, x: Vector, k: nat)
    requires |x| == Pow2(k)
    ensures RowTransform(Scale(c, x), k) == Scale(c, RowTransform(x, k))
    decreases k
  {
    hide Scale, RowTransform, Butterfly;
    if k == 0 {
      RowOne(x);
      RowOne(Scale(c, x));
    } else {
      var n := Pow2(k - 1);
      var lo, hi := x[..n], x[n..];
      Halves(x, n);
      Homogeneous(c, lo, k - 1);
      Homogeneous(c, hi, k - 1);
      RowUnfold(lo, hi, k - 1);
      ScaleHalves(c, lo, hi);
      RowUnfold(Scale(c, lo), Scale(c, hi), k - 1);
      ButterflyScaled(c, RowTransform(lo, k - 1), RowTransform(hi, k - 1));
    }
  }

  lemma ButterflyScaled(c: real, p: Vector, q: Vector)
    requires |p| == |q|
    ensures Butterfly(Scale(c, p), Scale(c, q)) == Scale(c, Butterfly(p, q))
  {
    var l, r := Butterfly(Scale(c, p), Scale(c, q)), Scale(c, Butterfly(p, q));
    forall i | 0 <= i < |l|
      ensures l[i] == r[i]
    {
      var j := if i < |p| then i else i - |p|;
      Distribute(c, p[j], q[j]);
    }
  }

  lemma Distribute(c: real, x: real, y: real)
    ensures Times(c, x) + Times(c, y) == Times(c, x + y) && Times(c, x) - Times(c, y) == Times(c, x - y)
  {}

  /** _hadamard128: the stages, then the scale. */
  function Rotate(x: Vector, k: nat, scale: real): Vector
    requires |x| == Pow2(k)
  {
    Scale(scale, RowTransform(x, k))
  }

  /** Entry j of the rotation is the scale times the product with column j of the matrix. */
  lemma RotateEntry(x: Vector, k: nat, scale: real, j: nat)
    requires |x| == Pow2(k) && j < |x|
    ensures |Rotate(x, k, scale)| == |x|
    ensures Rotate(x, k, scale)[j] == scale * Dot(x, HadamardMatrix(k), j, |x|)
  {
    hide Dot, HadamardMatrix, RowTransform;
    StagesAreMatrix(x, k);
  }

  /** With scale 1/sqrt(n) the rotation is an involution. */
  lemma RotateTwice(x: Vector, k: nat, scale: real)
    requires |x| == Pow2(k) && scale * scale * Pow2(k) as real == 1.0
    ensures Rotate(Rotate(x, k, scale), k, scale) == x
  {
    hide RowTransform, Scale;
    var c := Pow2(k) as real;
    Homogeneous(scale, RowTransform(x, k), k);
    TwiceIsScale(x, k);
    var sc := scale * c;
    ScaleTwice(c, scale, sc, x);
    ScaleTwice(sc, scale, 1.0, x);
    ScaleOne(x);
  }

  lemma ScaleOne(x: Vector)
    ensures Scale(1.0, x) == x
  {}
}
