/** The copy grid of the align kernels: one program per batch row, state and tile, in any order. */
module AlignGrid {
  import opened AlignMachine

  /** What a kernel decides for one batch row. */
  datatype Move = Move(copy: bool, src: int, dst: int, bias: int)

  /** The rows of a launch: their slots, -1 for none, and their moves. */
  datatype Batch = Batch(idx: seq<int>, moves: seq<Move>)

  /** One state tensor: its kind, its group's block table by slot, the cells of a block. */
  datatype View = View(conv: bool, table: seq<seq<nat>>, size: nat)

  datatype Program = Program(row: nat, state: nat, tile: nat)

  /** The tiles of a launch, and the tile that owns a cell of a row's temporal copy. */
  datatype Tiling = Tiling(tiles: nat, owner: (nat, nat) -> nat)

  type Pool = seq<seq<int>>

  ghost predicate Sized(pool: Pool, size: nat) {
    forall b | 0 <= b < |pool| :: |pool[b]| == size
  }

  predicate Mapped(idx: seq<int>, slots: nat) {
    && (forall b | 0 <= b < |idx| :: idx[b] < slots)
    && (forall a, b | 0 <= a < b < |idx| && 0 <= idx[a] :: idx[a] != idx[b])
  }

  predicate Copies(t: Batch, b: nat) {
    b < |t.idx| && b < |t.moves| && t.idx[b] >= 0 && t.moves[b].copy
  }

  /** A move stays inside its row of the table, the pool and the block. */
  predicate MoveFits(v: View, row: seq<nat>, mv: Move, blocks: nat) {
    && 0 <= mv.bias && 0 <= mv.src && mv.src + mv.bias < |row| && 0 <= mv.dst < |row| && InPool(row, blocks)
    && (v.conv ==> mv.bias <= v.size)
  }

  ghost predicate Fits(v: View, t: Batch, blocks: nat) {
    && Mapped(t.idx, |v.table|) && |t.moves| == |t.idx|
    && forall b: nat | Copies(t, b) :: MoveFits(v, v.table[t.idx[b]], t.moves[b], blocks)
  }

  /** The block a row's move writes. */
  function To(v: View, t: Batch, b: nat): nat
    requires Copies(t, b) && t.idx[b] < |v.table| && 0 <= t.moves[b].dst < |v.table[t.idx[b]]|
  {
    v.table[t.idx[b]][t.moves[b].dst]
  }

  /** The block it reads: the bias selects a column for temporal states, a cell for conv states. */
  function From(v: View, t: Batch, b: nat): nat
    requires Copies(t, b) && t.idx[b] < |v.table|
    requires 0 <= t.moves[b].src && 0 <= t.moves[b].bias && t.moves[b].src + t.moves[b].bias < |v.table[t.idx[b]]|
  {
    v.table[t.idx[b]][if v.conv then t.moves[b].src else t.moves[b].src + t.moves[b].bias]
  }

  function Shift(v: View, mv: Move): (e: int)
    ensures 0 <= mv.bias ==> 0 <= e
  {
    if v.conv then mv.bias else 0
  }

  /** The tile of the program that moves cell k; a conv state is moved by tile 0 alone. */
  function TileOf(v: View, g: Tiling, b: nat, k: nat): nat {
    if v.conv then 0 else g.owner(b, k)
  }

  ghost predicate GoodTiling(g: Tiling) {
    g.tiles > 0 && forall b: nat, k: nat :: g.owner(b, k) < g.tiles
  }

  /** The destination block after one program. */
  function MovedBlock(v: View, g: Tiling, from: seq<int>, to: seq<int>, mv: Move, b: nat, tile: nat): (r: seq<int>)
    requires |from| == |to| == v.size && 0 <= mv.bias
    ensures |r| == v.size
    ensures forall k | 0 <= k < v.size ::
              r[k] == if k + Shift(v, mv) < v.size && TileOf(v, g, b, k) == tile then from[k + Shift(v, mv)] else to[k]
  {
    seq(v.size, k requires 0 <= k < v.size =>
      if k + Shift(v, mv) < v.size && TileOf(v, g, b, k) == tile then from[k + Shift(v, mv)] else to[k])
  }

  /** One tile of a move on the state's pool. */
  ghost function MoveTile(v: View, g: Tiling, pool: Pool, row: seq<nat>, mv: Move, b: nat, tile: nat): (q: Pool)
    requires Sized(pool, v.size) && MoveFits(v, row, mv, |pool|)
    ensures Sized(q, v.size) && |q| == |pool|
  {
    var from := if v.conv then mv.src else mv.src + mv.bias;
    pool[row[mv.dst] := MovedBlock(v, g, pool[row[from]], pool[row[mv.dst]], mv, b, tile)]
  }

  /** One program on its state's pool. */
  ghost function RunProgram(v: View, t: Batch, g: Tiling, pool: Pool, b: nat, tile: nat): (q: Pool)
    requires Sized(pool, v.size) && Fits(v, t, |pool|)
    ensures Sized(q, v.size) && |q| == |pool|
  {
    if !Copies(t, b) then pool
    else MoveTile(v, g, pool, v.table[t.idx[b]], t.moves[b], b, tile)
  }

  /** State s's pool after the programs in that order. */
  ghost function RunGrid(v: View, t: Batch, g: Tiling, pool: Pool, s: nat, order: seq<Program>): (q: Pool)
    requires Sized(pool, v.size) && Fits(v, t, |pool|)
    ensures Sized(q, v.size) && |q| == |pool|
  {
    if order == [] then pool
    else
      var p := order[|order| - 1];
      var before := RunGrid(v, t, g, pool, s, order[..|order| - 1]);
      if p.state == s then RunProgram(v, t, g, before, p.row, p.tile) else before
  }

  /** The destination block after the whole move of a row. */
  function WholeBlock(v: View, from: seq<int>, to: seq<int>, mv: Move): (r: seq<int>)
    requires |from| == |to| == v.size && 0 <= mv.bias && (v.conv ==> mv.bias <= v.size)
    ensures |r| == v.size
    ensures forall k | 0 <= k < v.size :: r[k] == if k + Shift(v, mv) < v.size then from[k + Shift(v, mv)] else to[k]
  {
    if v.conv then from[mv.bias..] + to[|to| - mv.bias..] else from
  }

  /** The pool after row c's whole move. */
  ghost function MoveRow(v: View, t: Batch, r: Pool, c: nat): (q: Pool)
    requires Sized(r, v.size) && Fits(v, t, |r|)
    ensures Sized(q, v.size) && |q| == |r|
  {
    if !Copies(t, c) then r
    else r[To(v, t, c) := WholeBlock(v, r[From(v, t, c)], r[To(v, t, c)], t.moves[c])]
  }

  /** State s's pool after the whole moves of the first n rows. */
  ghost function MoveRows(v: View, t: Batch, pool: Pool, n: nat): (q: Pool)
    requires Sized(pool, v.size) && Fits(v, t, |pool|) && n <= |t.idx|
    ensures Sized(q, v.size) && |q| == |pool|
  {
    if n == 0 then pool
    else
      MoveRow(v, t, MoveRows(v, t, pool, n - 1), n - 1)
  }

  // ---- Every order of the grid ----------------------------------------------------------------

  /** No row writes a block that another row's move touches. */
  ghost predicate Apart(v: View, t: Batch, blocks: nat)
    requires Fits(v, t, blocks)
  {
    forall a: nat, b: nat | a != b && Copies(t, a) && Copies(t, b) ::
      To(v, t, a) != To(v, t, b) && To(v, t, a) != From(v, t, b)
  }

  /** The programs of a launch, each once. */
  ghost predicate Enumerates(order: seq<Program>, rows: nat, states: nat, tiles: nat) {
    && (forall a, b | 0 <= a < b < |order| :: order[a] != order[b])
    && (forall p: Program :: p in order <==> p.row < rows && p.state < states && p.tile < tiles)
  }

  /** Some row of the first n moves cell k of the block. */
  ghost predicate Hit(v: View, t: Batch, n: nat, x: nat, k: nat, blocks: nat)
    requires Fits(v, t, blocks)
  {
    exists b: nat :: b < n && HitBy(v, t, b, x, k, blocks)
  }

  ghost predicate HitBy(v: View, t: Batch, b: nat, x: nat, k: nat, blocks: nat)
    requires Fits(v, t, blocks)
  {
    Copies(t, b) && To(v, t, b) == x && k + Shift(v, t.moves[b]) < v.size
  }

  /** Row b has moved its cell k: what the pool held in the source before the launch is there. */
  ghost predicate Landed(v: View, t: Batch, pool: Pool, q: Pool, b: nat, k: nat)
    requires Sized(pool, v.size) && Fits(v, t, |pool|) && Sized(q, v.size) && |q| == |pool| && k < v.size
    requires Copies(t, b) && k + Shift(v, t.moves[b]) < v.size
  {
    q[To(v, t, b)][k] == pool[From(v, t, b)][k + Shift(v, t.moves[b])]
  }

  /** The rows that have moved, cell by cell. */
  ghost predicate Moved(v: View, t: Batch, pool: Pool, n: nat, q: Pool)
    requires Sized(pool, v.size) && Fits(v, t, |pool|) && Sized(q, v.size) && |q| == |pool|
  {
    && (forall b: nat, k: nat | b < n && Copies(t, b) && k < v.size && k + Shift(v, t.moves[b]) < v.size ::
          Landed(v, t, pool, q, b, k))
    && (forall x: nat, k: nat | x < |pool| && k < v.size && !Hit(v, t, n, x, k, |pool|) :: q[x][k] == pool[x][k])
  }

  /** The row-by-row launch, cell by cell. */
  lemma {:induction false} RowsCells(v: View, t: Batch, pool: Pool, n: nat)
    requires Sized(pool, v.size) && Fits(v, t, |pool|) && Apart(v, t, |pool|) && n <= |t.idx|
    ensures Moved(v, t, pool, n, MoveRows(v, t, pool, n))
  {
    hide Moved, Apart, Fits;
    if n == 0 {
      NothingMoved(v, t, pool);
    } else {
      RowsCells(v, t, pool, n - 1);
      RowsNext(v, t, pool, n - 1, MoveRows(v, t, pool, n - 1));
    }
  }

  lemma NothingMoved(v: View, t: Batch, pool: Pool)
    requires Sized(pool, v.size) && Fits(v, t, |pool|)
    ensures Moved(v, t, pool, 0, pool)
  {}

  lemma RowsNext(v: View, t: Batch, pool: Pool, c: nat, r: Pool)
    requires Sized(pool, v.size) && Fits(v, t, |pool|) && Apart(v, t, |pool|) && Sized(r, v.size) && |r| == |pool|
    requires Moved(v, t, pool, c, r)
    ensures Moved(v, t, pool, c + 1, MoveRow(v, t, r, c))
  {
    var q := MoveRow(v, t, r, c);
    forall b: nat, k: nat | b < c + 1 && Copies(t, b) && k < v.size && k + Shift(v, t.moves[b]) < v.size
      ensures Landed(v, t, pool, q, b, k)
    {
      RowLands(v, t, pool, c, r, b, k);
    }
    forall x: nat, k: nat | x < |pool| && k < v.size && !Hit(v, t, c + 1, x, k, |pool|)
      ensures q[x][k] == pool[x][k]
    {
      RowLeaves(v, t, pool, c, r, x, k);
    }
  }

  lemma RowLands(v: View, t: Batch, pool: Pool, c: nat, r: Pool, b: nat, k: nat)
    requires Sized(pool, v.size) && Fits(v, t, |pool|) && Apart(v, t, |pool|) && Sized(r, v.size) && |r| == |pool|
    requires Moved(v, t, pool, c, r) && b <= c && Copies(t, b) && k < v.size && k + Shift(v, t.moves[b]) < v.size
    ensures Landed(v, t, pool, MoveRow(v, t, r, c), b, k)
  {
    hide Shift, Fits, Moved, MoveRow, Apart;
    if b < c {
      LandedBefore(v, t, pool, c, r, b, k);
      LandedKept(v, t, pool, c, r, b, k);
    } else {
      UnmovedSource(v, t, pool, c, r, k);
      LandsNow(v, t, pool, r, c, k);
    }
  }

  lemma LandedBefore(v: View, t: Batch, pool: Pool, c: nat, r: Pool, b: nat, k: nat)
    requires Sized(pool, v.size) && Fits(v, t, |pool|) && Sized(r, v.size) && |r| == |pool|
    requires Moved(v, t, pool, c, r) && b < c && Copies(t, b) && k < v.size && k + Shift(v, t.moves[b]) < v.size
    ensures Landed(v, t, pool, r, b, k)
  {
    hide Shift, Fits, Landed;
  }

  lemma LandedKept(v: View, t: Batch, pool: Pool, c: nat, r: Pool, b: nat, k: nat)
    requires Sized(pool, v.size) && Fits(v, t, |pool|) && Apart(v, t, |pool|) && Sized(r, v.size) && |r| == |pool|
    requires b != c && Copies(t, b) && k < v.size && k + Shift(v, t.moves[b]) < v.size && Landed(v, t, pool, r, b, k)
    ensures Landed(v, t, pool, MoveRow(v, t, r, c), b, k)
  {
    hide Shift;
    if Copies(t, c) {
      assert To(v, t, c) != To(v, t, b);
    }
  }

  lemma LandsNow(v: View, t: Batch, pool: Pool, r: Pool, c: nat, k: nat)
    requires Sized(pool, v.size) && Fits(v, t, |pool|) && Sized(r, v.size) && |r| == |pool|
    requires Copies(t, c) && k < v.size && k + Shift(v, t.moves[c]) < v.size
    requires r[From(v, t, c)][k + Shift(v, t.moves[c])] == pool[From(v, t, c)][k + Shift(v, t.moves[c])]
    ensures Landed(v, t, pool, MoveRow(v, t, r, c), c, k)
  {
    hide Shift;
  }

  /** The rows before have not written what row c is about to read. */
  lemma UnmovedSource(v: View, t: Batch, pool: Pool, c: nat, r: Pool, k: nat)
    requires Sized(pool, v.size) && Fits(v, t, |pool|) && Apart(v, t, |pool|) && Sized(r, v.size) && |r| == |pool|
    requires Moved(v, t, pool, c, r) && Copies(t, c) && k < v.size && k + Shift(v, t.moves[c]) < v.size
    ensures r[From(v, t, c)][k + Shift(v, t.moves[c])] == pool[From(v, t, c)][k + Shift(v, t.moves[c])]
  {
    hide Shift, Landed;
    assert !Hit(v, t, c, From(v, t, c), k + Shift(v, t.moves[c]), |pool|);
  }

  lemma RowFits(v: View, t: Batch, blocks: nat, b: nat)
    requires Fits(v, t, blocks) && Copies(t, b)
    ensures t.idx[b] < |v.table| && MoveFits(v, v.table[t.idx[b]], t.moves[b], blocks)
  {}

  lemma RowLeaves(v: View, t: Batch, pool: Pool, c: nat, r: Pool, x: nat, k: nat)
    requires Sized(pool, v.size) && Fits(v, t, |pool|) && Sized(r, v.size) && |r| == |pool|
    requires Moved(v, t, pool, c, r) && x < |pool| && k < v.size && !Hit(v, t, c + 1, x, k, |pool|)
    ensures MoveRow(v, t, r, c)[x][k] == pool[x][k]
  {
    hide Shift;
    assert !Hit(v, t, c, x, k, |pool|) && !HitBy(v, t, c, x, k, |pool|);
  }

  /** The programs that have run, cell by cell. */
  ghost predicate Ran(v: View, t: Batch, g: Tiling, pool: Pool, s: nat, order: seq<Program>, q: Pool)
    requires Sized(pool, v.size) && Fits(v, t, |pool|) && Sized(q, v.size) && |q| == |pool|
  {
    && (forall b: nat, k: nat | k < v.size && Copies(t, b) && k + Shift(v, t.moves[b]) < v.size
                                && Program(b, s, TileOf(v, g, b, k)) in order :: Landed(v, t, pool, q, b, k))
    && (forall x: nat, k: nat | x < |pool| && k < v.size && !HitOrder(v, t, g, s, order, x, k, |pool|) ::
          q[x][k] == pool[x][k])
  }

  ghost predicate HitOrder(v: View, t: Batch, g: Tiling, s: nat, order: seq<Program>, x: nat, k: nat, blocks: nat)
    requires Fits(v, t, blocks)
  {
    exists b: nat :: Program(b, s, TileOf(v, g, b, k)) in order && HitBy(v, t, b, x, k, blocks)
  }

  lemma {:induction false} OrderCells(v: View, t: Batch, g: Tiling, pool: Pool, s: nat, order: seq<Program>)
    requires Sized(pool, v.size) && Fits(v, t, |pool|) && Apart(v, t, |pool|)
    requires forall a, b | 0 <= a < b < |order| :: order[a] != order[b]
    ensures Ran(v, t, g, pool, s, order, RunGrid(v, t, g, pool, s, order))
    decreases |order|
  {
    hide Shift, TileOf, Ran;
    if order == [] {
      NothingRan(v, t, g, pool, s);
    } else {
      var n := |order| - 1;
      OrderCells(v, t, g, pool, s, order[..n]);
      assert order == order[..n] + [order[n]] && order[n] !in order[..n];
      OrderNext(v, t, g, pool, s, order[..n], order[n], RunGrid(v, t, g, pool, s, order[..n]));
    }
  }

  lemma NothingRan(v: View, t: Batch, g: Tiling, pool: Pool, s: nat)
    requires Sized(pool, v.size) && Fits(v, t, |pool|)
    ensures Ran(v, t, g, pool, s, [], pool)
  {}

  /** The pool after one more program of the order. */
  ghost function Step(v: View, t: Batch, g: Tiling, r: Pool, s: nat, p: Program): (q: Pool)
    requires Sized(r, v.size) && Fits(v, t, |r|)
    ensures Sized(q, v.size) && |q| == |r|
  {
    if p.state == s then RunProgram(v, t, g, r, p.row, p.tile) else r
  }

  lemma OrderNext(v: View, t: Batch, g: Tiling, pool: Pool, s: nat, order: seq<Program>, p: Program, r: Pool)
    requires Sized(pool, v.size) && Fits(v, t, |pool|) && Apart(v, t, |pool|) && Sized(r, v.size) && |r| == |pool|
    requires p !in order && Ran(v, t, g, pool, s, order, r)
    ensures Ran(v, t, g, pool, s, order + [p], Step(v, t, g, r, s, p))
  {
    hide Shift, TileOf, Step, Apart, Fits;
    var q := Step(v, t, g, r, s, p);
    forall b: nat, k: nat | k < v.size && Copies(t, b) && k + Shift(v, t.moves[b]) < v.size
                            && Program(b, s, TileOf(v, g, b, k)) in order + [p]
      ensures Landed(v, t, pool, q, b, k)
    {
      StepLands(v, t, g, pool, s, order, p, r, b, k);
    }
    forall x: nat, k: nat | x < |pool| && k < v.size && !HitOrder(v, t, g, s, order + [p], x, k, |pool|)
      ensures q[x][k] == pool[x][k]
    {
      StepLeaves(v, t, g, pool, s, order, p, r, x, k);
    }
  }

  lemma StepLands(v: View, t: Batch, g: Tiling, pool: Pool, s: nat, order: seq<Program>, p: Program, r: Pool, b: nat,
                  k: nat)
    requires Sized(pool, v.size) && Fits(v, t, |pool|) && Apart(v, t, |pool|) && Sized(r, v.size) && |r| == |pool|
    requires p !in order && Ran(v, t, g, pool, s, order, r)
    requires k < v.size && Copies(t, b) && k + Shift(v, t.moves[b]) < v.size
    requires Program(b, s, TileOf(v, g, b, k)) in order + [p]
    ensures Landed(v, t, pool, Step(v, t, g, r, s, p), b, k)
  {
    hide Shift, TileOf, Fits, Apart, Ran, Landed, Step;
    RowFits(v, t, |pool|, b);
    var own := Program(b, s, TileOf(v, g, b, k));
    if own == p {
      SourceKept(v, t, g, pool, s, order, p, r, k);
      ProgramLands(v, t, g, pool, s, r, p, k);
    } else {
      RanLanded(v, t, g, pool, s, order, r, b, k);
      ProgramKeeps(v, t, g, pool, s, r, p, b, k);
    }
  }

  lemma RanLanded(v: View, t: Batch, g: Tiling, pool: Pool, s: nat, order: seq<Program>, r: Pool, b: nat, k: nat)
    requires Sized(pool, v.size) && Fits(v, t, |pool|) && Sized(r, v.size) && |r| == |pool|
    requires Ran(v, t, g, pool, s, order, r) && k < v.size && Copies(t, b) && k + Shift(v, t.moves[b]) < v.size
    requires Program(b, s, TileOf(v, g, b, k)) in order
    ensures Landed(v, t, pool, r, b, k)
  {
    hide Shift, TileOf, Fits, Landed;
  }

  /** A program that is not the cell's own leaves the cell alone. */
  lemma ProgramKeeps(v: View, t: Batch, g: Tiling, pool: Pool, s: nat, r: Pool, p: Program, b: nat, k: nat)
    requires Sized(pool, v.size) && Fits(v, t, |pool|) && Apart(v, t, |pool|) && Sized(r, v.size) && |r| == |pool|
    requires k < v.size && Copies(t, b) && k + Shift(v, t.moves[b]) < v.size && Landed(v, t, pool, r, b, k)
    requires p != Program(b, s, TileOf(v, g, b, k))
    ensures Landed(v, t, pool, Step(v, t, g, r, s, p), b, k)
  {
    hide Shift, TileOf, Fits;
    RowFits(v, t, |pool|, b);
    if Copies(t, p.row) {
      RowFits(v, t, |pool|, p.row);
      if b != p.row {
        assert To(v, t, p.row) != To(v, t, b);
      }
    }
  }

  /** The cell's own program moves it. */
  lemma ProgramLands(v: View, t: Batch, g: Tiling, pool: Pool, s: nat, r: Pool, p: Program, k: nat)
    requires Sized(pool, v.size) && Fits(v, t, |pool|) && Sized(r, v.size) && |r| == |pool|
    requires k < v.size && Copies(t, p.row) && k + Shift(v, t.moves[p.row]) < v.size
    requires p == Program(p.row, s, TileOf(v, g, p.row, k))
    requires var e := k + Shift(v, t.moves[p.row]); r[From(v, t, p.row)][e] == pool[From(v, t, p.row)][e]
    ensures Landed(v, t, pool, Step(v, t, g, r, s, p), p.row, k)
  {
    hide Shift, TileOf, Fits;
    RowFits(v, t, |pool|, p.row);
  }

  lemma StepLeaves(v: View, t: Batch, g: Tiling, pool: Pool, s: nat, order: seq<Program>, p: Program, r: Pool, x: nat,
                   k: nat)
    requires Sized(pool, v.size) && Fits(v, t, |pool|) && Sized(r, v.size) && |r| == |pool|
    requires Ran(v, t, g, pool, s, order, r) && x < |pool| && k < v.size
    requires !HitOrder(v, t, g, s, order + [p], x, k, |pool|)
    ensures Step(v, t, g, r, s, p)[x][k] == pool[x][k]
  {
    hide Shift, TileOf;
    assert !HitOrder(v, t, g, s, order, x, k, |pool|);
    if p == Program(p.row, s, TileOf(v, g, p.row, k)) {
      assert p in order + [p] && !HitBy(v, t, p.row, x, k, |pool|);
    }
  }

  /** What a program is about to read has not been written by the programs before it. */
  lemma SourceKept(v: View, t: Batch, g: Tiling, pool: Pool, s: nat, order: seq<Program>, p: Program, r: Pool, k: nat)
    requires Sized(pool, v.size) && Fits(v, t, |pool|) && Apart(v, t, |pool|) && Sized(r, v.size) && |r| == |pool|
    requires p !in order && Ran(v, t, g, pool, s, order, r)
    requires Copies(t, p.row) && k < v.size && k + Shift(v, t.moves[p.row]) < v.size
    requires 0 <= k + Shift(v, t.moves[p.row]) && p == Program(p.row, s, TileOf(v, g, p.row, k))
    ensures var e := k + Shift(v, t.moves[p.row]);
            r[From(v, t, p.row)][e] == pool[From(v, t, p.row)][e]
  {
    var e := k + Shift(v, t.moves[p.row]);
    var x := From(v, t, p.row);
    assert TileOf(v, g, p.row, e) == TileOf(v, g, p.row, k);
    assert !HitOrder(v, t, g, s, order, x, e, |pool|);
  }

  /** Every order of the programs leaves what the rows' whole moves leave, one after the other. */
  lemma AnyOrder(v: View, t: Batch, g: Tiling, pool: Pool, s: nat, states: nat, order: seq<Program>)
    requires Sized(pool, v.size) && Fits(v, t, |pool|) && Apart(v, t, |pool|) && GoodTiling(g) && s < states
    requires Enumerates(order, |t.idx|, states, g.tiles)
    ensures RunGrid(v, t, g, pool, s, order) == MoveRows(v, t, pool, |t.idx|)
  {
    hide Shift, RunGrid, MoveRows;
    OrderCells(v, t, g, pool, s, order);
    RowsCells(v, t, pool, |t.idx|);
    var q, r := RunGrid(v, t, g, pool, s, order), MoveRows(v, t, pool, |t.idx|);
    forall x: nat, k: nat | x < |pool| && k < v.size
      ensures q[x][k] == r[x][k]
    {
      if Hit(v, t, |t.idx|, x, k, |pool|) {
        var b: nat :| b < |t.idx| && HitBy(v, t, b, x, k, |pool|);
        assert Program(b, s, TileOf(v, g, b, k)) in order;
        assert Landed(v, t, pool, r, b, k);
        assert Landed(v, t, pool, q, b, k);
      } else {
        assert !HitOrder(v, t, g, s, order, x, k, |pool|);
      }
    }
    SamePool(q, r, v.size);
  }

  lemma SamePool(q: Pool, r: Pool, size: nat)
    requires Sized(q, size) && Sized(r, size) && |q| == |r|
    requires forall x: nat, k: nat | x < |q| && k < size :: q[x][k] == r[x][k]
    ensures q == r
  {
    forall x | 0 <= x < |q|
      ensures q[x] == r[x]
    {
      assert forall k | 0 <= k < size :: q[x][k] == r[x][k];
    }
  }
}
