/** The tiles of a temporal state's copies, on bytes: the programs of the grid are the tiled memory copies. */
module AlignTiles {
  import Arith
  import opened AlignMachine
  import opened AlignGrid
  import TiledCopy

  /** Where a state tensor lies: block x starts at base + x * stride and holds size bytes. */
  datatype Layout = Layout(base: nat, stride: nat, size: nat)

  function Address(a: Layout, x: nat): (p: nat)
    ensures p >= a.base
  {
    Arith.MulLe(0, x, a.stride);
    a.base + x * a.stride
  }

  /** Different blocks lie at least a stride apart. */
  lemma BlocksApart(a: Layout, x: nat, y: nat)
    ensures x < y ==> Address(a, x) + a.stride <= Address(a, y)
  {
    if x < y {
      Arith.MulLe(x + 1, y, a.stride);
    }
  }

  /** Byte k of block x. */
  ghost predicate ByteHeld(a: Layout, mem: seq<bv8>, pool: Pool, x: nat, k: nat)
    requires x < |pool| && k < |pool[x]|
  {
    Address(a, x) + k < |mem| && mem[Address(a, x) + k] as int == pool[x][k]
  }

  /** The memory holds the pool's blocks, cell by byte. */
  ghost predicate Held(a: Layout, mem: seq<bv8>, pool: Pool) {
    && a.size <= a.stride && Sized(pool, a.size)
    && (forall x | 0 <= x < |pool| :: Address(a, x) + a.size <= |mem|)
    && forall x, k | 0 <= x < |pool| && 0 <= k < a.size :: ByteHeld(a, mem, pool, x, k)
  }

  /** Row b's move stays inside its row of the table. */
  predicate RowInside(v: View, t: Batch, b: nat) {
    && Copies(t, b) && t.idx[b] < |v.table| && 0 <= t.moves[b].bias && 0 <= t.moves[b].src
    && t.moves[b].src + t.moves[b].bias < |v.table[t.idx[b]]| && 0 <= t.moves[b].dst < |v.table[t.idx[b]]|
  }

  /** The copy that the programs of row b make together. */
  function RowCopy(a: Layout, v: View, t: Batch, b: nat, tiles: nat, block: nat): TiledCopy.Copy
    requires RowInside(v, t, b)
  {
    TiledCopy.Copy(Address(a, From(v, t, b)), Address(a, To(v, t, b)), a.size, tiles, block)
  }

  /** The tiling of the grid: a byte belongs to the tile that writes it in its row's copy. */
  function ByteTiling(a: Layout, v: View, t: Batch, tiles: nat, block: nat): Tiling
    requires tiles > 0 && block > 0
  {
    Tiling(tiles, (b: nat, k: nat) =>
             if RowInside(v, t, b) && k < a.size then TiledCopy.OwnerOf(RowCopy(a, v, t, b, tiles, block), k) else 0)
  }

  lemma ByteTilingGood(a: Layout, v: View, t: Batch, tiles: nat, block: nat)
    requires tiles > 0 && block > 0
    ensures GoodTiling(ByteTiling(a, v, t, tiles, block))
  {
    forall b: nat, k: nat
      ensures ByteTiling(a, v, t, tiles, block).owner(b, k) < tiles
    {
      if RowInside(v, t, b) && k < a.size {
        TiledCopy.ByteInOneTile(RowCopy(a, v, t, b, tiles, block), k, 0);
      }
    }
  }

  /** One tile of the memory copy is one program of the grid. */
  lemma TileIsProgram(a: Layout, v: View, t: Batch, tiles: nat, block: nat, pool: Pool, b: nat, tile: nat,
                      was: seq<bv8>, now: seq<bv8>)
    requires tiles > 0 && block > 0 && Held(a, was, pool) && !v.conv && v.size == a.size && Fits(v, t, |pool|)
    requires RowInside(v, t, b)
    requires var c := RowCopy(a, v, t, b, tiles, block); TiledCopy.Applied(c, was, now, TiledCopy.TileSet(c, tile))
    ensures Held(a, now, RunProgram(v, t, ByteTiling(a, v, t, tiles, block), pool, b, tile))
  {
    hide TiledCopy.Owns, TiledCopy.OwnerOf, Address;
    var g := ByteTiling(a, v, t, tiles, block);
    var q := RunProgram(v, t, g, pool, b, tile);
    forall x, k | 0 <= x < |q| && 0 <= k < a.size
      ensures ByteHeld(a, now, q, x, k)
    {
      TileByte(a, v, t, tiles, block, pool, b, tile, was, now, x, k);
    }
  }

  lemma TileByte(a: Layout, v: View, t: Batch, tiles: nat, block: nat, pool: Pool, b: nat, tile: nat,
                 was: seq<bv8>, now: seq<bv8>, x: nat, k: nat)
    requires tiles > 0 && block > 0 && Held(a, was, pool) && !v.conv && v.size == a.size && Fits(v, t, |pool|)
    requires RowInside(v, t, b) && x < |pool| && k < a.size
    requires var c := RowCopy(a, v, t, b, tiles, block); TiledCopy.Applied(c, was, now, TiledCopy.TileSet(c, tile))
    ensures ByteHeld(a, now, RunProgram(v, t, ByteTiling(a, v, t, tiles, block), pool, b, tile), x, k)
  {
    hide TiledCopy.Owns, TiledCopy.OwnerOf, Address;
    var c, to := RowCopy(a, v, t, b, tiles, block), To(v, t, b);
    var p := Address(a, x) + k;
    assert ByteHeld(a, was, pool, x, k) && ByteHeld(a, was, pool, From(v, t, b), k);
    if x == to {
      TiledCopy.ByteInOneTile(c, k, tile);
      assert TiledCopy.InRange(c, p, 0, c.size) && TiledCopy.Source(c, p) == c.src + k;
    } else {
      BlocksApart(a, x, to);
      BlocksApart(a, to, x);
      assert !TiledCopy.InRange(c, p, 0, c.size);
    }
  }

  /** A row's two blocks do not overlap, or are the same. */
  lemma RowClear(a: Layout, v: View, t: Batch, b: nat, tiles: nat, block: nat)
    requires RowInside(v, t, b) && a.size <= a.stride
    ensures TiledCopy.Clear(RowCopy(a, v, t, b, tiles, block))
  {
    BlocksApart(a, From(v, t, b), To(v, t, b));
    BlocksApart(a, To(v, t, b), From(v, t, b));
  }

  /** No row's copy writes the address. */
  ghost predicate Untouched(a: Layout, v: View, t: Batch, p: nat) {
    forall b: nat | RowInside(v, t, b) :: !(Address(a, To(v, t, b)) <= p < Address(a, To(v, t, b)) + a.size)
  }

  /** A launch on the bytes of one temporal state, in any order of rows, states and tiles: each program
      runs its tile of its row's memory copy, and the blocks end as the rows' whole moves leave them. */
  method CopyTemporal(mem: array<bv8>, a: Layout, v: View, t: Batch, tiles: nat, block: nat, s: nat, states: nat,
                      order: seq<Program>, ghost pool: Pool)
    requires tiles > 0 && block > 0 && Held(a, mem[..], pool) && !v.conv && v.size == a.size
    requires Fits(v, t, |pool|) && Apart(v, t, |pool|) && s < states && Enumerates(order, |t.idx|, states, tiles)
    modifies mem
    ensures Held(a, mem[..], MoveRows(v, t, pool, |t.idx|))
    ensures forall p: nat | p < mem.Length && Untouched(a, v, t, p) :: mem[p] == old(mem[p])
  {
    hide Held, Fits, Apart, RunProgram, MoveRows, Enumerates, TiledCopy.Clear, TiledCopy.TileSet, Untouched;
    ghost var g := ByteTiling(a, v, t, tiles, block);
    HeldSized(a, mem[..], pool);
    for j := 0 to |order|
      invariant Held(a, mem[..], RunGrid(v, t, g, pool, s, order[..j]))
      invariant forall p: nat | p < mem.Length && Untouched(a, v, t, p) :: mem[p] == old(mem[p])
    {
      var p := order[j];
      assert order[..j + 1][..j] == order[..j];
      if p.state == s && Copies(t, p.row) {
        RowReady(a, v, t, RunGrid(v, t, g, pool, s, order[..j]), p.row, mem[..], tiles, block);
        CopyProgram(mem, a, v, t, tiles, block, p, RunGrid(v, t, g, pool, s, order[..j]));
      } else if p.state == s {
        IdleProgram(v, t, g, RunGrid(v, t, g, pool, s, order[..j]), p);
      }
    }
    assert order[..|order|] == order;
    ByteTilingGood(a, v, t, tiles, block);
    AnyOrder(v, t, g, pool, s, states, order);
  }

  lemma HeldSized(a: Layout, mem: seq<bv8>, pool: Pool)
    requires Held(a, mem, pool)
    ensures Sized(pool, a.size)
  {}

  lemma IdleProgram(v: View, t: Batch, g: Tiling, pool: Pool, p: Program)
    requires Sized(pool, v.size) && Fits(v, t, |pool|) && !Copies(t, p.row)
    ensures RunProgram(v, t, g, pool, p.row, p.tile) == pool
  {}

  lemma RowReady(a: Layout, v: View, t: Batch, pool: Pool, b: nat, mem: seq<bv8>, tiles: nat, block: nat)
    requires Fits(v, t, |pool|) && Copies(t, b) && Held(a, mem, pool)
    ensures RowInside(v, t, b) && TiledCopy.Clear(RowCopy(a, v, t, b, tiles, block))
    ensures var c := RowCopy(a, v, t, b, tiles, block); c.src + c.size <= |mem| && c.dst + c.size <= |mem|
  {
    hide Address;
    RowFits(v, t, |pool|, b);
    RowClear(a, v, t, b, tiles, block);
  }

  /** One program: its tile of its row's memory copy. */
  method CopyProgram(mem: array<bv8>, a: Layout, v: View, t: Batch, tiles: nat, block: nat, p: Program,
                     ghost pool: Pool)
    requires tiles > 0 && block > 0 && Held(a, mem[..], pool) && !v.conv && v.size == a.size && Fits(v, t, |pool|)
    requires RowInside(v, t, p.row) && TiledCopy.Clear(RowCopy(a, v, t, p.row, tiles, block))
    requires var c := RowCopy(a, v, t, p.row, tiles, block);
             c.src + c.size <= mem.Length && c.dst + c.size <= mem.Length
    modifies mem
    ensures Held(a, mem[..], RunProgram(v, t, ByteTiling(a, v, t, tiles, block), pool, p.row, p.tile))
    ensures forall x: nat | x < mem.Length && Untouched(a, v, t, x) :: mem[x] == old(mem[x])
  {
    hide Held, Fits, RunProgram, TiledCopy.TileSet, TiledCopy.Clear, Address;
    TiledCopy.CopyTile(mem, RowCopy(a, v, t, p.row, tiles, block), p.tile);
    TileIsProgram(a, v, t, tiles, block, pool, p.row, p.tile, old(mem[..]), mem[..]);
  }
}
