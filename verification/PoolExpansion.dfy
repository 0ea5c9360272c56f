/** From selected pools to attended tokens: the fused kernel, the two steps it replaces, and the
    short-context path that skips the selection. */
module PoolExpansion {
  import Arith

  // ---- Reference: expand, then append the tail ----------------------------------------------------

  /** One selected pool as its tokens. */
  function Group(id: int, valid: bool, pool: nat): (r: seq<int>)
    ensures |r| == pool
  {
    seq(pool, o requires 0 <= o < pool => if valid then id * pool + o else -1)
  }

  function Size(n: nat, pool: nat): nat {
    n * pool
  }

  lemma SizeNext(n: nat, pool: nat)
    ensures Size(n + 1, pool) == Size(n, pool) + pool && Size(0, pool) == 0
  {}

  /** expand_pools_to_tokens on one row, the [groups, pool] tensor read row by row. */
  function ExpandPools(ids: seq<int>, valid: seq<bool>, pool: nat): (r: seq<int>)
    requires |ids| == |valid|
    ensures |r| == Size(|ids|, pool)
  {
    if ids == [] then SizeNext(0, pool); []
    else
      var n := |ids| - 1;
      SizeNext(n, pool);
      ExpandPools(ids[..n], valid[..n], pool) + Group(ids[n], valid[n], pool)
  }

  /** append_tail_to_topk on one row. */
  function AppendTail(history: seq<int>, seqLen: nat, poolLen: nat, pool: nat): seq<int>
    requires pool > 0
  {
    if pool - 1 == 0 then history
    else
      var tailStart := poolLen * pool;
      var tailCount := seqLen - tailStart;
      history + seq(pool - 1, o requires 0 <= o < pool - 1 => if o < tailCount then tailStart + o else -1)
  }

  function Valid(ids: seq<int>): seq<bool> {
    seq(|ids|, i requires 0 <= i < |ids| => ids[i] >= 0)
  }

  function Reference(ids: seq<int>, seqLen: nat, pool: nat): seq<int>
    requires pool > 0
  {
    AppendTail(ExpandPools(ids, Valid(ids), pool), seqLen, seqLen / pool, pool)
  }

  // ---- Fused kernel -------------------------------------------------------------------------------

  function Columns(n: nat, pool: nat): nat
    requires pool > 0
  {
    Size(n, pool) + (pool - 1)
  }

  /** The first token after the complete pools. */
  function TailStart(seqLen: nat, pool: nat): nat
    requires pool > 0
  {
    Size(seqLen / pool, pool)
  }

  lemma TailBounds(seqLen: nat, pool: nat)
    requires pool > 0
    ensures TailStart(seqLen, pool) <= seqLen < TailStart(seqLen, pool) + pool
    ensures TailStart(seqLen, pool) == seqLen / pool * pool
  {
    Arith.DivBounds(seqLen, pool);
  }

  function PoolIndex(c: nat, pool: nat): nat
    requires pool > 0
  {
    c / pool
  }

  lemma IndexInside(c: nat, n: nat, pool: nat)
    requires pool > 0 && c < Size(n, pool)
    ensures PoolIndex(c, pool) < n
  {
    Arith.DivBounds(c, pool);
    if c / pool >= n {
      Arith.MulLe(n, c / pool, pool);
    }
  }

  /** What the kernel stores in column c. */
  function Entry(ids: seq<int>, seqLen: nat, pool: nat, c: nat): int
    requires pool > 0
  {
    var topk := Size(|ids|, pool);
    if c < topk then
      IndexInside(c, |ids|, pool);
      var pid := ids[PoolIndex(c, pool)];
      if pid >= 0 then pid * pool + c % pool else -1
    else
      var tailStart := TailStart(seqLen, pool);
      if c - topk < seqLen - tailStart then tailStart + (c - topk) else -1
  }

  /** One program: the columns of a tile in one row. */
  method ExpandTile(ids: seq<seq<int>>, seqLens: seq<nat>, pool: nat, block: nat, row: nat, tile: nat, n: nat,
                    out: array2<int>)
    requires pool > 0 && |ids| == |seqLens| == out.Length0 && row < |ids| && |ids[row]| == n
    requires out.Length1 == Columns(n, pool)
    modifies out
    ensures forall r, c | 0 <= r < out.Length0 && 0 <= c < out.Length1 ::
              out[r, c] == if r == row && Size(tile, block) <= c < Size(tile, block) + block
                  then Entry(ids[r], seqLens[r], pool, c)
                           else old(out[r, c])
  {
    hide Entry, Size;
    var first := Size(tile, block);
    forall c | first <= c < first + block && c < out.Length1 {
      out[row, c] := Entry(ids[row], seqLens[row], pool, c);
    }
  }

  /** expand_pools_and_append_tail: one program per row and tile. */
  method ExpandAndAppend(ids: seq<seq<int>>, seqLens: seq<nat>, pool: nat, block: nat, n: nat)
          returns (out: array2<int>)
    requires pool > 0 && block > 0 && |ids| == |seqLens| && forall r | 0 <= r < |ids| :: |ids[r]| == n
    ensures out.Length0 == |ids| && out.Length1 == Columns(n, pool)
    ensures forall r | 0 <= r < |ids| :: |Reference(ids[r], seqLens[r], pool)| == out.Length1
    ensures forall r, c | 0 <= r < |ids| && 0 <= c < out.Length1 :: out[r, c] == Reference(ids[r], seqLens[r], pool)[c]
  {
    hide Entry, Reference, Size, Columns;
    var width := Columns(n, pool);
    var tiles := (width + block - 1) / block;
    out := new int[|ids|, width];
    for row := 0 to |ids|
      invariant forall r, c | 0 <= r < row && 0 <= c < width :: out[r, c] == Entry(ids[r], seqLens[r], pool, c)
    {
      TilesCover(width, block, 0);
      for tile := 0 to tiles
        invariant forall r, c | 0 <= r < row && 0 <= c < width :: out[r, c] == Entry(ids[r], seqLens[r], pool, c)
        invariant forall c | 0 <= c < width && c < Size(tile, block) ::
            out[row, c] == Entry(ids[row], seqLens[row], pool, c)
      {
        ExpandTile(ids, seqLens, pool, block, row, tile, n, out);
        SizeNext(tile, block);
      }
      TilesCover(width, block, tiles);
    }
    forall r | 0 <= r < |ids|
      ensures |Reference(ids[r], seqLens[r], pool)| == width
      ensures forall c | 0 <= c < width :: Entry(ids[r], seqLens[r], pool, c) == Reference(ids[r], seqLens[r], pool)[c]
    {
      ReferenceLength(ids[r], seqLens[r], pool);
      forall c | 0 <= c < width
        ensures Entry(ids[r], seqLens[r], pool, c) == Reference(ids[r], seqLens[r], pool)[c]
      {
        FusedIsReference(ids[r], seqLens[r], pool, c);
      }
    }
  }

  lemma ReferenceLength(ids: seq<int>, seqLen: nat, pool: nat)
    requires pool > 0
    ensures |Reference(ids, seqLen, pool)| == Columns(|ids|, pool)
  {}

  lemma TilesCover(width: nat, block: nat, tiles: nat)
    requires block > 0
    ensures Size(0, block) == 0
    ensures tiles == (width + block - 1) / block ==> width <= Size(tiles, block)
  {
    Arith.DivBounds(width + block - 1, block);
  }

  // ---- Fused equals reference --------------------------------------------------------------------------

  lemma {:induction false} ExpandedAt(ids: seq<int>, valid: seq<bool>, pool: nat, g: nat, o: nat)
    requires |ids| == |valid| && g < |ids| && o < pool
    ensures Size(g, pool) + o < Size(|ids|, pool)
    ensures ExpandPools(ids, valid, pool)[Size(g, pool) + o] == if valid[g] then ids[g] * pool + o else -1
    decreases |ids|
  {
    hide Size;
    var n := |ids| - 1;
    SizeNext(n, pool);
    if g < n {
      ExpandedAt(ids[..n], valid[..n], pool, g, o);
    }
  }

  /** Column by column the fused kernel gives what expanding and appending gives. */
  lemma FusedIsReference(ids: seq<int>, seqLen: nat, pool: nat, c: nat)
    requires pool > 0 && c < Columns(|ids|, pool)
    ensures |Reference(ids, seqLen, pool)| == Columns(|ids|, pool)
    ensures Reference(ids, seqLen, pool)[c] == Entry(ids, seqLen, pool, c)
  {
    hide Size, TailStart;
    TailBounds(seqLen, pool);
    if c < Size(|ids|, pool) {
      IndexInside(c, |ids|, pool);
      Arith.Whole(c, pool);
      assert Size(PoolIndex(c, pool), pool) + c % pool == c by { SizeIs(PoolIndex(c, pool), pool); }
      ExpandedAt(ids, Valid(ids), pool, PoolIndex(c, pool), c % pool);
    }
  }

  lemma SizeIs(n: nat, pool: nat)
    ensures Size(n, pool) == n * pool
  {}

  // ---- Which tokens are attended -------------------------------------------------------------------------

  ghost predicate Emits(ids: seq<int>, seqLen: nat, pool: nat, t: int)
    requires pool > 0
  {
    exists c: nat :: c < Columns(|ids|, pool) && Entry(ids, seqLen, pool, c) == t
  }

  lemma TokenOfPool(pid: int, o: nat, pool: nat)
    requires pool > 0 && o < pool && pid >= 0
    ensures (pid * pool + o) / pool == pid && (pid * pool + o) % pool == o && pid * pool + o >= 0
  {
    Arith.Split(pid, o, pool);
    Arith.MulLe(0, pid, pool);
  }

  lemma ColumnOf(g: nat, o: nat, n: nat, pool: nat)
    requires pool > 0 && o < pool && g < n
    ensures Size(g, pool) + o < Size(n, pool) && PoolIndex(Size(g, pool) + o, pool) == g
    ensures (Size(g, pool) + o) % pool == o
  {
    Arith.Split(g, o, pool);
    Arith.MulLe(g + 1, n, pool);
  }

  /** The attended tokens are those of the selected pools and the whole tail. */
  lemma EmittedTokens(ids: seq<int>, seqLen: nat, pool: nat, t: nat)
    requires pool > 0
    ensures Emits(ids, seqLen, pool, t) <==> t / pool in ids || TailStart(seqLen, pool) <= t < seqLen
  {
    Arith.Whole(t, pool);
    TailBounds(seqLen, pool);
    if t / pool in ids {
      var g :| 0 <= g < |ids| && ids[g] == t / pool;
      ColumnOf(g, t % pool, |ids|, pool);
      assert Entry(ids, seqLen, pool, Size(g, pool) + t % pool) == t;
    }
    if TailStart(seqLen, pool) <= t < seqLen {
      assert Entry(ids, seqLen, pool, Size(|ids|, pool) + (t - TailStart(seqLen, pool))) == t;
    }
    if Emits(ids, seqLen, pool, t) {
      var c: nat :| c < Columns(|ids|, pool) && Entry(ids, seqLen, pool, c) == t;
      if c < Size(|ids|, pool) {
        IndexInside(c, |ids|, pool);
        var pid := ids[PoolIndex(c, pool)];
        if pid >= 0 {
          TokenOfPool(pid, c % pool, pool);
        }
      }
    }
  }

  /** What the pool selection returns: distinct complete pools, or -1. */
  ghost predicate Selected(ids: seq<int>, poolLen: nat) {
    && (forall i | 0 <= i < |ids| :: -1 <= ids[i] < poolLen)
    && (forall i, j | 0 <= i < j < |ids| && ids[i] >= 0 :: ids[i] != ids[j])
  }

  /** Selected pools give distinct tokens below the sequence length. */
  lemma DistinctTokens(ids: seq<int>, seqLen: nat, pool: nat, a: nat, b: nat)
    requires pool > 0 && Selected(ids, seqLen / pool) && a < b < Columns(|ids|, pool)
    ensures Entry(ids, seqLen, pool, b) < seqLen && Entry(ids, seqLen, pool, a) < seqLen
    ensures Entry(ids, seqLen, pool, a) >= 0 ==> Entry(ids, seqLen, pool, a) != Entry(ids, seqLen, pool, b)
  {
    hide Selected;
    EntryBounds(ids, seqLen, pool, a);
    EntryBounds(ids, seqLen, pool, b);
    if a < Size(|ids|, pool) {
      IndexInside(a, |ids|, pool);
      if b < Size(|ids|, pool) && Entry(ids, seqLen, pool, a) >= 0 && Entry(ids, seqLen, pool, b) >= 0 {
        IndexInside(b, |ids|, pool);
        var p, q := PoolIndex(a, pool), PoolIndex(b, pool);
        TokenOfPool(ids[p], a % pool, pool);
        TokenOfPool(ids[q], b % pool, pool);
        Arith.Whole(a, pool);
        Arith.Whole(b, pool);
        SelectedOnce(ids, seqLen / pool, p, q);
      }
    }
  }

  lemma SelectedOnce(ids: seq<int>, poolLen: nat, p: nat, q: nat)
    requires Selected(ids, poolLen) && p < |ids| && q < |ids| && ids[p] >= 0
    ensures ids[p] == ids[q] ==> p == q
  {}

  lemma EntryBounds(ids: seq<int>, seqLen: nat, pool: nat, c: nat)
    requires pool > 0 && Selected(ids, seqLen / pool) && c < Columns(|ids|, pool)
    ensures -1 <= Entry(ids, seqLen, pool, c) < seqLen
    ensures c < Size(|ids|, pool) ==> Entry(ids, seqLen, pool, c) < TailStart(seqLen, pool)
    ensures c >= Size(|ids|, pool) && Entry(ids, seqLen, pool, c) >= 0 ==>
        Entry(ids, seqLen, pool, c) >= TailStart(seqLen, pool)
  {
    hide TailStart, Size, Columns;
    TailBounds(seqLen, pool);
    if c < Size(|ids|, pool) {
      IndexInside(c, |ids|, pool);
      var pid := ids[PoolIndex(c, pool)];
      if pid >= 0 {
        TokenOfPool(pid, c % pool, pool);
        PoolBelow(pid, c % pool, seqLen, pool);
      }
    }
  }

  lemma PoolBelow(pid: int, o: nat, seqLen: nat, pool: nat)
    requires pool > 0 && o < pool && pid < seqLen / pool
    ensures pid * pool + o < TailStart(seqLen, pool)
  {
    Arith.MulLe(pid + 1, seqLen / pool, pool);
  }

  // ---- Short contexts ------------------------------------------------------------------------------------

  /** One row of the short-prefill path. */
  function ShortRow(width: nat, pos: nat): seq<int> {
    seq(width, c requires 0 <= c < width => if c > pos then -1 else c)
  }

  /** It holds every token up to pos that fits, once, and -1 otherwise. */
  lemma ShortRowOnce(width: nat, pos: nat)
    ensures |ShortRow(width, pos)| == width
    ensures forall x: int :: x in ShortRow(width, pos) ==> x == -1 || 0 <= x <= pos
    ensures forall t: nat :: t in ShortRow(width, pos) <==> t <= pos && t < width
    ensures forall c, d | 0 <= c < d < width && ShortRow(width, pos)[c] >= 0 ::
              ShortRow(width, pos)[c] != ShortRow(width, pos)[d]
  {
    forall t: nat | t <= pos && t < width
      ensures t in ShortRow(width, pos)
    {
      assert ShortRow(width, pos)[t] == t;
    }
  }

  function Picked(ids: seq<int>): set<int> {
    set i | 0 <= i < |ids| && ids[i] >= 0 :: ids[i]
  }

  function Upto(n: nat): (s: set<int>)
    ensures |s| == n && forall i :: i in s <==> 0 <= i < n
  {
    if n == 0 then {} else Upto(n - 1) + {n - 1}
  }

  lemma FullSubset(a: set<int>, b: set<int>)
    requires a <= b && |a| >= |b|
    ensures a == b
  {
    assert b == a + (b - a);
    assert |b| == |a| + |b - a|;
    assert b - a == {};
  }

  /** A selection that returns as many pools as there are returns all of them. */
  lemma AllPicked(ids: seq<int>, poolLen: nat)
    requires Selected(ids, poolLen) && |Picked(ids)| >= poolLen
    ensures forall p | p in Upto(poolLen) :: p in ids
  {
    assert Picked(ids) <= Upto(poolLen);
    FullSubset(Picked(ids), Upto(poolLen));
    forall p | p in Upto(poolLen)
      ensures p in ids
    {
      assert p in Picked(ids);
    }
  }

  /** When the context is within the budget, the sparse path and the short path attend to the same
      tokens, {0..pos}. */
  lemma ShortPrefillAlike(ids: seq<int>, seqLen: nat, pool: nat, width: nat, t: nat)
    requires pool > 0 && seqLen > 0 && seqLen <= Size(|ids|, pool) && seqLen <= width
    requires Selected(ids, seqLen / pool) && |Picked(ids)| >= seqLen / pool
    ensures Emits(ids, seqLen, pool, t) <==> t in ShortRow(width, seqLen - 1)
    ensures t in ShortRow(width, seqLen - 1) <==> t < seqLen
  {
    hide Emits, Selected, Picked, TailStart, Size, ShortRow;
    ShortRowOnce(width, seqLen - 1);
    PoolsWithin(seqLen, |ids|, pool);
    AllPicked(ids, seqLen / pool);
    EmittedTokens(ids, seqLen, pool, t);
    if t / pool in ids {
      PickedBelow(ids, seqLen / pool, t / pool);
    }
    TokenSide(t, seqLen, pool);
    assert t / pool < seqLen / pool ==> t / pool in Upto(seqLen / pool);
  }

  lemma PickedBelow(ids: seq<int>, poolLen: nat, p: int)
    requires Selected(ids, poolLen) && p in ids
    ensures p < poolLen
  {}

  /** A token lies before the tail exactly when its pool is complete. */
  lemma TokenSide(t: nat, seqLen: nat, pool: nat)
    requires pool > 0
    ensures t < TailStart(seqLen, pool) <==> t / pool < seqLen / pool
    ensures TailStart(seqLen, pool) <= seqLen
  {
    TailBounds(seqLen, pool);
    Arith.DivBounds(t, pool);
    if t / pool < seqLen / pool {
      Arith.MulLe(t / pool + 1, seqLen / pool, pool);
    } else {
      Arith.MulLe(seqLen / pool, t / pool, pool);
    }
  }

  lemma PoolsWithin(seqLen: nat, n: nat, pool: nat)
    requires pool > 0 && seqLen <= Size(n, pool)
    ensures seqLen / pool <= n
  {
    Arith.DivMul(n, pool);
    Arith.DivMono(seqLen, Size(n, pool), pool);
  }
}
