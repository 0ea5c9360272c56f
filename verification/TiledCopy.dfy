/** The tiled block copy: head, 8-byte words and tail split over tiles that may run in any order. */
module TiledCopy {
  import Arith

  /** A copy of size bytes between two addresses, by tiles programs in vectors of block lanes. */
  datatype Copy = Copy(src: nat, dst: nat, size: nat, tiles: nat, block: nat)

  predicate Valid(c: Copy) {
    c.tiles > 0 && c.block > 0
  }

  /** The two blocks do not overlap, or are the same block. */
  predicate Clear(c: Copy) {
    c.src == c.dst || c.src + c.size <= c.dst || c.dst + c.size <= c.src
  }

  function Min(a: nat, b: nat): nat {
    if a < b then a else b
  }

  function CeilDiv(n: nat, d: nat): nat
    requires d > 0
  {
    (n + d - 1) / d
  }

  /** Both addresses sit alike within 8 bytes. */
  predicate Fast(c: Copy) {
    c.src % 8 == c.dst % 8
  }

  /** Bytes that lift dst to a multiple of 8. */
  function Head(c: Copy): (h: nat)
    ensures h <= c.size && h < 8
  {
    Min((8 - c.dst % 8) % 8, c.size)
  }

  function Words(c: Copy): (w: nat)
    ensures Head(c) + 8 * w <= c.size < Head(c) + 8 * w + 8
  {
    (c.size - Head(c)) / 8
  }

  /** Units per tile, rounded up to whole vectors. */
  function PerTile(n: nat, c: Copy): nat
    requires Valid(c)
  {
    Product(CeilDiv(CeilDiv(n, c.tiles), c.block), c.block)
  }

  function Product(a: nat, b: nat): nat {
    a * b
  }

  /** Unit u of n belongs to the tile. */
  predicate InTile(n: nat, c: Copy, tile: nat, u: nat)
    requires Valid(c)
  {
    Product(tile, PerTile(n, c)) <= u < Min(Product(tile, PerTile(n, c)) + PerTile(n, c), n)
  }

  /** The tile writes the byte at this offset of the destination. */
  predicate Owns(c: Copy, tile: nat, o: nat)
    requires Valid(c)
  {
    o < c.size &&
    if !Fast(c) then InTile(c.size, c, tile, o)
    else if o < Head(c) || o >= Head(c) + 8 * Words(c) then tile == 0
    else InTile(Words(c), c, tile, (o - Head(c)) / 8)
  }

  // ---- One tile --------------------------------------------------------------------------------

  /** Where the byte at an address of the destination comes from. */
  function Source(c: Copy, x: nat): (y: nat)
    requires c.dst <= x < c.dst + c.size
    ensures c.src <= y < c.src + c.size
  {
    x - c.dst + c.src
  }

  predicate InRange(c: Copy, x: nat, from: nat, to: nat) {
    c.dst + from <= x < c.dst + to && x < c.dst + c.size
  }

  /** After copying the bytes at the offsets in [from, to), the rest being as before. */
  ghost predicate Copied(c: Copy, was: seq<bv8>, now: seq<bv8>, from: nat, to: nat) {
    && |now| == |was| && c.src + c.size <= |was| && c.dst + c.size <= |was|
    && forall x | 0 <= x < |was| :: now[x] == if InRange(c, x, from, to) then was[Source(c, x)] else was[x]
  }

  lemma CopiedNone(c: Copy, was: seq<bv8>, a: nat, b: nat)
    requires b <= a && c.src + c.size <= |was| && c.dst + c.size <= |was|
    ensures Copied(c, was, was, a, b)
  {}

  method CopyByte(mem: array<bv8>, src: nat, dst: nat)
    requires src < mem.Length && dst < mem.Length
    modifies mem
    ensures forall a | 0 <= a < mem.Length :: mem[a] == if a == dst then old(mem[src]) else old(mem[a])
  {
    mem[dst] := mem[src];
  }

  method CopyBytes(mem: array<bv8>, c: Copy, from: nat, to: nat)
    requires Clear(c) && from <= to <= c.size && c.src + c.size <= mem.Length && c.dst + c.size <= mem.Length
    modifies mem
    ensures Copied(c, old(mem[..]), mem[..], from, to)
  {
    hide Clear;
    for o := from to to
      invariant Copied(c, old(mem[..]), mem[..], from, o)
    {
      ghost var before := mem[..];
      CopyByte(mem, c.src + o, c.dst + o);
      assert Copied(c, before, mem[..], o, o + 1);
      CopiedNext(c, old(mem[..]), before, mem[..], from, o, o + 1);
    }
  }

  /** One 8-byte load and store; both addresses must be aligned. */
  method CopyWord(mem: array<bv8>, src: nat, dst: nat)
    requires src % 8 == 0 && dst % 8 == 0 && src + 8 <= mem.Length && dst + 8 <= mem.Length
    modifies mem
    ensures forall a | 0 <= a < mem.Length ::
              mem[a] == if dst <= a < dst + 8 then old(mem[a - dst + src]) else old(mem[a])
  {
    var word := mem[src..src + 8];
    forall k | 0 <= k < 8 {
      mem[dst + k] := word[k];
    }
  }

  lemma WordAligned(c: Copy, u: nat)
    requires Fast(c) && u < Words(c)
    ensures (c.src + Head(c) + 8 * u) % 8 == 0 && (c.dst + Head(c) + 8 * u) % 8 == 0
  {}

  /** Word u of the body. */
  method CopyBodyWord(mem: array<bv8>, c: Copy, u: nat)
    requires Clear(c) && Fast(c) && u < Words(c) && c.src + c.size <= mem.Length && c.dst + c.size <= mem.Length
    modifies mem
    ensures Copied(c, old(mem[..]), mem[..], Head(c) + 8 * u, Head(c) + 8 * (u + 1))
  {
    hide Fast, Head, Words, Clear;
    WordAligned(c, u);
    CopyWord(mem, c.src + Head(c) + 8 * u, c.dst + Head(c) + 8 * u);
  }

  /** Words [from, to) of the body. */
  method CopyWords(mem: array<bv8>, c: Copy, from: nat, to: nat)
    requires Clear(c) && Fast(c) && from <= to <= Words(c) && c.src + c.size <= mem.Length
    requires c.dst + c.size <= mem.Length
    modifies mem
    ensures Copied(c, old(mem[..]), mem[..], Head(c) + 8 * from, Head(c) + 8 * to)
  {
    hide Fast, Head, Words, Clear, Copied;
    CopiedNone(c, mem[..], Head(c) + 8 * from, Head(c) + 8 * from);
    for u := from to to
      invariant Copied(c, old(mem[..]), mem[..], Head(c) + 8 * from, Head(c) + 8 * u)
    {
      ghost var before := mem[..];
      CopyBodyWord(mem, c, u);
      CopiedNext(c, old(mem[..]), before, mem[..], Head(c) + 8 * from, Head(c) + 8 * u, Head(c) + 8 * (u + 1));
    }
  }

  /** The tile's body words, one vector of block lanes at a time. */
  method CopyBody(mem: array<bv8>, c: Copy, tile: nat)
    requires Valid(c) && Clear(c) && Fast(c) && c.src + c.size <= mem.Length && c.dst + c.size <= mem.Length
    modifies mem
    ensures BodyCopied(c, tile, old(mem[..]), mem[..])
  {
    hide Fast, Head, PerTile, Product, Copied, Clear;
    var perTile := PerTile(Words(c), c);
    var tileStart := Product(tile, perTile);
    var tileEnd := Min(tileStart + perTile, Words(c));
    var i := tileStart;
    if tileStart <= tileEnd {
      CopiedNone(c, mem[..], Head(c) + 8 * tileStart, Head(c) + 8 * tileStart);
    }
    while i < tileEnd
      invariant tileStart <= i
      invariant tileStart <= tileEnd ==> Copied(c, old(mem[..]), mem[..], Head(c) + 8 * tileStart,
          Head(c) + 8 * Min(i, tileEnd))
      invariant tileStart > tileEnd ==> mem[..] == old(mem[..])
      decreases if i <= tileEnd then tileEnd - i else 0
    {
      var next := Min(i + c.block, tileEnd);
      ghost var before := mem[..];
      CopyWords(mem, c, i, next);
      CopiedNext(c, old(mem[..]), before, mem[..], Head(c) + 8 * tileStart, Head(c) + 8 * i, Head(c) + 8 * next);
      i := i + c.block;
    }
  }

  ghost predicate BodyCopied(c: Copy, tile: nat, was: seq<bv8>, now: seq<bv8>)
    requires Valid(c)
  {
    var per := PerTile(Words(c), c);
    var start := Product(tile, per);
    var end := Min(start + per, Words(c));
    if start <= end then Copied(c, was, now, Head(c) + 8 * start, Head(c) + 8 * end) else now == was
  }

  lemma CopiedNext(c: Copy, was: seq<bv8>, mid: seq<bv8>, now: seq<bv8>, a: nat, b: nat, e: nat)
    requires Clear(c) && a <= b <= e <= c.size && Copied(c, was, mid, a, b) && Copied(c, mid, now, b, e)
    ensures Copied(c, was, now, a, e)
  {
    forall x | 0 <= x < |was|
      ensures now[x] == if InRange(c, x, a, e) then was[Source(c, x)] else was[x]
    {
      if InRange(c, x, b, e) {
        assert mid[Source(c, x)] == was[Source(c, x)];
      }
    }
  }

  // ---- Tiles in any order ---------------------------------------------------------------------------

  /** Exactly the bytes at the offsets in P were copied. */
  ghost predicate Applied(c: Copy, was: seq<bv8>, now: seq<bv8>, P: nat -> bool) {
    && |now| == |was| && c.src + c.size <= |was| && c.dst + c.size <= |was|
    && forall x | 0 <= x < |was| ::
         now[x] == if InRange(c, x, 0, c.size) && P(x - c.dst) then was[Source(c, x)] else was[x]
  }

  ghost predicate Joins(c: Copy, P: nat -> bool, Q: nat -> bool, R: nat -> bool) {
    forall o | 0 <= o < c.size :: R(o) <==> P(o) || Q(o)
  }

  lemma AppliedNext(c: Copy, was: seq<bv8>, mid: seq<bv8>, now: seq<bv8>, P: nat -> bool, Q: nat -> bool,
          R: nat -> bool)
    requires Clear(c) && Applied(c, was, mid, P) && Applied(c, mid, now, Q) && Joins(c, P, Q, R)
    ensures Applied(c, was, now, R)
  {
    forall x | 0 <= x < |was|
      ensures now[x] == if InRange(c, x, 0, c.size) && R(x - c.dst) then was[Source(c, x)] else was[x]
    {
      if InRange(c, x, 0, c.size) {
        assert mid[Source(c, x)] == was[Source(c, x)];
      }
    }
  }

  function Between(from: nat, to: nat): nat -> bool {
    (o: nat) => from <= o < to
  }

  lemma CopiedApplied(c: Copy, was: seq<bv8>, now: seq<bv8>, from: nat, to: nat)
    requires Copied(c, was, now, from, to)
    ensures Applied(c, was, now, Between(from, to))
  {
    forall x | 0 <= x < |was|
      ensures now[x] == if InRange(c, x, 0, c.size) && Between(from, to)(x - c.dst) then was[Source(c, x)] else was[x]
    {
      assert InRange(c, x, from, to) <==> InRange(c, x, 0, c.size) && Between(from, to)(x - c.dst);
    }
  }

  function TileSet(c: Copy, tile: nat): nat -> bool
    requires Valid(c)
  {
    (o: nat) => Owns(c, tile, o)
  }

  /** The body bytes of a tile, as offsets. */
  function BodyFrom(c: Copy, tile: nat): nat
    requires Valid(c)
  {
    Head(c) + 8 * Product(tile, PerTile(Words(c), c))
  }

  function BodyTo(c: Copy, tile: nat): nat
    requires Valid(c)
  {
    Head(c) + 8 * Min(Product(tile, PerTile(Words(c), c)) + PerTile(Words(c), c), Words(c))
  }

  lemma BodyApplied(c: Copy, tile: nat, was: seq<bv8>, now: seq<bv8>)
    requires Valid(c) && BodyCopied(c, tile, was, now) && c.src + c.size <= |was| && c.dst + c.size <= |was|
    ensures Applied(c, was, now, Between(BodyFrom(c, tile), BodyTo(c, tile)))
  {
    hide PerTile, Product, Copied;
    if BodyFrom(c, tile) > BodyTo(c, tile) {
      CopiedNone(c, was, BodyFrom(c, tile), BodyTo(c, tile));
    }
    CopiedApplied(c, was, now, BodyFrom(c, tile), BodyTo(c, tile));
  }

  /** Head, body and tail of tile 0, or the body alone, are what the tile owns. */
  lemma FastSets(c: Copy, tile: nat, o: nat)
    requires Valid(c) && Fast(c) && o < c.size
    ensures Owns(c, tile, o) <==>
      (tile == 0 && o < Head(c)) || BodyFrom(c, tile) <= o < BodyTo(c, tile)
          || (tile == 0 && Head(c) + 8 * Words(c) <= o)
  {
    hide PerTile, Product;
    var h, w := Head(c), Words(c);
    var start := Product(tile, PerTile(w, c));
    var end := Min(start + PerTile(w, c), w);
    if h <= o < h + 8 * w {
      var u := (o - h) / 8;
      assert start <= u < end <==> h + 8 * start <= o < h + 8 * end;
    }
  }

  method CopyFast(mem: array<bv8>, c: Copy, tile: nat)
    requires Valid(c) && Clear(c) && Fast(c) && c.src + c.size <= mem.Length && c.dst + c.size <= mem.Length
    modifies mem
    ensures Applied(c, old(mem[..]), mem[..], TileSet(c, tile))
  {
    hide Applied, Copied, BodyCopied, Owns, Head, Words, BodyFrom, BodyTo, Fast, Clear;
    var headBytes := Head(c);
    ghost var first := if tile == 0 then headBytes else 0;
    CopyBytes(mem, c, 0, if tile == 0 then headBytes else 0);
    CopiedApplied(c, old(mem[..]), mem[..], 0, first);
    ghost var afterHead := mem[..];
    CopyBody(mem, c, tile);
    BodyApplied(c, tile, afterHead, mem[..]);
    ghost var afterBody := mem[..];
    ghost var some: nat -> bool := o => o < first || BodyFrom(c, tile) <= o < BodyTo(c, tile);
    AppliedNext(c, old(mem[..]), afterHead, mem[..], Between(0, first), Between(BodyFrom(c, tile), BodyTo(c, tile)),
        some);
    var tailStart := if tile == 0 then headBytes + 8 * Words(c) else c.size;
    CopyBytes(mem, c, tailStart, c.size);
    CopiedApplied(c, afterBody, mem[..], tailStart, c.size);
    forall o | 0 <= o < c.size
      ensures TileSet(c, tile)(o) <==> some(o) || Between(tailStart, c.size)(o)
    {
      FastSets(c, tile, o);
    }
    AppliedNext(c, old(mem[..]), afterBody, mem[..], some, Between(tailStart, c.size), TileSet(c, tile));
  }

  /** Bytes [from, to), one vector of block lanes at a time. */
  method CopyVectors(mem: array<bv8>, c: Copy, from: nat, to: nat)
    requires Valid(c) && Clear(c) && to <= c.size && c.src + c.size <= mem.Length && c.dst + c.size <= mem.Length
    modifies mem
    ensures Applied(c, old(mem[..]), mem[..], Between(from, to))
  {
    hide Applied, Copied, Clear;
    var i := from;
    CopiedNone(c, mem[..], from, if from <= to then from else to);
    while i < to
      invariant from <= i
      invariant Copied(c, old(mem[..]), mem[..], from, Min(i, to))
      decreases if i <= to then to - i else 0
    {
      var next := Min(i + c.block, to);
      ghost var before := mem[..];
      CopyBytes(mem, c, i, next);
      CopiedNext(c, old(mem[..]), before, mem[..], from, i, next);
      i := i + c.block;
    }
    CopiedApplied(c, old(mem[..]), mem[..], from, to);
  }

  /** The byte-wide tile of mismatched addresses. */
  method CopySlow(mem: array<bv8>, c: Copy, tile: nat)
    requires Valid(c) && Clear(c) && !Fast(c) && c.src + c.size <= mem.Length && c.dst + c.size <= mem.Length
    modifies mem
    ensures Applied(c, old(mem[..]), mem[..], TileSet(c, tile))
  {
    hide Applied, PerTile, Product, Clear, Fast, Between, TileSet;
    var perTile := PerTile(c.size, c);
    var tileStart := Product(tile, perTile);
    var tileEnd := Min(tileStart + perTile, c.size);
    CopyVectors(mem, c, tileStart, tileEnd);
    SlowSets(c, tile);
    AppliedSame(c, old(mem[..]), mem[..], Between(tileStart, tileEnd), TileSet(c, tile));
  }

  lemma SlowSets(c: Copy, tile: nat)
    requires Valid(c) && !Fast(c)
    ensures var start := Product(tile, PerTile(c.size, c));
            var end := Min(start + PerTile(c.size, c), c.size);
            forall o | 0 <= o < c.size :: Between(start, end)(o) <==> TileSet(c, tile)(o)
  {
    hide PerTile, Product, Fast;
  }

  lemma AppliedSame(c: Copy, was: seq<bv8>, now: seq<bv8>, P: nat -> bool, Q: nat -> bool)
    requires Applied(c, was, now, P) && forall o | 0 <= o < c.size :: P(o) <==> Q(o)
    ensures Applied(c, was, now, Q)
  {}

  /** _memcpy_u64_tiled for one tile. */
  method CopyTile(mem: array<bv8>, c: Copy, tile: nat)
    requires Valid(c) && Clear(c) && c.src + c.size <= mem.Length && c.dst + c.size <= mem.Length
    modifies mem
    ensures Applied(c, old(mem[..]), mem[..], TileSet(c, tile))
  {
    if Fast(c) {
      CopyFast(mem, c, tile);
    } else {
      CopySlow(mem, c, tile);
    }
  }

  // ---- Every byte once ---------------------------------------------------------------------------------

  lemma CeilDivCovers(n: nat, d: nat)
    requires d > 0
    ensures n <= CeilDiv(n, d) * d
  {
    Arith.DivBounds(n + d - 1, d);
  }

  /** The tiles cut n units into consecutive pieces that cover them. */
  lemma UnitInOneTile(n: nat, c: Copy, u: nat)
    requires Valid(c) && u < n
    ensures PerTile(n, c) > 0 && u / PerTile(n, c) < c.tiles
    ensures forall t: nat :: InTile(n, c, t, u) <==> t == u / PerTile(n, c)
  {
    var per := PerTile(n, c);
    CeilDivCovers(n, c.tiles);
    CeilDivCovers(CeilDiv(n, c.tiles), c.block);
    Arith.MulLe(CeilDiv(n, c.tiles), per, c.tiles);
    assert u < per * c.tiles;
    assert per > 0;
    Arith.DivBounds(u, per);
    var q := u / per;
    if q >= c.tiles {
      Arith.MulLe(c.tiles, q, per);
    }
    forall t: nat
      ensures InTile(n, c, t, u) <==> t == q
    {
      if InTile(n, c, t, u) {
        Arith.DivUnique(u, per, t);
      }
    }
  }

  lemma CeilDivLeast(n: nat, d: nat)
    requires d > 0
    ensures n > 0 ==> CeilDiv(n, d) > 0 && (CeilDiv(n, d) - 1) * d < n
    ensures n == 0 ==> CeilDiv(n, d) == 0
  {
    Arith.DivBounds(n + d - 1, d);
    if n > 0 {
      Arith.DivMono(d, n + d - 1, d);
      Arith.DivMul(1, d);
    }
  }

  /** The units per tile are whole vectors, enough for all tiles together, and with one vector less they would
      not be. */
  lemma PerTileLeast(n: nat, c: Copy)
    requires Valid(c)
    ensures PerTile(n, c) == CeilDiv(CeilDiv(n, c.tiles), c.block) * c.block && n <= c.tiles * PerTile(n, c)
    ensures if n == 0 then PerTile(n, c) == 0
            else PerTile(n, c) >= c.block && c.tiles * (PerTile(n, c) - c.block) < n
  {
    var each := CeilDiv(n, c.tiles);
    var vectors := CeilDiv(each, c.block);
    CeilDivCovers(n, c.tiles);
    CeilDivLeast(n, c.tiles);
    CeilDivCovers(each, c.block);
    CeilDivLeast(each, c.block);
    hide CeilDiv;
    Arith.MulLe(each, PerTile(n, c), c.tiles);
    if n > 0 {
      assert PerTile(n, c) - c.block == (vectors - 1) * c.block <= each - 1;
      Arith.MulLe(PerTile(n, c) - c.block, each - 1, c.tiles);
      Arith.MulLe(1, vectors, c.block);
    }
  }

  function Quotient(a: nat, b: nat): nat {
    if b == 0 then 0 else a / b
  }

  /** The one tile that writes an offset. */
  function OwnerOf(c: Copy, o: nat): nat
    requires Valid(c) && o < c.size
  {
    if !Fast(c) then Quotient(o, PerTile(c.size, c))
    else if o < Head(c) || o >= Head(c) + 8 * Words(c) then 0
    else Quotient((o - Head(c)) / 8, PerTile(Words(c), c))
  }

  /** Each destination byte is written by exactly one tile, for any sizes and alignments. */
  lemma ByteInOneTile(c: Copy, o: nat, t: nat)
    requires Valid(c) && o < c.size
    ensures OwnerOf(c, o) < c.tiles
    ensures Owns(c, t, o) <==> t == OwnerOf(c, o)
  {
    hide PerTile, InTile;
    if !Fast(c) {
      UnitInOneTile(c.size, c, o);
    } else if Head(c) <= o < Head(c) + 8 * Words(c) {
      UnitInOneTile(Words(c), c, (o - Head(c)) / 8);
    }
  }

  /** The tiles that ran so far own the offset. */
  function RanSet(c: Copy, order: seq<nat>): nat -> bool
    requires Valid(c)
  {
    (o: nat) => exists k | 0 <= k < |order| :: Owns(c, order[k], o)
  }

  lemma RanNext(c: Copy, order: seq<nat>, i: nat)
    requires Valid(c) && i < |order|
    ensures Joins(c, RanSet(c, order[..i]), TileSet(c, order[i]), RanSet(c, order[..i + 1]))
  {
    hide Owns;
    var next := order[..i + 1];
    forall o | 0 <= o < c.size
      ensures RanSet(c, next)(o) <==> RanSet(c, order[..i])(o) || TileSet(c, order[i])(o)
    {
      if RanSet(c, order[..i])(o) {
        var k :| 0 <= k < i && Owns(c, order[..i][k], o);
        assert next[k] == order[k];
      }
      if TileSet(c, order[i])(o) {
        assert next[i] == order[i];
      }
    }
  }

  /** Running every tile once, in any order, copies the block and touches nothing else. */
  method CopyTiled(mem: array<bv8>, c: Copy, order: seq<nat>)
    requires Valid(c) && Clear(c) && c.src + c.size <= mem.Length && c.dst + c.size <= mem.Length
    requires forall t | 0 <= t < c.tiles :: t in order
    modifies mem
    ensures mem[c.dst..c.dst + c.size] == old(mem[c.src..c.src + c.size])
    ensures forall x | 0 <= x < mem.Length && !(c.dst <= x < c.dst + c.size) :: mem[x] == old(mem[x])
  {
    assert Applied(c, mem[..], mem[..], RanSet(c, order[..0]));
    for i := 0 to |order|
      invariant Applied(c, old(mem[..]), mem[..], RanSet(c, order[..i]))
    {
      hide Applied, TileSet, RanSet, Clear;
      ghost var before := mem[..];
      CopyTile(mem, c, order[i]);
      RanNext(c, order, i);
      AppliedNext(c, old(mem[..]), before, mem[..], RanSet(c, order[..i]), TileSet(c, order[i]),
          RanSet(c, order[..i + 1]));
    }
    AllRan(c, order, old(mem[..]), mem[..]);
  }

  lemma AllRan(c: Copy, order: seq<nat>, was: seq<bv8>, now: seq<bv8>)
    requires Valid(c) && Applied(c, was, now, RanSet(c, order[..|order|])) && forall t | 0 <= t < c.tiles :: t in order
    ensures now[c.dst..c.dst + c.size] == was[c.src..c.src + c.size]
    ensures forall x | 0 <= x < |was| && !(c.dst <= x < c.dst + c.size) :: now[x] == was[x]
  {
    hide Owns, OwnerOf;
    assert order[..|order|] == order;
    var from, to := was[c.src..c.src + c.size], now[c.dst..c.dst + c.size];
    forall o | 0 <= o < c.size
      ensures to[o] == from[o]
    {
      var t := OwnerOf(c, o);
      ByteInOneTile(c, o, t);
      assert t in order;
      var k :| 0 <= k < |order| && order[k] == t;
      assert RanSet(c, order)(o);
      assert InRange(c, c.dst + o, 0, c.size) && Source(c, c.dst + o) == c.src + o;
      assert now[c.dst + o] == was[c.src + o];
    }
  }
}
