/** The key-pool cache: kpool consecutive tokens are compressed into one cache entry, and the
    tokens of the incomplete pool wait in a ring of kpool slots per request. */
module Kpool {

  /** Pool size and the compression of one full pool (softmax-weighted sum, rotation, quantisation). */
  datatype Config<!V, C> = Config(kpool: nat, compress: seq<V> -> C)

  // ---- Prefill: compress complete pools (one program per token) --------------------------

  /** _kpool_compress_insert over the first n tokens: a valid slot marks a pool's last token. */
  function InsertRows<V, C>(c: Config<V, C>, cache: seq<C>, toks: seq<V>, slots: seq<int>, n: nat): (r: seq<C>)
    requires c.kpool > 0 && n <= |toks| == |slots| && forall i | 0 <= i < |slots| :: slots[i] < |cache|
    ensures |r| == |cache|
  {
    if n == 0 then cache
    else
      var before := InsertRows(c, cache, toks, slots, n - 1);
      if slots[n - 1] >= 0 && n - 1 >= c.kpool - 1
      then before[slots[n - 1] := c.compress(toks[n - c.kpool..n])]
      else before
  }

  // ---- Prefill: seed the tail ring (one program per token) ----------------------------------

  /** A token is left out when the token kpool ahead lands in the same tail block. */
  predicate Superseded(kpool: nat, tslots: seq<int>, i: nat)
    requires kpool > 0 && i < |tslots|
  {
    i + kpool < |tslots| && tslots[i + kpool] >= 0 && tslots[i + kpool] / kpool == tslots[i] / kpool
  }

  /** _kpool_tail_seed_kernel over the first n tokens. */
  function SeedRows<V>(kpool: nat, tail: seq<V>, toks: seq<V>, tslots: seq<int>, n: nat): (r: seq<V>)
    requires kpool > 0 && n <= |toks| == |tslots| && forall i | 0 <= i < |tslots| :: tslots[i] < |tail|
    ensures |r| == |tail|
  {
    if n == 0 then tail
    else
      var before := SeedRows(kpool, tail, toks, tslots, n - 1);
      if tslots[n - 1] < 0 || Superseded(kpool, tslots, n - 1) then before
      else before[tslots[n - 1] := toks[n - 1]]
  }

  // ---- Decode: one request's verify tokens in position order --------------------------------

  /** One token as the decode kernel sees it; -1 entries are padding. */
  datatype Verify<V> = Verify(loc: int, pos: int, tslot: int, value: V)

  datatype Store<V, C> = Store(cache: seq<C>, tail: seq<V>)

  function TailBlock(kpool: nat, tslot: int): int
    requires kpool > 0
  {
    (if tslot > 0 then tslot else 0) / kpool
  }

  predicate TokenInRange<V, C>(kpool: nat, s: Store<V, C>, t: Verify<V>)
    requires kpool > 0
  {
    t.loc < |s.cache| && 0 <= TailBlock(kpool, t.tslot) * kpool <= TailBlock(kpool, t.tslot) * kpool + kpool <= |s.tail|
  }

  /** The pool that token t completes: ring entries, with t's own value last. */
  function PoolRead<V, C>(kpool: nat, s: Store<V, C>, t: Verify<V>): seq<V>
    requires kpool > 0 && TokenInRange(kpool, s, t) && t.pos >= 0
  {
    var slot := t.pos % kpool;
    var start := t.pos - slot;
    seq(kpool, j requires 0 <= j < kpool =>
          if j == slot then t.value else s.tail[TailBlock(kpool, t.tslot) * kpool + (start + j) % kpool])
  }

  /** Completion read first, stash second. */
  function DecodeToken<V, C>(c: Config<V, C>, s: Store<V, C>, t: Verify<V>): (r: Store<V, C>)
    requires c.kpool > 0 && TokenInRange(c.kpool, s, t)
    ensures |r.cache| == |s.cache| && |r.tail| == |s.tail|
  {
    var completed :=
      if t.loc >= 0 && t.pos >= 0 && t.pos % c.kpool == c.kpool - 1
      then s.(cache := s.cache[t.loc := c.compress(PoolRead(c.kpool, s, t))])
      else s;
    if t.pos >= 0 && t.tslot >= 0
    then completed.(tail := completed.tail[TailBlock(c.kpool, t.tslot) * c.kpool + t.pos % c.kpool := t.value])
    else completed
  }

  predicate RowInRange<V, C>(kpool: nat, s: Store<V, C>, row: seq<Verify<V>>)
    requires kpool > 0
  {
    forall t | 0 <= t < |row| :: TokenInRange(kpool, s, row[t])
  }

  function DecodeRow<V, C>(c: Config<V, C>, s: Store<V, C>, row: seq<Verify<V>>): (r: Store<V, C>)
    requires c.kpool > 0 && RowInRange(c.kpool, s, row)
    ensures |r.cache| == |s.cache| && |r.tail| == |s.tail|
    decreases |row|
  {
    if row == [] then s
    else DecodeToken(c, DecodeRow(c, s, row[..|row| - 1]), row[|row| - 1])
  }

  predicate RowsInRange<V, C>(kpool: nat, s: Store<V, C>, rows: seq<seq<Verify<V>>>)
    requires kpool > 0
  {
    forall b | 0 <= b < |rows| :: RowInRange(kpool, s, rows[b])
  }

  function DecodeRows<V, C>(c: Config<V, C>, s: Store<V, C>, rows: seq<seq<Verify<V>>>): (r: Store<V, C>)
    requires c.kpool > 0 && RowsInRange(c.kpool, s, rows)
    ensures |r.cache| == |s.cache| && |r.tail| == |s.tail|
    decreases |rows|
  {
    if rows == [] then s
    else DecodeRow(c, DecodeRows(c, s, rows[..|rows| - 1]), rows[|rows| - 1])
  }

  // ---- The kernels on device buffers ----------------------------------------------------------

  class KpoolCache<V, C> {
    const c: Config<V, C>
    const cache: array<C>
    const tail: array<V>

    constructor (c: Config<V, C>, cache: array<C>, tail: array<V>)
      ensures this.c == c && this.cache == cache && this.tail == tail
    {
      this.c, this.cache, this.tail := c, cache, tail;
    }

    ghost predicate Valid() {
      var x: object, y: object := cache, tail;
      c.kpool > 0 && x != y
    }

    ghost function Contents(): Store<V, C>
      reads cache, tail
    {
      Store(cache[..], tail[..])
    }

    method CompressInsert(toks: seq<V>, slots: seq<int>)
      requires Valid() && |toks| == |slots| && forall i | 0 <= i < |slots| :: slots[i] < cache.Length
      modifies cache
      ensures cache[..] == InsertRows(c, old(cache[..]), toks, slots, |toks|)
    {
      ghost var was := cache[..];
      var n := |slots|;
      if n < c.kpool {
        InsertNothing(c, was, toks, slots, n);
        return;
      }
      for i := 0 to n
        invariant cache[..] == InsertRows(c, was, toks, slots, i)
      {
        if slots[i] >= 0 && i >= c.kpool - 1 {
          cache[slots[i]] := c.compress(toks[i + 1 - c.kpool..i + 1]);
        }
      }
    }

    method SeedTail(toks: seq<V>, tslots: seq<int>)
      requires Valid() && |toks| == |tslots| && forall i | 0 <= i < |tslots| :: tslots[i] < tail.Length
      modifies tail
      ensures tail[..] == SeedRows(c.kpool, old(tail[..]), toks, tslots, |toks|)
    {
      ghost var was := tail[..];
      for i := 0 to |tslots|
        invariant tail[..] == SeedRows(c.kpool, was, toks, tslots, i)
      {
        var t := tslots[i];
        if t >= 0 {
          var blk := t / c.kpool;
          var ahead := if i + c.kpool < |tslots| then tslots[i + c.kpool] else -1;
          if !(ahead >= 0 && ahead / c.kpool == blk) {
            tail[t] := toks[i];
          }
        }
      }
    }

    /** One program of the decode kernel: the request's tokens strictly in order. */
    method DecodeRequest(row: seq<Verify<V>>)
      requires Valid() && RowInRange(c.kpool, Contents(), row)
      modifies cache, tail
      ensures Contents() == DecodeRow(c, old(Contents()), row)
    {
      ghost var was := Contents();
      for t := 0 to |row|
        invariant RowInRange(c.kpool, was, row) && RowInRange(c.kpool, was, row[..t])
        invariant Contents() == DecodeRow(c, was, row[..t])
      {
        assert row[..t + 1][..t] == row[..t];
        StoreToken(row[t]);
      }
      assert row[..|row|] == row;
    }

    method StoreToken(t: Verify<V>)
      requires Valid() && TokenInRange(c.kpool, Contents(), t)
      modifies cache, tail
      ensures Contents() == DecodeToken(c, old(Contents()), t)
    {
      var safePos := if t.pos > 0 then t.pos else 0;
      var slot := safePos % c.kpool;
      var block := (if t.tslot > 0 then t.tslot else 0) / c.kpool;
      if t.loc >= 0 && t.pos >= 0 && slot == c.kpool - 1 {
        var buf := tail[..];
        var start := safePos - slot;
        var pool := seq(c.kpool, j requires 0 <= j < c.kpool
            && 0 <= block * c.kpool <= block * c.kpool + c.kpool <= |buf| =>
                          if j == slot then t.value else buf[block * c.kpool + (start + j) % c.kpool]);
        assert pool == PoolRead(c.kpool, Contents(), t);
        cache[t.loc] := c.compress(pool);
      }
      if t.pos >= 0 && t.tslot >= 0 {
        tail[block * c.kpool + slot] := t.value;
      }
    }

    method DecodeUpdate(rows: seq<seq<Verify<V>>>)
      requires Valid() && RowsInRange(c.kpool, Contents(), rows)
      modifies cache, tail
      ensures Contents() == DecodeRows(c, old(Contents()), rows)
    {
      ghost var was := Contents();
      for b := 0 to |rows|
        invariant RowsInRange(c.kpool, was, rows) && RowsInRange(c.kpool, was, rows[..b])
        invariant Contents() == DecodeRows(c, was, rows[..b])
      {
        assert rows[..b + 1][..b] == rows[..b];
        DecodeRequest(rows[b]);
      }
      assert rows[..|rows|] == rows;
    }
  }

  /** A batch shorter than a pool completes none. */
  lemma {:induction false} InsertNothing<V, C>(c: Config<V, C>, cache: seq<C>, toks: seq<V>, slots: seq<int>, n: nat)
    requires c.kpool > 0 && n <= |toks| == |slots| && forall i | 0 <= i < |slots| :: slots[i] < |cache|
    requires n < c.kpool
    ensures InsertRows(c, cache, toks, slots, n) == cache
  {
    if n > 0 { InsertNothing(c, cache, toks, slots, n - 1); }
  }
}
