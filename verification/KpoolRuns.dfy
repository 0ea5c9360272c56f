/** However a request's tokens are split over prefill chunks, decode steps and speculative
    verification, its complete pools and its tail ring hold exactly its own tokens. */
module KpoolRuns {
  import opened Arith
  import opened Kpool

  /** A request: its tokens so far, its one tail block, the cache slot of each of its pools. */
  datatype Req<V> = Req(hist: seq<V>, own: nat, locs: seq<nat>)

  // ---- Layout ----------------------------------------------------------------------------

  /** get_compressed_slot_mapping: only a pool's last token carries the pool's slot. */
  function PoolSlot(kpool: nat, locs: seq<nat>, pos: nat): int
    requires kpool > 0
  {
    if pos % kpool == kpool - 1 && pos / kpool < |locs| then locs[pos / kpool] else -1
  }

  /** compute_kpool_tail_slot_mapping: every token of a request lands in the request's own block. */
  function TailSlot(kpool: nat, own: nat, pos: nat): int
    requires kpool > 0
  {
    own * kpool + pos % kpool
  }

  function PoolSlots(kpool: nat, locs: seq<nat>, start: nat, m: nat): (s: seq<int>)
    requires kpool > 0
    ensures |s| == m
  {
    seq(m, j requires 0 <= j < m => PoolSlot(kpool, locs, start + j))
  }

  function TailSlots(kpool: nat, own: nat, start: nat, m: nat): (s: seq<int>)
    requires kpool > 0
    ensures |s| == m
  {
    seq(m, j requires 0 <= j < m => TailSlot(kpool, own, start + j))
  }

  function VerifyRow<V>(kpool: nat, r: Req<V>, toks: seq<V>): (row: seq<Verify<V>>)
    requires kpool > 0
    ensures |row| == |toks|
  {
    seq(|toks|, j requires 0 <= j < |toks| =>
          Verify(PoolSlot(kpool, r.locs, |r.hist| + j), |r.hist| + j, TailSlot(kpool, r.own, |r.hist| + j), toks[j]))
  }

  // ---- What the buffers must hold -------------------------------------------------------------

  /** Start of the incomplete pool after n tokens. */
  function PoolStart(n: nat, kpool: nat): int
    requires kpool > 0
  {
    n / kpool * kpool
  }

  ghost predicate PoolCached<V, C>(c: Config<V, C>, cache: seq<C>, hist: seq<V>, locs: seq<nat>, p: nat)
  {
    && p < |locs| && locs[p] < |cache|
    && 0 <= p * c.kpool <= (p + 1) * c.kpool <= |hist|
         && cache[locs[p]] == c.compress(hist[p * c.kpool..(p + 1) * c.kpool])
  }

  ghost predicate PoolsCached<V, C>(c: Config<V, C>, cache: seq<C>, hist: seq<V>, locs: seq<nat>)
    requires c.kpool > 0
  {
    forall p: nat | (p + 1) * c.kpool <= |hist| :: PoolCached(c, cache, hist, locs, p)
  }

  ghost predicate RingAt<V>(kpool: nat, tail: seq<V>, own: nat, hist: seq<V>, pos: nat)
    requires kpool > 0 && pos < |hist|
  {
    0 <= TailSlot(kpool, own, pos) < |tail| && tail[TailSlot(kpool, own, pos)] == hist[pos]
  }

  /** The ring holds the tokens at positions [lo, hi). */
  ghost predicate RingHolds<V>(kpool: nat, tail: seq<V>, own: nat, hist: seq<V>, lo: int, hi: nat)
    requires kpool > 0 && hi <= |hist|
  {
    forall pos: nat | lo <= pos < hi :: RingAt(kpool, tail, own, hist, pos)
  }

  // ---- Effects of the prefill kernels, slot by slot -------------------------------------------

  lemma {:induction false} InsertMiss<V, C>(c: Config<V, C>, cache: seq<C>, toks: seq<V>, slots: seq<int>, n: nat,
          x: nat)
    requires c.kpool > 0 && n <= |toks| == |slots| && x < |cache| && forall i | 0 <= i < |slots| :: slots[i] < |cache|
    requires forall i | 0 <= i < n :: slots[i] != x
    ensures InsertRows(c, cache, toks, slots, n)[x] == cache[x]
  {
    if n > 0 { InsertMiss(c, cache, toks, slots, n - 1, x); }
  }

  lemma {:induction false} InsertHit<V, C>(c: Config<V, C>, cache: seq<C>, toks: seq<V>, slots: seq<int>, n: nat,
          i: nat)
    requires c.kpool > 0 && n <= |toks| == |slots| && forall i | 0 <= i < |slots| :: slots[i] < |cache|
    requires c.kpool - 1 <= i < n && slots[i] >= 0 && forall k | i < k < n :: slots[k] != slots[i]
    ensures InsertRows(c, cache, toks, slots, n)[slots[i]] == c.compress(toks[i + 1 - c.kpool..i + 1])
  {
    if n - 1 > i { InsertHit(c, cache, toks, slots, n - 1, i); }
  }

  lemma {:induction false} SeedMiss<V>(kpool: nat, tail: seq<V>, toks: seq<V>, tslots: seq<int>, n: nat, x: nat)
    requires kpool > 0 && n <= |toks| == |tslots| && x < |tail| && forall i | 0 <= i < |tslots| :: tslots[i] < |tail|
    requires forall i | 0 <= i < n :: tslots[i] != x
    ensures SeedRows(kpool, tail, toks, tslots, n)[x] == tail[x]
  {
    if n > 0 { SeedMiss(kpool, tail, toks, tslots, n - 1, x); }
  }

  lemma {:induction false} SeedHit<V>(kpool: nat, tail: seq<V>, toks: seq<V>, tslots: seq<int>, n: nat, i: nat)
    requires kpool > 0 && n <= |toks| == |tslots| && forall i | 0 <= i < |tslots| :: tslots[i] < |tail|
    requires i < n && tslots[i] >= 0 && !Superseded(kpool, tslots, i)
    requires forall k | i < k < n :: tslots[k] != tslots[i]
    ensures SeedRows(kpool, tail, toks, tslots, n)[tslots[i]] == toks[i]
  {
    if n - 1 > i { SeedHit(kpool, tail, toks, tslots, n - 1, i); }
  }

  // ---- One pool-aligned prefill chunk ------------------------------------------------------------

  /** Room for the chunk: cache slots for every pool it completes, all in range. */
  predicate Fits<V, C>(kpool: nat, s: Store<V, C>, r: Req<V>, m: nat)
    requires kpool > 0
  {
    && (|r.hist| + m) / kpool <= |r.locs|
    && (forall p | 0 <= p < |r.locs| :: r.locs[p] < |s.cache|)
    && 0 <= r.own * kpool <= r.own * kpool + kpool <= |s.tail|
  }

  /** Pools not yet complete have cache slots of their own. */
  ghost predicate LocsDistinct<V>(kpool: nat, r: Req<V>)
    requires kpool > 0
  {
    forall p, q | |r.hist| / kpool <= p < |r.locs| && 0 <= q < |r.locs| && p != q :: r.locs[p] != r.locs[q]
  }

  lemma SlotsFit<V, C>(kpool: nat, s: Store<V, C>, r: Req<V>, m: nat, j: nat)
    requires kpool > 0 && Fits(kpool, s, r, m) && j < m
    ensures PoolSlot(kpool, r.locs, |r.hist| + j) < |s.cache|
    ensures 0 <= TailSlot(kpool, r.own, |r.hist| + j) < |s.tail|
    ensures TailSlot(kpool, r.own, |r.hist| + j) / kpool == r.own
    ensures TailSlot(kpool, r.own, |r.hist| + j) % kpool == (|r.hist| + j) % kpool
  {
    Whole(|r.hist| + j, kpool);
    Split(r.own, (|r.hist| + j) % kpool, kpool);
  }

  lemma SlotsInRange<V, C>(kpool: nat, s: Store<V, C>, r: Req<V>, m: nat)
    requires kpool > 0 && Fits(kpool, s, r, m)
    ensures forall j | 0 <= j < m :: PoolSlots(kpool, r.locs, |r.hist|, m)[j] < |s.cache|
    ensures forall j | 0 <= j < m :: 0 <= TailSlots(kpool, r.own, |r.hist|, m)[j] < |s.tail|
  {
    var a, b := PoolSlots(kpool, r.locs, |r.hist|, m), TailSlots(kpool, r.own, |r.hist|, m);
    forall j | 0 <= j < m ensures a[j] < |s.cache| { SlotsFit(kpool, s, r, m, j); }
    forall j | 0 <= j < m ensures 0 <= b[j] < |s.tail| { SlotsFit(kpool, s, r, m, j); }
  }

  /** Applying one chunk of request r. */
  function PrefillStore<V, C>(c: Config<V, C>, s: Store<V, C>, r: Req<V>, toks: seq<V>): (t: Store<V, C>)
    requires c.kpool > 0 && Fits(c.kpool, s, r, |toks|)
    ensures |t.cache| == |s.cache| && |t.tail| == |s.tail|
  {
    SlotsInRange(c.kpool, s, r, |toks|);
    Store(InsertRows(c, s.cache, toks, PoolSlots(c.kpool, r.locs, |r.hist|, |toks|), |toks|),
          SeedRows(c.kpool, s.tail, toks, TailSlots(c.kpool, r.own, |r.hist|, |toks|), |toks|))
  }

  lemma CompletedPool(k: nat, locs: seq<nat>, p: nat, n: nat)
    requires k > 0 && (p + 1) * k <= n && n / k <= |locs|
    ensures p < |locs| && p * k + k == (p + 1) * k && PoolSlot(k, locs, p * k + (k - 1)) == locs[p]
  {
    DivMono((p + 1) * k, n, k);
    DivMul(p + 1, k);
    Split(p, k - 1, k);
  }

  /** A new pool of the chunk is compressed from precisely its own tokens. */
  lemma PrefillNewPool<V, C>(c: Config<V, C>, s: Store<V, C>, r: Req<V>, toks: seq<V>, p: nat)
    requires c.kpool > 0 && Fits(c.kpool, s, r, |toks|) && LocsDistinct(c.kpool, r)
    requires |r.hist| % c.kpool == 0 && |r.hist| / c.kpool <= p && (p + 1) * c.kpool <= |r.hist| + |toks|
    ensures PoolCached(c, PrefillStore(c, s, r, toks).cache, r.hist + toks, r.locs, p)
  {
    hide PoolSlot, InsertRows, Fits, LocsDistinct;
    var k, start, first := c.kpool, |r.hist|, p * c.kpool;
    var slots := PoolSlots(k, r.locs, start, |toks|);
    SlotsInRange(k, s, r, |toks|);
    PoolPlace(c, s, r, |toks|, p);
    var i := first + (k - 1) - start;
    forall l | i < l < |toks| ensures slots[l] != slots[i] {
      LaterSlotDiffers(k, r, |toks|, p, l);
    }
    InsertHit(c, s.cache, toks, slots, |toks|, i);
    assert (r.hist + toks)[first..first + k] == toks[i + 1 - k..i + 1];
  }

  /** Where the last token of a new pool stands in the chunk, and the slot it carries. */
  lemma PoolPlace<V, C>(c: Config<V, C>, s: Store<V, C>, r: Req<V>, m: nat, p: nat)
    requires c.kpool > 0 && Fits(c.kpool, s, r, m)
    requires |r.hist| % c.kpool == 0 && |r.hist| / c.kpool <= p && (p + 1) * c.kpool <= |r.hist| + m
    ensures |r.hist| <= p * c.kpool && p * c.kpool + c.kpool == (p + 1) * c.kpool <= |r.hist| + m
    ensures p < |r.locs| && r.locs[p] < |s.cache| && PoolSlot(c.kpool, r.locs, p * c.kpool + (c.kpool - 1)) == r.locs[p]
  {
    hide PoolSlot;
    Whole(|r.hist|, c.kpool);
    MulLe(|r.hist| / c.kpool, p, c.kpool);
    CompletedPool(c.kpool, r.locs, p, |r.hist| + m);
  }

  lemma LaterSlotDiffers<V>(k: nat, r: Req<V>, m: nat, p: nat, l: nat)
    requires k > 0 && LocsDistinct(k, r) && |r.hist| / k <= p < |r.locs|
    requires p * k + k - 1 < |r.hist| + l && l < m
    ensures PoolSlot(k, r.locs, |r.hist| + l) != r.locs[p]
  {
    var pos := |r.hist| + l;
    Whole(pos, k);
    if pos / k <= p {
      MulLe(pos / k, p, k);
    }
    DivMono(|r.hist|, pos, k);
  }

  /** A slot of an older pool, or of another request, is not written. */
  lemma PrefillKeepsSlot<V, C>(c: Config<V, C>, s: Store<V, C>, r: Req<V>, toks: seq<V>, x: nat)
    requires c.kpool > 0 && Fits(c.kpool, s, r, |toks|) && x < |s.cache|
    requires forall p | |r.hist| / c.kpool <= p < |r.locs| :: r.locs[p] != x
    ensures PrefillStore(c, s, r, toks).cache[x] == s.cache[x]
  {
    var slots := PoolSlots(c.kpool, r.locs, |r.hist|, |toks|);
    forall j: nat | j < |toks| ensures slots[j] < |s.cache| && slots[j] != x {
      SlotsFit(c.kpool, s, r, |toks|, j);
      DivMono(|r.hist|, |r.hist| + j, c.kpool);
    }
    InsertMiss(c, s.cache, toks, slots, |toks|, x);
  }

  /** The trailing incomplete pool is in the ring. */
  lemma PrefillRing<V, C>(c: Config<V, C>, s: Store<V, C>, r: Req<V>, toks: seq<V>, pos: nat)
    requires c.kpool > 0 && Fits(c.kpool, s, r, |toks|) && |r.hist| % c.kpool == 0
    requires PoolStart(|r.hist| + |toks|, c.kpool) <= pos < |r.hist| + |toks|
    ensures RingAt(c.kpool, PrefillStore(c, s, r, toks).tail, r.own, r.hist + toks, pos)
  {
    var k, start, n := c.kpool, |r.hist|, |r.hist| + |toks|;
    var tslots := TailSlots(k, r.own, start, |toks|);
    SlotsInRange(k, s, r, |toks|);
    Whole(n, k);
    Whole(start, k);
    DivMono(start, n, k);
    MulLe(start / k, n / k, k);
    var i := pos - start;
    assert !Superseded(k, tslots, i);
    forall l | i < l < |toks| ensures tslots[l] != tslots[i] {
      RingSlotsDiffer(k, r.own, pos, start + l);
    }
    SeedHit(k, s.tail, toks, tslots, |toks|, i);
  }

  lemma RingSlotsDiffer(k: nat, own: nat, pos: nat, later: nat)
    requires k > 0 && pos < later < pos + k
    ensures TailSlot(k, own, pos) != TailSlot(k, own, later)
  {
    Whole(pos, k);
    Whole(later, k);
    if pos % k == later % k {
      var d := later / k - pos / k;
      assert d * k == later - pos;
      if d <= 0 { MulLe(d, 0, k); } else { MulLe(1, d, k); }
    }
  }

  lemma PrefillKeepsTail<V, C>(c: Config<V, C>, s: Store<V, C>, r: Req<V>, toks: seq<V>, x: nat)
    requires c.kpool > 0 && Fits(c.kpool, s, r, |toks|) && x < |s.tail| && x / c.kpool != r.own
    ensures PrefillStore(c, s, r, toks).tail[x] == s.tail[x]
  {
    var tslots := TailSlots(c.kpool, r.own, |r.hist|, |toks|);
    forall j: nat | j < |toks| ensures tslots[j] < |s.tail| && tslots[j] != x {
      SlotsFit(c.kpool, s, r, |toks|, j);
    }
    SeedMiss(c.kpool, s.tail, toks, tslots, |toks|, x);
  }
}
