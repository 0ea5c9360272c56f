/** The decode kernel on one request: ordered completions, the sliding ring, and rollback. */
module KpoolDecode {
  import opened Arith
  import opened Kpool
  import opened KpoolRuns

  lemma RowFits<V, C>(kpool: nat, s: Store<V, C>, r: Req<V>, toks: seq<V>)
    requires kpool > 0 && Fits(kpool, s, r, |toks|)
    ensures RowInRange(kpool, s, VerifyRow(kpool, r, toks))
  {
    var row := VerifyRow(kpool, r, toks);
    forall j | 0 <= j < |row| ensures TokenInRange(kpool, s, row[j]) {
      SlotsFit(kpool, s, r, |toks|, j);
      TailBlockOwn(kpool, r.own, |r.hist| + j);
    }
  }

  lemma TailBlockOwn(kpool: nat, own: nat, pos: nat)
    requires kpool > 0
    ensures TailSlot(kpool, own, pos) >= 0 && TailBlock(kpool, TailSlot(kpool, own, pos)) == own
  {
    Whole(pos, kpool);
    Split(own, pos % kpool, kpool);
    MulLe(0, own, kpool);
  }

  function DecodeReq<V, C>(c: Config<V, C>, s: Store<V, C>, r: Req<V>, toks: seq<V>): (t: Store<V, C>)
    requires c.kpool > 0 && Fits(c.kpool, s, r, |toks|)
    ensures |t.cache| == |s.cache| && |t.tail| == |s.tail|
  {
    RowFits(c.kpool, s, r, toks);
    DecodeRow(c, s, VerifyRow(c.kpool, r, toks))
  }

  // ---- What the ring and the cache hold after n tokens of a sequence -----------------------

  /** Oldest position still in the ring when the last stashed token is at n - 1. */
  function RingLow(kpool: nat, base: nat, n: nat): int
    requires kpool > 0
  {
    if PoolStart(base, kpool) > n - kpool then PoolStart(base, kpool) else n - kpool
  }

  /** Pool p filled up between `base` and n tokens. */
  predicate NewlyComplete(kpool: nat, base: nat, n: nat, p: nat)
    requires kpool > 0
  {
    base / kpool <= p && (p + 1) * kpool <= n
  }

  /** State while decoding the sequence `all`, whose first `base` tokens were there before. */
  ghost predicate Decoded<V, C>(c: Config<V, C>, s: Store<V, C>, own: nat, locs: seq<nat>, all: seq<V>, base: nat,
          n: nat)
    requires c.kpool > 0 && base <= n <= |all|
  {
    && RingHolds(c.kpool, s.tail, own, all, RingLow(c.kpool, base, n), n)
    && forall p: nat | NewlyComplete(c.kpool, base, n, p) :: PoolCached(c, s.cache, all, locs, p)
  }

  /** Entry j of the pool read back at a completion is the pool's own token j. */
  lemma PoolEntryRight<V, C>(c: Config<V, C>, s: Store<V, C>, t: Verify<V>, own: nat, all: seq<V>, low: int, p: nat,
                             j: nat)
    requires c.kpool > 0 && TokenInRange(c.kpool, s, t) && j < c.kpool
    requires t.pos == p * c.kpool + (c.kpool - 1) < |all| && low <= p * c.kpool && 0 <= p * c.kpool
    requires t.tslot == TailSlot(c.kpool, own, t.pos) && t.value == all[t.pos]
    requires RingHolds(c.kpool, s.tail, own, all, low, t.pos)
    ensures t.pos >= 0 && PoolRead(c.kpool, s, t)[j] == all[p * c.kpool + j]
  {
    hide RingHolds;
    Split(p, c.kpool - 1, c.kpool);
    Split(p, j, c.kpool);
    TailBlockOwn(c.kpool, own, t.pos);
    if j < c.kpool - 1 {
      RingEntry(c.kpool, s.tail, own, all, low, t.pos, p * c.kpool + j);
    }
  }

  lemma RingEntry<V>(kpool: nat, tail: seq<V>, own: nat, all: seq<V>, low: int, hi: nat, pos: nat)
    requires kpool > 0 && hi <= |all| && low <= pos < hi && RingHolds(kpool, tail, own, all, low, hi)
    ensures RingAt(kpool, tail, own, all, pos)
  {}

  /** The pool read back at a completion is the pool's own tokens. */
  lemma PoolReadRight<V, C>(c: Config<V, C>, s: Store<V, C>, t: Verify<V>, own: nat, all: seq<V>, base: nat, p: nat)
    requires c.kpool > 0 && TokenInRange(c.kpool, s, t) && base / c.kpool <= p
    requires t.pos == p * c.kpool + (c.kpool - 1) < |all| && base <= t.pos
    requires t.tslot == TailSlot(c.kpool, own, t.pos) && t.value == all[t.pos]
    requires RingHolds(c.kpool, s.tail, own, all, RingLow(c.kpool, base, t.pos), t.pos)
    ensures 0 <= p * c.kpool && PoolRead(c.kpool, s, t) == all[p * c.kpool..p * c.kpool + c.kpool]
  {
    var k, low := c.kpool, RingLow(c.kpool, base, t.pos);
    MulLe(base / k, p, k);
    MulLe(0, p, k);
    hide RingHolds, PoolRead;
    var pool := PoolRead(k, s, t);
    assert |pool| == k by { PoolReadLength(k, s, t); }
    forall j | 0 <= j < k ensures pool[j] == all[p * k..p * k + k][j] {
      PoolEntryRight(c, s, t, own, all, low, p, j);
    }
  }

  lemma PoolReadLength<V, C>(kpool: nat, s: Store<V, C>, t: Verify<V>)
    requires kpool > 0 && TokenInRange(kpool, s, t) && t.pos >= 0
    ensures |PoolRead(kpool, s, t)| == kpool
  {}

  /** One token of the row keeps the picture for one position more. */
  lemma DecodeTokenStep<V, C>(c: Config<V, C>, s: Store<V, C>, t: Verify<V>, own: nat, locs: seq<nat>,
                              all: seq<V>, base: nat, n: nat)
    requires c.kpool > 0 && base <= n < |all| && TokenInRange(c.kpool, s, t) && Decoded(c, s, own, locs, all, base, n)
    requires t == Verify(PoolSlot(c.kpool, locs, n), n, TailSlot(c.kpool, own, n), all[n])
    requires (n + 1) / c.kpool <= |locs|
    requires forall p, q | base / c.kpool <= p < |locs| && 0 <= q < |locs| && p != q :: locs[p] != locs[q]
    ensures Decoded(c, DecodeToken(c, s, t), own, locs, all, base, n + 1)
  {
    TokenRing(c, s, t, own, locs, all, base, n);
    var u := DecodeToken(c, s, t);
    forall p: nat | NewlyComplete(c.kpool, base, n + 1, p)
      ensures PoolCached(c, u.cache, all, locs, p)
    {
      TokenPool(c, s, t, own, locs, all, base, n, p);
    }
  }

  lemma TokenRing<V, C>(c: Config<V, C>, s: Store<V, C>, t: Verify<V>, own: nat, locs: seq<nat>,
                        all: seq<V>, base: nat, n: nat)
    requires c.kpool > 0 && base <= n < |all| && TokenInRange(c.kpool, s, t)
    requires RingHolds(c.kpool, s.tail, own, all, RingLow(c.kpool, base, n), n)
    requires t == Verify(PoolSlot(c.kpool, locs, n), n, TailSlot(c.kpool, own, n), all[n])
    ensures RingHolds(c.kpool, DecodeToken(c, s, t).tail, own, all, RingLow(c.kpool, base, n + 1), n + 1)
  {
    var k, u := c.kpool, DecodeToken(c, s, t);
    TailBlockOwn(k, own, n);
    Whole(n, k);
    forall pos: nat | RingLow(k, base, n + 1) <= pos < n + 1 ensures RingAt(k, u.tail, own, all, pos) {
      if pos < n {
        assert RingAt(k, s.tail, own, all, pos);
        RingSlotsDiffer(k, own, pos, n);
      }
    }
  }

  /** Token n is about to be verified by t. */
  ghost predicate Stepping<V, C>(c: Config<V, C>, s: Store<V, C>, t: Verify<V>, own: nat, locs: seq<nat>, all: seq<V>,
                                 base: nat, n: nat) {
    && c.kpool > 0 && base <= n < |all| && TokenInRange(c.kpool, s, t) && Decoded(c, s, own, locs, all, base, n)
    && t == Verify(PoolSlot(c.kpool, locs, n), n, TailSlot(c.kpool, own, n), all[n])
    && (n + 1) / c.kpool <= |locs|
    && (forall p, q | base / c.kpool <= p < |locs| && 0 <= q < |locs| && p != q :: locs[p] != locs[q])
  }

  lemma TokenPool<V, C>(c: Config<V, C>, s: Store<V, C>, t: Verify<V>, own: nat, locs: seq<nat>,
                        all: seq<V>, base: nat, n: nat, p: nat)
    requires Stepping(c, s, t, own, locs, all, base, n)
    requires NewlyComplete(c.kpool, base, n + 1, p)
    ensures PoolCached(c, DecodeToken(c, s, t).cache, all, locs, p)
  {
    var k := c.kpool;
    CompletedPool(k, locs, p, n + 1);
    if (p + 1) * k <= n {
      assert NewlyComplete(k, base, n, p);
      assert PoolCached(c, s.cache, all, locs, p);
      if n % k == k - 1 && n / k < |locs| {
        Whole(n, k);
        DivMono(base, n, k);
        if n / k <= p { MulLe(n / k, p, k); }
      }
    } else {
      Split(p, k - 1, k);
      PoolReadRight(c, s, t, own, all, base, p);
    }
  }

  /** A pool that n tokens complete comes before the pool they are filling. */
  lemma CompleteIsOlder(n: nat, k: nat, p: nat)
    requires k > 0 && (p + 1) * k <= n
    ensures p < n / k
  {
    DivMono((p + 1) * k, n, k);
    DivMul(p + 1, k);
  }

  lemma {:induction false} DecodePrefix<V, C>(c: Config<V, C>, s: Store<V, C>, r: Req<V>, toks: seq<V>, m: nat)
    requires c.kpool > 0 && Fits(c.kpool, s, r, |toks|) && LocsDistinct(c.kpool, r) && m <= |toks|
    requires RingHolds(c.kpool, s.tail, r.own, r.hist, PoolStart(|r.hist|, c.kpool), |r.hist|)
    ensures RowInRange(c.kpool, s, VerifyRow(c.kpool, r, toks)[..m])
    ensures Decoded(c, DecodeRow(c, s, VerifyRow(c.kpool, r, toks)[..m]), r.own, r.locs, r.hist + toks, |r.hist|,
        |r.hist| + m)
  {
    var k, row := c.kpool, VerifyRow(c.kpool, r, toks);
    RowFits(k, s, r, toks);
    if m == 0 {
      Whole(|r.hist|, k);
      forall pos: nat | RingLow(k, |r.hist|, |r.hist|) <= pos < |r.hist|
        ensures RingAt(k, s.tail, r.own, r.hist + toks, pos)
      {
        assert RingAt(k, s.tail, r.own, r.hist, pos);
      }
      forall p: nat ensures !NewlyComplete(k, |r.hist|, |r.hist|, p) {
        if (p + 1) * k <= |r.hist| { CompleteIsOlder(|r.hist|, k, p); }
      }
    } else {
      DecodePrefix(c, s, r, toks, m - 1);
      assert row[..m][..m - 1] == row[..m - 1];
      DivMono(|r.hist| + m, |r.hist| + |toks|, k);
      DecodeTokenStep(c, DecodeRow(c, s, row[..m - 1]), row[m - 1], r.own, r.locs, r.hist + toks, |r.hist|,
          |r.hist| + m - 1);
    }
  }

  // ---- Accepting a prefix of the verified tokens ---------------------------------------------

  /** Keeping n of `stashed` tokens does not reach behind the newest pool in the ring. */
  predicate KeepsPool(kpool: nat, n: nat, stashed: nat)
    requires kpool > 0
  {
    n % kpool == 0 || stashed <= PoolStart(n, kpool) + kpool
  }

  lemma PoolStartMono(m: nat, n: nat, k: nat)
    requires k > 0 && m <= n
    ensures 0 <= PoolStart(m, k) <= PoolStart(n, k) <= n < PoolStart(n, k) + k
    ensures n % k == 0 ==> PoolStart(n, k) == n
  {
    DivMono(m, n, k);
    DivMono(0, m, k);
    MulLe(m / k, n / k, k);
    MulLe(0, m / k, k);
    Whole(n, k);
  }

  /** After verification and rollback the ring again holds the incomplete pool. */
  lemma DecodeRing<V, C>(c: Config<V, C>, s: Store<V, C>, r: Req<V>, toks: seq<V>, keep: nat)
    requires c.kpool > 0 && Fits(c.kpool, s, r, |toks|) && LocsDistinct(c.kpool, r) && keep <= |toks|
    requires RingHolds(c.kpool, s.tail, r.own, r.hist, PoolStart(|r.hist|, c.kpool), |r.hist|)
    requires KeepsPool(c.kpool, |r.hist| + keep, |r.hist| + |toks|)
    ensures var hist := r.hist + toks[..keep];
            RingHolds(c.kpool, DecodeReq(c, s, r, toks).tail, r.own, hist, PoolStart(|hist|, c.kpool), |hist|)
  {
    var k, row, n := c.kpool, VerifyRow(c.kpool, r, toks), |r.hist| + keep;
    DecodePrefix(c, s, r, toks, |toks|);
    assert row[..|toks|] == row;
    PoolStartMono(|r.hist|, n, k);
    forall pos: nat | PoolStart(n, k) <= pos < n
      ensures RingAt(k, DecodeReq(c, s, r, toks).tail, r.own, r.hist + toks[..keep], pos)
    {
      assert RingAt(k, DecodeReq(c, s, r, toks).tail, r.own, r.hist + toks, pos);
    }
  }

  /** The guard is exact: with pairwise different tokens a rollback past it leaves a ring slot wrong. */
  lemma RollbackExactly<V, C>(c: Config<V, C>, s: Store<V, C>, r: Req<V>, toks: seq<V>, keep: nat)
    requires c.kpool > 0 && Fits(c.kpool, s, r, |toks|) && LocsDistinct(c.kpool, r) && keep <= |toks|
    requires RingHolds(c.kpool, s.tail, r.own, r.hist, PoolStart(|r.hist|, c.kpool), |r.hist|)
    requires forall a, b | 0 <= a < b < |r.hist + toks| :: (r.hist + toks)[a] != (r.hist + toks)[b]
    ensures var hist := r.hist + toks[..keep];
            RingHolds(c.kpool, DecodeReq(c, s, r, toks).tail, r.own, hist, PoolStart(|hist|, c.kpool), |hist|)
            <==> KeepsPool(c.kpool, |hist|, |r.hist| + |toks|)
  {
    if KeepsPool(c.kpool, |r.hist| + keep, |r.hist| + |toks|) {
      DecodeRing(c, s, r, toks, keep);
    } else {
      RollbackBreaks(c, s, r, toks, keep);
    }
  }

  lemma RollbackBreaks<V, C>(c: Config<V, C>, s: Store<V, C>, r: Req<V>, toks: seq<V>, keep: nat)
    requires c.kpool > 0 && Fits(c.kpool, s, r, |toks|) && LocsDistinct(c.kpool, r) && keep <= |toks|
    requires RingHolds(c.kpool, s.tail, r.own, r.hist, PoolStart(|r.hist|, c.kpool), |r.hist|)
    requires forall a, b | 0 <= a < b < |r.hist + toks| :: (r.hist + toks)[a] != (r.hist + toks)[b]
    requires !KeepsPool(c.kpool, |r.hist| + keep, |r.hist| + |toks|)
    ensures var hist := r.hist + toks[..keep];
            0 <= PoolStart(|hist|, c.kpool) < |hist|
            && !RingAt(c.kpool, DecodeReq(c, s, r, toks).tail, r.own, hist, PoolStart(|hist|, c.kpool))
  {
    var k, row, n, end := c.kpool, VerifyRow(c.kpool, r, toks), |r.hist| + keep, |r.hist| + |toks|;
    DecodePrefix(c, s, r, toks, |toks|);
    assert row[..|toks|] == row;
    PoolStartMono(|r.hist|, n, k);
    Whole(n, k);
    var pos := PoolStart(n, k);
    hide PoolStart, TailSlot, DecodeReq, VerifyRow, RingHolds, Fits, LocsDistinct, DecodeRow;
    var x := OverwrittenBy(k, r.own, pos, end);
    RingEntry(k, DecodeReq(c, s, r, toks).tail, r.own, r.hist + toks, RingLow(k, |r.hist|, end), end, x);
    assert (r.hist + toks)[pos] == (r.hist + toks[..keep])[pos];
  }

  /** The newest position sharing pos's ring slot. */
  lemma OverwrittenBy(k: nat, own: nat, pos: nat, end: nat) returns (x: nat)
    requires k > 0 && pos + k < end
    ensures end - k <= x < end && x > pos && TailSlot(k, own, x) == TailSlot(k, own, pos)
  {
    var d := end - 1 - pos;
    Whole(d, k);
    x := end - 1 - d % k;
    Whole(pos, k);
    MulLe(1, d / k, k) by {
      if d / k <= 0 { MulLe(d / k, 0, k); }
    }
    assert x == (pos / k + d / k) * k + pos % k;
    Split(pos / k + d / k, pos % k, k);
  }

  /** What a caller can check before verifying m tokens after h: no acceptance rolls back behind the
      newest pool in the ring. */
  predicate SafeToVerify(kpool: nat, h: nat, m: nat)
    requires kpool > 0
  {
    kpool == 1 || h % kpool + m <= kpool || (h % kpool == kpool - 1 && m <= kpool + 1)
  }

  lemma StartOf(k: nat, q: int, e: int, n: nat)
    requires k > 0 && 0 <= e < k && n == q * k + e
    ensures PoolStart(n, k) == q * k && n % k == e
  {
    Split(q, e, k);
  }

  lemma SafeKeeps(k: nat, h: nat, m: nat, keep: nat)
    requires k > 0 && SafeToVerify(k, h, m) && 1 <= keep <= m
    ensures KeepsPool(k, h + keep, h + m)
  {
    hide PoolStart;
    var q, e := h / k, h % k;
    Whole(h, k);
    assert (q + 1) * k == q * k + k && (q + 2) * k == q * k + 2 * k;
    if k == 1 {
    } else if e + keep < k {
      StartOf(k, q, e + keep, h + keep);
    } else if e + keep < 2 * k {
      StartOf(k, q + 1, e + keep - k, h + keep);
    } else {
      StartOf(k, q + 2, 0, h + keep);
    }
  }

  /** The acceptance that breaks the ring, when the check fails. */
  lemma UnsafeBreaks(k: nat, h: nat, m: nat) returns (keep: nat)
    requires k > 0 && !SafeToVerify(k, h, m) && m > 0
    ensures 1 <= keep <= m && !KeepsPool(k, h + keep, h + m)
  {
    hide PoolStart;
    var q, e := h / k, h % k;
    Whole(h, k);
    assert (q + 1) * k == q * k + k;
    if e < k - 1 {
      keep := 1;
      StartOf(k, q, e + 1, h + 1);
    } else {
      keep := 2;
      StartOf(k, q + 1, 1, h + 2);
    }
  }

  /** Before the call: for pairwise different tokens, every possible acceptance leaves the ring right if
      and only if the check holds. */
  lemma VerifySafeExactly<V, C>(c: Config<V, C>, s: Store<V, C>, r: Req<V>, toks: seq<V>)
    requires c.kpool > 0 && Fits(c.kpool, s, r, |toks|) && LocsDistinct(c.kpool, r) && toks != []
    requires RingHolds(c.kpool, s.tail, r.own, r.hist, PoolStart(|r.hist|, c.kpool), |r.hist|)
    requires forall a, b | 0 <= a < b < |r.hist + toks| :: (r.hist + toks)[a] != (r.hist + toks)[b]
    ensures (forall keep | 1 <= keep <= |toks| :: RingAfter(c, s, r, toks, keep))
            <==> SafeToVerify(c.kpool, |r.hist|, |toks|)
  {
    hide RingHolds, Fits, LocsDistinct, DecodeReq, KeepsPool;
    if SafeToVerify(c.kpool, |r.hist|, |toks|) {
      forall keep | 1 <= keep <= |toks| ensures RingAfter(c, s, r, toks, keep) {
        SafeKeeps(c.kpool, |r.hist|, |toks|, keep);
        RollbackExactly(c, s, r, toks, keep);
      }
    } else {
      var keep := UnsafeBreaks(c.kpool, |r.hist|, |toks|);
      RollbackExactly(c, s, r, toks, keep);
      assert !RingAfter(c, s, r, toks, keep);
    }
  }

  /** The ring holds the incomplete pool of the history with the kept tokens. */
  ghost predicate RingAfter<V, C>(c: Config<V, C>, s: Store<V, C>, r: Req<V>, toks: seq<V>, keep: nat)
    requires c.kpool > 0 && Fits(c.kpool, s, r, |toks|) && keep <= |toks|
  {
    var hist := r.hist + toks[..keep];
    RingHolds(c.kpool, DecodeReq(c, s, r, toks).tail, r.own, hist, PoolStart(|hist|, c.kpool), |hist|)
  }

  /** A rejection near a pool boundary.  Pools of 4, two tokens of history, four verified, one kept: the
      rejected tokens 5 and 6 have taken the ring slots of 1 and 2, and the next token completes the pool
      from them. */
  lemma RollbackWitness<C>(c: Config<int, C>, entry: C)
    requires c.kpool == 4
    ensures var s, r := Store([entry], [1, 2, 0, 0]), Req([1, 2], 0, [0]);
            && Fits(4, s, r, 4) && LocsDistinct(4, r) && RingHolds(4, s.tail, 0, r.hist, PoolStart(2, 4), 2)
            && var t, kept := DecodeReq(c, s, r, [3, 4, 5, 6]), Req([1, 2, 3], 0, [0]);
               && !RingAfter(c, s, r, [3, 4, 5, 6], 1)
               && Fits(4, t, kept, 1) && DecodeReq(c, t, kept, [7]).cache == [c.compress([5, 6, 3, 7])]
  {
    hide RingHolds, DecodeReq, VerifyRow, DecodeRow;
    var s, r, kept := Store([entry], [1, 2, 0, 0]), Req([1, 2], 0, [0]), Req([1, 2, 3], 0, [0]);
    WitnessRing(4, 0);
    WitnessVerify(c, entry);
    var t := DecodeReq(c, s, r, [3, 4, 5, 6]);
    assert r.hist + [3, 4, 5, 6][..1] == kept.hist;
    WitnessCompletes(c, t);
  }

  /** Slots of the witness: block 0 of a ring of 4, one pool at cache slot 0. */
  lemma WitnessSlots(k: nat, own: nat, pos: nat)
    requires k == 4 && own == 0 && pos < 8
    ensures TailSlot(k, own, pos) == if pos < 4 then pos else pos - 4
    ensures PoolSlot(k, [0], pos) == if pos == 3 then 0 else -1
    ensures PoolStart(pos, k) == if pos < 4 then 0 else 4
  {
    if pos < 4 {
      Split(0, pos, k);
    } else {
      Split(1, pos - 4, k);
    }
  }

  lemma WitnessRing(k: nat, own: nat)
    requires k == 4 && own == 0
    ensures RingHolds(k, [1, 2, 0, 0], own, [1, 2], PoolStart(2, k), 2)
    ensures !RingHolds(k, [5, 6, 3, 4], own, [1, 2, 3], PoolStart(3, k), 3)
  {
    hide TailSlot, PoolStart, PoolSlot;
    forall pos: nat | pos < 4 ensures TailSlot(k, own, pos) == pos {
      WitnessSlots(k, own, pos);
    }
    WitnessSlots(k, own, 2);
    WitnessSlots(k, own, 3);
    assert !RingAt(k, [5, 6, 3, 4], own, [1, 2, 3], 0);
  }

  lemma WitnessVerify<C>(c: Config<int, C>, entry: C)
    requires c.kpool == 4
    ensures DecodeReq(c, Store([entry], [1, 2, 0, 0]), Req([1, 2], 0, [0]), [3, 4, 5, 6]).tail == [5, 6, 3, 4]
  {
    hide PoolRead;
    var s, r, toks := Store([entry], [1, 2, 0, 0]), Req([1, 2], 0, [0]), [3, 4, 5, 6];
    var row := VerifyRow(4, r, toks);
    RowFits(4, s, r, toks);
    WitnessRow(row[0], row[1], row[2], row[3], row);
    FourTokens(c, s, row);
    var a := DecodeToken(c, s, row[0]);
    var b := DecodeToken(c, a, row[1]);
    var d := DecodeToken(c, b, row[2]);
    assert a.tail == [1, 2, 3, 0];
    assert b.tail == [1, 2, 3, 4];
    assert d.tail == [5, 2, 3, 4];
  }

  lemma WitnessRow(a: Verify<int>, b: Verify<int>, d: Verify<int>, e: Verify<int>, row: seq<Verify<int>>)
    requires row == VerifyRow(4, Req([1, 2], 0, [0]), [3, 4, 5, 6])
    requires a == row[0] && b == row[1] && d == row[2] && e == row[3]
    ensures a.pos == 2 && a.tslot == 2 && a.value == 3
    ensures b.pos == 3 && b.tslot == 3 && b.value == 4
    ensures d.pos == 4 && d.tslot == 0 && d.value == 5
    ensures e.pos == 5 && e.tslot == 1 && e.value == 6
  {
    hide PoolSlot, TailSlot;
    WitnessSlots(4, 0, 2);
    WitnessSlots(4, 0, 3);
    WitnessSlots(4, 0, 4);
    WitnessSlots(4, 0, 5);
  }

  lemma WitnessCompletes<C>(c: Config<int, C>, t: Store<int, C>)
    requires c.kpool == 4 && t.tail == [5, 6, 3, 4] && |t.cache| == 1
    ensures Fits(4, t, Req([1, 2, 3], 0, [0]), 1)
    ensures DecodeReq(c, t, Req([1, 2, 3], 0, [0]), [7]).cache == [c.compress([5, 6, 3, 7])]
  {
    var row := VerifyRow(4, Req([1, 2, 3], 0, [0]), [7]);
    RowFits(4, t, Req([1, 2, 3], 0, [0]), [7]);
    WitnessSlots(4, 0, 3);
    assert row[0] == Verify(0, 3, 3, 7) by {
      hide PoolSlot, TailSlot;
    }
    assert PoolRead(4, t, row[0]) == [5, 6, 3, 7];
    OneToken(c, t, row);
  }

  lemma OneToken<V, C>(c: Config<V, C>, s: Store<V, C>, row: seq<Verify<V>>)
    requires c.kpool > 0 && |row| == 1 && RowInRange(c.kpool, s, row)
    ensures DecodeRow(c, s, row) == DecodeToken(c, s, row[0])
  {
    assert row[..0] == [];
  }

  lemma FourTokens<V, C>(c: Config<V, C>, s: Store<V, C>, row: seq<Verify<V>>)
    requires c.kpool > 0 && |row| == 4 && RowInRange(c.kpool, s, row)
    ensures DecodeRow(c, s, row)
         == DecodeToken(c, DecodeToken(c, DecodeToken(c, DecodeToken(c, s, row[0]), row[1]), row[2]), row[3])
  {
    OneToken(c, s, row[..1]);
    assert row[..2][..1] == row[..1] && row[..3][..2] == row[..2];
    assert DecodeRow(c, s, row[..2]) == DecodeToken(c, DecodeRow(c, s, row[..1]), row[1]);
    assert DecodeRow(c, s, row[..3]) == DecodeToken(c, DecodeRow(c, s, row[..2]), row[2]);
  }

  /** Every complete pool of the kept tokens is cached. */
  lemma DecodePools<V, C>(c: Config<V, C>, s: Store<V, C>, r: Req<V>, toks: seq<V>, keep: nat, p: nat)
    requires c.kpool > 0 && Fits(c.kpool, s, r, |toks|) && LocsDistinct(c.kpool, r) && keep <= |toks|
    requires RingHolds(c.kpool, s.tail, r.own, r.hist, PoolStart(|r.hist|, c.kpool), |r.hist|)
    requires |r.hist| / c.kpool <= p && (p + 1) * c.kpool <= |r.hist| + keep
    ensures PoolCached(c, DecodeReq(c, s, r, toks).cache, r.hist + toks[..keep], r.locs, p)
  {
    var row := VerifyRow(c.kpool, r, toks);
    DecodePrefix(c, s, r, toks, |toks|);
    assert row[..|toks|] == row;
    assert NewlyComplete(c.kpool, |r.hist|, |r.hist| + |toks|, p);
    assert PoolCached(c, DecodeReq(c, s, r, toks).cache, r.hist + toks, r.locs, p);
    MulLe(0, p, c.kpool);
    MulLe(p, p + 1, c.kpool);
    assert (r.hist + toks)[p * c.kpool..(p + 1) * c.kpool] == (r.hist + toks[..keep])[p * c.kpool..(p + 1) * c.kpool];
  }

  // ---- Frame --------------------------------------------------------------------------------------

  lemma {:induction false} DecodeKeeps<V, C>(c: Config<V, C>, s: Store<V, C>, r: Req<V>, toks: seq<V>, m: nat)
    requires c.kpool > 0 && Fits(c.kpool, s, r, |toks|) && m <= |toks|
    ensures RowInRange(c.kpool, s, VerifyRow(c.kpool, r, toks)[..m])
    ensures var u := DecodeRow(c, s, VerifyRow(c.kpool, r, toks)[..m]);
            && (forall x | 0 <= x < |s.cache| && OutsidePools(c.kpool, r, x) :: u.cache[x] == s.cache[x])
            && (forall x | 0 <= x < |s.tail| && x / c.kpool != r.own :: u.tail[x] == s.tail[x])
  {
    var k, row := c.kpool, VerifyRow(c.kpool, r, toks);
    RowFits(k, s, r, toks);
    if m > 0 {
      DecodeKeeps(c, s, r, toks, m - 1);
      assert row[..m][..m - 1] == row[..m - 1];
      SlotsFit(k, s, r, |toks|, m - 1);
      TailBlockOwn(k, r.own, |r.hist| + m - 1);
      DivMono(|r.hist|, |r.hist| + m - 1, k);
    }
  }

  /** x is no cache slot of a pool the request may still complete. */
  predicate OutsidePools<V>(kpool: nat, r: Req<V>, x: int)
    requires kpool > 0
  {
    forall p | |r.hist| / kpool <= p < |r.locs| :: r.locs[p] != x
  }

  /** Padding entries of a non-uniform batch do nothing. */
  lemma {:induction false} PaddingHarmless<V, C>(c: Config<V, C>, s: Store<V, C>, row: seq<Verify<V>>, pad: V, n: nat)
    requires c.kpool > 0 && RowInRange(c.kpool, s, row + seq(n, _ => Verify(-1, -1, -1, pad)))
    ensures RowInRange(c.kpool, s, row)
    ensures DecodeRow(c, s, row + seq(n, _ => Verify(-1, -1, -1, pad))) == DecodeRow(c, s, row)
  {
    var all := row + seq(n, _ => Verify(-1, -1, -1, pad));
    assert forall j | 0 <= j < |row| :: all[j] == row[j];
    if n == 0 {
      assert all == row;
    } else {
      assert all[..|all| - 1] == row + seq(n - 1, _ => Verify(-1, -1, -1, pad));
      assert forall j | 0 <= j < |all| - 1 :: all[..|all| - 1][j] == all[j];
      PaddingHarmless(c, s, row, pad, n - 1);
    }
  }
}
