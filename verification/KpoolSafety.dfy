/** Whole runs on shared buffers: admissions with cached prefixes, growing requests, prefill chunks,
    decode steps, departures, and slots that go from one request to another. */
module KpoolSafety {
  import opened Arith
  import opened Kpool
  import opened KpoolRuns
  import opened KpoolDecode

  /** The buffers, the live requests, and the prefix cache: slot to the tokens of the pool it stores. */
  datatype State<V, C> = State(store: Store<V, C>, reqs: map<nat, Req<V>>, kept: map<nat, seq<V>>)

  datatype Event<V> =
    | Admit(id: nat, req: Req<V>)
    | Extend(id: nat, locs: seq<nat>)           // the step's new blocks
    | Prefill(id: nat, toks: seq<V>)
    | Decode(id: nat, toks: seq<V>, keep: nat)  // verify toks, keep the first `keep`
    | Publish(id: nat, p: nat)                  // pool p becomes a cached prefix entry
    | Drop(id: nat)
    | Evict(x: nat)

  ghost predicate RingOk<V>(kpool: nat, tail: seq<V>, r: Req<V>)
    requires kpool > 0
  {
    RingHolds(kpool, tail, r.own, r.hist, PoolStart(|r.hist|, kpool), |r.hist|)
  }

  ghost predicate ReqOk<V, C>(c: Config<V, C>, s: Store<V, C>, r: Req<V>)
    requires c.kpool > 0
  {
    && Fits(c.kpool, s, r, 0) && LocsDistinct(c.kpool, r)
    && PoolsCached(c, s.cache, r.hist, r.locs)
    && RingOk(c.kpool, s.tail, r)
  }

  /** Different tail blocks, and neither can overwrite a cache slot of the other. */
  ghost predicate Apart<V>(kpool: nat, r: Req<V>, q: Req<V>)
    requires kpool > 0
  {
    r.own != q.own && (forall p | 0 <= p < |q.locs| :: OutsidePools(kpool, r, q.locs[p]))
  }

  /** A cached entry is right, and no live request may write it. */
  ghost predicate KeptOk<V, C>(c: Config<V, C>, st: State<V, C>, x: nat)
    requires c.kpool > 0 && x in st.kept
  {
    && x < |st.store.cache| && st.store.cache[x] == c.compress(st.kept[x])
    && forall id <- st.reqs :: OutsidePools(c.kpool, st.reqs[id], x)
  }

  ghost predicate Inv<V, C>(c: Config<V, C>, st: State<V, C>) {
    && c.kpool > 0
    && (forall id <- st.reqs :: ReqOk(c, st.store, st.reqs[id]))
    && (forall a, b | a in st.reqs && b in st.reqs && a != b :: Apart(c.kpool, st.reqs[a], st.reqs[b]))
    && (forall x <- st.kept :: KeptOk(c, st, x))
  }

  /** No live request and no cached entry has the slot. */
  ghost predicate Unused<V, C>(st: State<V, C>, x: nat) {
    && x < |st.store.cache| && x !in st.kept
    && forall id, p | id in st.reqs && 0 <= p < |st.reqs[id].locs| :: st.reqs[id].locs[p] != x
  }

  predicate Complete<V, C>(c: Config<V, C>, r: Req<V>, p: nat) {
    p < |r.locs| && 0 <= p * c.kpool <= (p + 1) * c.kpool <= |r.hist|
  }

  /** Pool p of the admitted request is cached. */
  ghost predicate Hit<V, C>(c: Config<V, C>, st: State<V, C>, r: Req<V>, p: nat) {
    && Complete(c, r, p)
    && r.locs[p] in st.kept && st.kept[r.locs[p]] == r.hist[p * c.kpool..(p + 1) * c.kpool]
  }

  /** The new slots are unused and different. */
  ghost predicate CanGrow<V, C>(st: State<V, C>, id: nat, locs: seq<nat>) {
    && id in st.reqs && (forall k | 0 <= k < |locs| :: Unused(st, locs[k]))
    && forall k, l | 0 <= k < l < |locs| :: locs[k] != locs[l]
  }

  /** What the scheduler guarantees: cached slots for the admitted tokens, unused slots and tail blocks
      otherwise, pool-aligned prefill chunks with slots for their pools, and no rollback behind a pool
      that was already crossed. */
  ghost predicate Enabled<V, C>(c: Config<V, C>, st: State<V, C>, e: Event<V>)
    requires c.kpool > 0
  {
    match e
    case Admit(id, r) =>
      && id !in st.reqs && |r.hist| % c.kpool == 0
      && Fits(c.kpool, st.store, r, 0) && LocsDistinct(c.kpool, r)
      && (forall p: nat | (p + 1) * c.kpool <= |r.hist| :: Hit(c, st, r, p))
      && (forall p | |r.hist| / c.kpool <= p < |r.locs| :: Unused(st, r.locs[p]))
      && forall b <- st.reqs :: r.own != st.reqs[b].own
    case Extend(id, locs) => CanGrow(st, id, locs)
    case Prefill(id, toks) =>
      id in st.reqs && Fits(c.kpool, st.store, st.reqs[id], |toks|) && |st.reqs[id].hist| % c.kpool == 0
    case Decode(id, toks, keep) =>
      && id in st.reqs && Fits(c.kpool, st.store, st.reqs[id], |toks|) && keep <= |toks|
      && KeepsPool(c.kpool, |st.reqs[id].hist| + keep, |st.reqs[id].hist| + |toks|)
    case Publish(id, p) => id in st.reqs && Complete(c, st.reqs[id], p)
    case Drop(id) => id in st.reqs
    case Evict(x) => true
  }

  function Extended<V>(r: Req<V>, toks: seq<V>): Req<V> {
    r.(hist := r.hist + toks)
  }

  function Grown<V>(r: Req<V>, locs: seq<nat>): Req<V> {
    r.(locs := r.locs + locs)
  }

  ghost function Apply<V, C>(c: Config<V, C>, st: State<V, C>, e: Event<V>): State<V, C>
    requires c.kpool > 0 && Enabled(c, st, e)
  {
    match e
    case Admit(id, r) => st.(reqs := st.reqs[id := r])
    case Extend(id, locs) => st.(reqs := st.reqs[id := Grown(st.reqs[id], locs)])
    case Prefill(id, toks) =>
      st.(store := PrefillStore(c, st.store, st.reqs[id], toks), reqs := st.reqs[id := Extended(st.reqs[id], toks)])
    case Decode(id, toks, keep) =>
      st.(store := DecodeReq(c, st.store, st.reqs[id], toks),
          reqs := st.reqs[id := Extended(st.reqs[id], toks[..keep])])
    case Publish(id, p) =>
      st.(kept := st.kept[st.reqs[id].locs[p] := st.reqs[id].hist[p * c.kpool..(p + 1) * c.kpool]])
    case Drop(id) => st.(reqs := st.reqs - {id})
    case Evict(x) => st.(kept := st.kept - {x})
  }

  lemma CachedPool<V, C>(c: Config<V, C>, st: State<V, C>, id: nat, p: nat)
    requires Inv(c, st) && id in st.reqs && Complete(c, st.reqs[id], p)
    ensures PoolCached(c, st.store.cache, st.reqs[id].hist, st.reqs[id].locs, p)
    ensures p < |st.reqs[id].hist| / c.kpool
  {
    assert ReqOk(c, st.store, st.reqs[id]);
    CompleteIsOlder(|st.reqs[id].hist|, c.kpool, p);
  }

  // ---- One event ----------------------------------------------------------------------------

  /** Slots of complete pools are no longer writable, so another request's writes miss them too. */
  lemma OldPoolKept<V, C>(c: Config<V, C>, cache: seq<C>, new_: seq<C>, hist: seq<V>, more: seq<V>, locs: seq<nat>,
                          p: nat)
    requires c.kpool > 0 && (p + 1) * c.kpool <= |hist| && PoolCached(c, cache, hist, locs, p)
    requires |new_| == |cache| && new_[locs[p]] == cache[locs[p]]
    ensures PoolCached(c, new_, hist + more, locs, p)
  {
    MulLe(0, p, c.kpool);
    MulLe(p, p + 1, c.kpool);
    assert (hist + more)[p * c.kpool..(p + 1) * c.kpool] == hist[p * c.kpool..(p + 1) * c.kpool];
  }

  /** A request whose slots and tail block were not written keeps its invariant. */
  lemma OtherKept<V, C>(c: Config<V, C>, s: Store<V, C>, t: Store<V, C>, writer: Req<V>, r: Req<V>)
    requires c.kpool > 0 && ReqOk(c, s, r) && Apart(c.kpool, writer, r)
    requires |t.cache| == |s.cache| && |t.tail| == |s.tail|
    requires forall x | 0 <= x < |s.cache| && OutsidePools(c.kpool, writer, x) :: t.cache[x] == s.cache[x]
    requires forall x | 0 <= x < |s.tail| && x / c.kpool != writer.own :: t.tail[x] == s.tail[x]
    ensures ReqOk(c, t, r)
  {
    forall p: nat | (p + 1) * c.kpool <= |r.hist| ensures PoolCached(c, t.cache, r.hist, r.locs, p) {
      assert PoolCached(c, s.cache, r.hist, r.locs, p);
    }
    forall pos: nat | PoolStart(|r.hist|, c.kpool) <= pos < |r.hist|
      ensures RingAt(c.kpool, t.tail, r.own, r.hist, pos)
    {
      assert RingAt(c.kpool, s.tail, r.own, r.hist, pos);
      Whole(pos, c.kpool);
      Split(r.own, pos % c.kpool, c.kpool);
    }
  }

  lemma OwnShape<V, C>(c: Config<V, C>, s: Store<V, C>, t: Store<V, C>, r: Req<V>, toks: seq<V>, m: nat)
    requires c.kpool > 0 && Fits(c.kpool, s, r, m) && LocsDistinct(c.kpool, r) && |toks| <= m
    requires |t.cache| == |s.cache| && |t.tail| == |s.tail|
    ensures Fits(c.kpool, t, Extended(r, toks), 0) && LocsDistinct(c.kpool, Extended(r, toks))
  {
    DivMono(|r.hist| + |toks|, |r.hist| + m, c.kpool);
    DivMono(|r.hist|, |r.hist| + |toks|, c.kpool);
  }

  lemma ApartGrows<V>(kpool: nat, r: Req<V>, q: Req<V>, toks: seq<V>)
    requires kpool > 0
    ensures Apart(kpool, r, q) ==> Apart(kpool, Extended(r, toks), q)
    ensures Apart(kpool, q, r) ==> Apart(kpool, q, Extended(r, toks))
  {
    DivMono(|r.hist|, |r.hist| + |toks|, kpool);
  }

  lemma PrefillOwn<V, C>(c: Config<V, C>, s: Store<V, C>, r: Req<V>, toks: seq<V>)
    requires c.kpool > 0 && ReqOk(c, s, r) && Fits(c.kpool, s, r, |toks|) && |r.hist| % c.kpool == 0
    ensures ReqOk(c, PrefillStore(c, s, r, toks), Extended(r, toks))
  {
    var t, new_ := PrefillStore(c, s, r, toks), Extended(r, toks);
    OwnShape(c, s, t, r, toks, |toks|);
    hide PrefillStore, PoolCached, LocsDistinct;
    forall p: nat | (p + 1) * c.kpool <= |new_.hist| ensures PoolCached(c, t.cache, new_.hist, r.locs, p) {
      if |r.hist| / c.kpool <= p {
        PrefillNewPool(c, s, r, toks, p);
      } else {
        PrefillOldPool(c, s, r, toks, p);
      }
    }
    forall pos: nat | PoolStart(|new_.hist|, c.kpool) <= pos < |new_.hist|
      ensures RingAt(c.kpool, t.tail, r.own, new_.hist, pos)
    {
      PrefillRing(c, s, r, toks, pos);
    }
  }

  lemma OlderIsComplete(n: nat, k: nat, p: nat)
    requires k > 0 && p < n / k
    ensures (p + 1) * k <= n
  {
    Whole(n, k);
    MulLe(p + 1, n / k, k);
  }

  lemma PrefillOldPool<V, C>(c: Config<V, C>, s: Store<V, C>, r: Req<V>, toks: seq<V>, p: nat)
    requires c.kpool > 0 && ReqOk(c, s, r) && Fits(c.kpool, s, r, |toks|) && p < |r.hist| / c.kpool
    requires (p + 1) * c.kpool <= |r.hist + toks|
    ensures PoolCached(c, PrefillStore(c, s, r, toks).cache, r.hist + toks, r.locs, p)
  {
    OlderIsComplete(|r.hist|, c.kpool, p);
    assert PoolCached(c, s.cache, r.hist, r.locs, p);
    PrefillKeepsSlot(c, s, r, toks, r.locs[p]);
    OldPoolKept(c, s.cache, PrefillStore(c, s, r, toks).cache, r.hist, toks, r.locs, p);
  }

  lemma DecodeOwn<V, C>(c: Config<V, C>, s: Store<V, C>, r: Req<V>, toks: seq<V>, keep: nat)
    requires c.kpool > 0 && ReqOk(c, s, r) && Fits(c.kpool, s, r, |toks|) && keep <= |toks|
    requires KeepsPool(c.kpool, |r.hist| + keep, |r.hist| + |toks|)
    ensures ReqOk(c, DecodeReq(c, s, r, toks), Extended(r, toks[..keep]))
  {
    var t, new_ := DecodeReq(c, s, r, toks), Extended(r, toks[..keep]);
    OwnShape(c, s, t, r, toks[..keep], |toks|);
    DecodeRing(c, s, r, toks, keep);
    hide DecodeReq, PoolCached, LocsDistinct, RingHolds;
    forall p: nat | (p + 1) * c.kpool <= |new_.hist| ensures PoolCached(c, t.cache, new_.hist, r.locs, p) {
      if |r.hist| / c.kpool <= p {
        DecodePools(c, s, r, toks, keep, p);
      } else {
        DecodeOldPool(c, s, r, toks, keep, p);
      }
    }
  }

  lemma DecodeOldPool<V, C>(c: Config<V, C>, s: Store<V, C>, r: Req<V>, toks: seq<V>, keep: nat, p: nat)
    requires c.kpool > 0 && ReqOk(c, s, r) && Fits(c.kpool, s, r, |toks|) && keep <= |toks| && p < |r.hist| / c.kpool
    requires (p + 1) * c.kpool <= |r.hist + toks[..keep]|
    ensures PoolCached(c, DecodeReq(c, s, r, toks).cache, r.hist + toks[..keep], r.locs, p)
  {
    OlderIsComplete(|r.hist|, c.kpool, p);
    assert PoolCached(c, s.cache, r.hist, r.locs, p);
    DecodeKeeps(c, s, r, toks, |toks|);
    assert VerifyRow(c.kpool, r, toks)[..|toks|] == VerifyRow(c.kpool, r, toks);
    OldPoolKept(c, s.cache, DecodeReq(c, s, r, toks).cache, r.hist, toks[..keep], r.locs, p);
  }

  /** What request r's event leaves alone. */
  lemma PrefillFrame<V, C>(c: Config<V, C>, s: Store<V, C>, r: Req<V>, toks: seq<V>)
    requires c.kpool > 0 && Fits(c.kpool, s, r, |toks|)
    ensures var t := PrefillStore(c, s, r, toks);
            && (forall x | 0 <= x < |s.cache| && OutsidePools(c.kpool, r, x) :: t.cache[x] == s.cache[x])
            && (forall x | 0 <= x < |s.tail| && x / c.kpool != r.own :: t.tail[x] == s.tail[x])
  {
    var t := PrefillStore(c, s, r, toks);
    forall x | 0 <= x < |s.cache| && OutsidePools(c.kpool, r, x) ensures t.cache[x] == s.cache[x] {
      PrefillKeepsSlot(c, s, r, toks, x);
    }
    forall x | 0 <= x < |s.tail| && x / c.kpool != r.own ensures t.tail[x] == s.tail[x] {
      PrefillKeepsTail(c, s, r, toks, x);
    }
  }

  /** One request moved on, everyone else's view is intact. */
  lemma ReqStep<V, C>(c: Config<V, C>, st: State<V, C>, id: nat, t: Store<V, C>, toks: seq<V>)
    requires Inv(c, st) && id in st.reqs && ReqOk(c, t, Extended(st.reqs[id], toks))
    requires |t.cache| == |st.store.cache| && |t.tail| == |st.store.tail|
    requires forall x | 0 <= x < |t.cache| && OutsidePools(c.kpool, st.reqs[id], x) :: t.cache[x] == st.store.cache[x]
    requires forall x | 0 <= x < |t.tail| && x / c.kpool != st.reqs[id].own :: t.tail[x] == st.store.tail[x]
    ensures Inv(c, st.(store := t, reqs := st.reqs[id := Extended(st.reqs[id], toks)]))
  {
    var n := st.(store := t, reqs := st.reqs[id := Extended(st.reqs[id], toks)]);
    forall x <- n.kept ensures KeptOk(c, n, x) {
      assert KeptOk(c, st, x);
      DivMono(|st.reqs[id].hist|, |st.reqs[id].hist + toks|, c.kpool);
    }
    forall k <- n.reqs ensures ReqOk(c, t, n.reqs[k]) {
      if k != id { OtherKept(c, st.store, t, st.reqs[id], st.reqs[k]); }
    }
    forall a, b | a in n.reqs && b in n.reqs && a != b ensures Apart(c.kpool, n.reqs[a], n.reqs[b]) {
      assert Apart(c.kpool, st.reqs[a], st.reqs[b]);
      if a == id { ApartGrows(c.kpool, st.reqs[id], st.reqs[b], toks); }
      if b == id { ApartGrows(c.kpool, st.reqs[id], st.reqs[a], toks); }
    }
  }

  /** An admitted request finds its cached pools. */
  lemma AdmitOwn<V, C>(c: Config<V, C>, st: State<V, C>, id: nat, r: Req<V>)
    requires Inv(c, st) && Enabled(c, st, Event.Admit(id, r))
    ensures ReqOk(c, st.store, r)
  {
    hide ReqOk, Apart, Fits, LocsDistinct;
    forall p: nat | (p + 1) * c.kpool <= |r.hist| ensures PoolCached(c, st.store.cache, r.hist, r.locs, p) {
      assert Hit(c, st, r, p) && KeptOk(c, st, r.locs[p]);
    }
    AdmitShape(c, st.store, r);
  }

  lemma AdmitShape<V, C>(c: Config<V, C>, s: Store<V, C>, r: Req<V>)
    requires c.kpool > 0 && |r.hist| % c.kpool == 0 && Fits(c.kpool, s, r, 0) && LocsDistinct(c.kpool, r)
    requires PoolsCached(c, s.cache, r.hist, r.locs)
    ensures ReqOk(c, s, r)
  {
    hide Fits, LocsDistinct, PoolsCached;
    Whole(|r.hist|, c.kpool);
  }

  /** It shares no slot that anyone may write. */
  lemma AdmitApart<V, C>(c: Config<V, C>, st: State<V, C>, id: nat, r: Req<V>, b: nat)
    requires Inv(c, st) && Enabled(c, st, Event.Admit(id, r)) && b in st.reqs
    ensures Apart(c.kpool, r, st.reqs[b]) && Apart(c.kpool, st.reqs[b], r)
  {
    hide ReqOk, Fits, LocsDistinct, PoolsCached;
    forall p: nat | p < |r.locs| ensures OutsidePools(c.kpool, st.reqs[b], r.locs[p]) {
      AdmitSlot(c, st, id, r, b, p);
    }
  }

  lemma AdmitSlot<V, C>(c: Config<V, C>, st: State<V, C>, id: nat, r: Req<V>, b: nat, p: nat)
    requires Inv(c, st) && Enabled(c, st, Event.Admit(id, r)) && b in st.reqs && p < |r.locs|
    ensures OutsidePools(c.kpool, st.reqs[b], r.locs[p])
  {
    hide ReqOk, Fits, LocsDistinct, PoolsCached, Apart, Enabled;
    if p < |r.hist| / c.kpool {
      AdmitHit(c, st, id, r, p);
      assert KeptOk(c, st, r.locs[p]);
    } else {
      AdmitNew(c, st, id, r, p);
    }
  }

  lemma AdmitHit<V, C>(c: Config<V, C>, st: State<V, C>, id: nat, r: Req<V>, p: nat)
    requires c.kpool > 0 && Enabled(c, st, Event.Admit(id, r)) && p < |r.hist| / c.kpool
    ensures Hit(c, st, r, p)
  {
    hide Fits, LocsDistinct, Unused;
    OlderIsComplete(|r.hist|, c.kpool, p);
  }

  lemma AdmitNew<V, C>(c: Config<V, C>, st: State<V, C>, id: nat, r: Req<V>, p: nat)
    requires c.kpool > 0 && Enabled(c, st, Event.Admit(id, r)) && |r.hist| / c.kpool <= p < |r.locs|
    ensures Unused(st, r.locs[p])
  {
    hide Fits, LocsDistinct, Hit;
  }

  lemma AdmitKeeps<V, C>(c: Config<V, C>, st: State<V, C>, id: nat, r: Req<V>)
    requires Inv(c, st) && Enabled(c, st, Event.Admit(id, r))
    ensures Inv(c, st.(reqs := st.reqs[id := r]))
  {
    hide ReqOk, Apart, Fits, LocsDistinct, PoolsCached, Unused, Hit;
    var n := st.(reqs := st.reqs[id := r]);
    AdmitOwn(c, st, id, r);
    forall b <- st.reqs ensures Apart(c.kpool, r, st.reqs[b]) && Apart(c.kpool, st.reqs[b], r) {
      AdmitApart(c, st, id, r, b);
    }
    forall x <- n.kept ensures KeptOk(c, n, x) {
      assert KeptOk(c, st, x);
      AdmitOutside(c, st, id, r, x);
    }
  }

  lemma AdmitOutside<V, C>(c: Config<V, C>, st: State<V, C>, id: nat, r: Req<V>, x: nat)
    requires c.kpool > 0 && Enabled(c, st, Event.Admit(id, r)) && x in st.kept
    ensures OutsidePools(c.kpool, r, x)
  {
    hide Fits, LocsDistinct, Hit;
    forall p: nat | |r.hist| / c.kpool <= p < |r.locs| ensures r.locs[p] != x {
      assert Unused(st, r.locs[p]);
    }
  }

  /** A slot in use is as far outside the grown request as outside the request. */
  lemma GrownOutside<V, C>(c: Config<V, C>, st: State<V, C>, id: nat, locs: seq<nat>, x: nat)
    requires c.kpool > 0 && CanGrow(st, id, locs) && OutsidePools(c.kpool, st.reqs[id], x) && !Unused(st, x)
    ensures OutsidePools(c.kpool, Grown(st.reqs[id], locs), x)
  {
    var r, g := st.reqs[id], Grown(st.reqs[id], locs);
    forall p: nat | |r.hist| / c.kpool <= p < |g.locs| ensures g.locs[p] != x {
      if p >= |r.locs| {
        assert Unused(st, locs[p - |r.locs|]);
      }
    }
  }

  lemma GrownDistinct<V, C>(c: Config<V, C>, st: State<V, C>, id: nat, locs: seq<nat>)
    requires c.kpool > 0 && CanGrow(st, id, locs) && LocsDistinct(c.kpool, st.reqs[id])
    ensures LocsDistinct(c.kpool, Grown(st.reqs[id], locs))
  {
    var r, g := st.reqs[id], Grown(st.reqs[id], locs);
    forall p: nat, q: nat | |r.hist| / c.kpool <= p < |g.locs| && q < |g.locs| && p != q
      ensures g.locs[p] != g.locs[q]
    {
      if p >= |r.locs| {
        assert Unused(st, locs[p - |r.locs|]);
      }
      if q >= |r.locs| {
        assert Unused(st, locs[q - |r.locs|]);
      }
    }
  }

  lemma GrownOwn<V, C>(c: Config<V, C>, st: State<V, C>, id: nat, locs: seq<nat>)
    requires Inv(c, st) && CanGrow(st, id, locs)
    ensures ReqOk(c, st.store, Grown(st.reqs[id], locs))
  {
    hide LocsDistinct, Apart, KeptOk;
    var r, g := st.reqs[id], Grown(st.reqs[id], locs);
    assert ReqOk(c, st.store, r);
    GrownDistinct(c, st, id, locs);
    GrownFits(c, st, id, locs);
    hide Fits, Unused, CanGrow;
    forall p: nat | (p + 1) * c.kpool <= |g.hist| ensures PoolCached(c, st.store.cache, g.hist, g.locs, p) {
      assert PoolCached(c, st.store.cache, r.hist, r.locs, p);
    }
    assert RingOk(c.kpool, st.store.tail, g) by {
      hide PoolCached, PoolsCached;
    }
  }

  lemma GrownFits<V, C>(c: Config<V, C>, st: State<V, C>, id: nat, locs: seq<nat>)
    requires c.kpool > 0 && CanGrow(st, id, locs) && Fits(c.kpool, st.store, st.reqs[id], 0)
    ensures Fits(c.kpool, st.store, Grown(st.reqs[id], locs), 0)
  {
    var r, g := st.reqs[id], Grown(st.reqs[id], locs);
    forall p: nat | p < |g.locs| ensures g.locs[p] < |st.store.cache| {
      if p >= |r.locs| {
        assert Unused(st, locs[p - |r.locs|]);
      }
    }
  }

  lemma GrownApart<V, C>(c: Config<V, C>, st: State<V, C>, id: nat, locs: seq<nat>, b: nat)
    requires c.kpool > 0 && CanGrow(st, id, locs) && b in st.reqs && b != id
    requires Apart(c.kpool, st.reqs[id], st.reqs[b]) && Apart(c.kpool, st.reqs[b], st.reqs[id])
    ensures Apart(c.kpool, Grown(st.reqs[id], locs), st.reqs[b]) && Apart(c.kpool, st.reqs[b], Grown(st.reqs[id], locs))
  {
    var r, g, q := st.reqs[id], Grown(st.reqs[id], locs), st.reqs[b];
    forall p: nat | p < |g.locs| ensures OutsidePools(c.kpool, q, g.locs[p]) {
      if p >= |r.locs| {
        assert Unused(st, locs[p - |r.locs|]);
      }
    }
    forall p: nat | p < |q.locs| ensures OutsidePools(c.kpool, g, q.locs[p]) {
      assert !Unused(st, q.locs[p]);
      GrownOutside(c, st, id, locs, q.locs[p]);
    }
  }

  /** A request grows by unused slots, which may have been another's before. */
  lemma ExtendKeeps<V, C>(c: Config<V, C>, st: State<V, C>, id: nat, locs: seq<nat>)
    requires Inv(c, st) && CanGrow(st, id, locs)
    ensures Inv(c, st.(reqs := st.reqs[id := Grown(st.reqs[id], locs)]))
  {
    hide ReqOk, Apart, CanGrow, OutsidePools;
    GrowsLive(st, id, locs);
    var n := st.(reqs := st.reqs[id := Grown(st.reqs[id], locs)]);
    GrownOwn(c, st, id, locs);
    forall b | b in st.reqs && b != id
      ensures Apart(c.kpool, n.reqs[id], st.reqs[b]) && Apart(c.kpool, st.reqs[b], n.reqs[id])
    {
      GrownApart(c, st, id, locs, b);
    }
    forall x <- n.kept ensures KeptOk(c, n, x) {
      assert KeptOk(c, st, x);
      GrownOutside(c, st, id, locs, x);
    }
  }

  lemma GrowsLive<V, C>(st: State<V, C>, id: nat, locs: seq<nat>)
    requires CanGrow(st, id, locs)
    ensures id in st.reqs
  {}

  /** A complete pool is never written again, so it can be cached for others. */
  lemma PublishKeeps<V, C>(c: Config<V, C>, st: State<V, C>, id: nat, p: nat)
    requires Inv(c, st) && Enabled(c, st, Publish(id, p))
    ensures Inv(c, Apply(c, st, Publish(id, p)))
  {
    hide RingOk, ReqOk;
    CachedPool(c, st, id, p);
    var r, n := st.reqs[id], Apply(c, st, Publish(id, p));
    var x := r.locs[p];
    forall b <- st.reqs ensures OutsidePools(c.kpool, st.reqs[b], x) {
      if b == id {
        OwnOutside(c, st, id, p);
      } else {
        assert Apart(c.kpool, st.reqs[b], r);
      }
    }
    forall y <- n.kept ensures KeptOk(c, n, y) {
      if y != x {
        assert KeptOk(c, st, y);
      }
    }
  }

  lemma OwnOutside<V, C>(c: Config<V, C>, st: State<V, C>, id: nat, p: nat)
    requires Inv(c, st) && id in st.reqs && p < |st.reqs[id].hist| / c.kpool && p < |st.reqs[id].locs|
    ensures OutsidePools(c.kpool, st.reqs[id], st.reqs[id].locs[p])
  {
    assert ReqOk(c, st.store, st.reqs[id]);
  }

  /** Slots of a departed request, and evicted ones, are free for whoever comes or grows next. */
  lemma DropKeeps<V, C>(c: Config<V, C>, st: State<V, C>, id: nat)
    requires Inv(c, st)
    ensures Inv(c, st.(reqs := st.reqs - {id}))
  {
    hide ReqOk, Apart;
    var n := st.(reqs := st.reqs - {id});
    forall x <- n.kept ensures KeptOk(c, n, x) {
      assert KeptOk(c, st, x);
    }
  }

  lemma EvictKeeps<V, C>(c: Config<V, C>, st: State<V, C>, x: nat)
    requires Inv(c, st)
    ensures Inv(c, st.(kept := st.kept - {x}))
  {
    hide ReqOk, Apart;
    var n := st.(kept := st.kept - {x});
    forall y <- n.kept ensures KeptOk(c, n, y) {
      assert KeptOk(c, st, y);
    }
  }

  lemma EventKeeps<V, C>(c: Config<V, C>, st: State<V, C>, e: Event<V>)
    requires Inv(c, st) && Enabled(c, st, e)
    ensures Inv(c, Apply(c, st, e))
  {
    hide ReqOk, Apart, KeptOk, PrefillStore, DecodeReq;
    match e
    case Admit(id, r) => AdmitKeeps(c, st, id, r);
    case Extend(id, locs) => ExtendKeeps(c, st, id, locs);
    case Prefill(id, toks) =>
      PrefillKeeps(c, st, id, toks);
    case Decode(id, toks, keep) =>
      DecodeKeepsAll(c, st, id, toks, keep);
    case Publish(id, p) => PublishKeeps(c, st, id, p);
    case Drop(id) => DropKeeps(c, st, id);
    case Evict(x) => EvictKeeps(c, st, x);
  }

  lemma PrefillKeeps<V, C>(c: Config<V, C>, st: State<V, C>, id: nat, toks: seq<V>)
    requires Inv(c, st) && Enabled(c, st, Prefill(id, toks))
    ensures Inv(c, Apply(c, st, Prefill(id, toks)))
  {
    assert ReqOk(c, st.store, st.reqs[id]);
    PrefillOwn(c, st.store, st.reqs[id], toks);
    PrefillFrame(c, st.store, st.reqs[id], toks);
    ReqStep(c, st, id, PrefillStore(c, st.store, st.reqs[id], toks), toks);
  }

  lemma DecodeKeepsAll<V, C>(c: Config<V, C>, st: State<V, C>, id: nat, toks: seq<V>, keep: nat)
    requires Inv(c, st) && Enabled(c, st, Decode(id, toks, keep))
    ensures Inv(c, Apply(c, st, Decode(id, toks, keep)))
  {
    assert ReqOk(c, st.store, st.reqs[id]);
    DecodeOwn(c, st.store, st.reqs[id], toks, keep);
    DecodeKeeps(c, st.store, st.reqs[id], toks, |toks|);
    assert VerifyRow(c.kpool, st.reqs[id], toks)[..|toks|] == VerifyRow(c.kpool, st.reqs[id], toks);
    ReqStep(c, st, id, DecodeReq(c, st.store, st.reqs[id], toks), toks[..keep]);
  }

  ghost predicate IsRun<V, C>(c: Config<V, C>, sts: seq<State<V, C>>, es: seq<Event<V>>)
    requires c.kpool > 0
  {
    Continues(c, sts, es) && sts[0].reqs == map[] && sts[0].kept == map[]
  }

  /** A stretch of a run, from any state. */
  ghost predicate Continues<V, C>(c: Config<V, C>, sts: seq<State<V, C>>, es: seq<Event<V>>)
    requires c.kpool > 0
  {
    |sts| == |es| + 1 && forall t | 0 <= t < |es| :: Follows(c, sts[t], es[t], sts[t + 1])
  }

  ghost predicate Follows<V, C>(c: Config<V, C>, s: State<V, C>, e: Event<V>, n: State<V, C>)
    requires c.kpool > 0
  {
    Enabled(c, s, e) && n == Apply(c, s, e)
  }

  /** Any mix of admissions, growth, prefill chunks, decode steps, rollbacks and departures, with slots
      passing between requests, keeps every request's pools and ring and every cached pool right. */
  lemma {:induction false} PoolsAlwaysRight<V, C>(c: Config<V, C>, sts: seq<State<V, C>>, es: seq<Event<V>>, t: nat)
    requires c.kpool > 0 && IsRun(c, sts, es) && t <= |es|
    ensures Inv(c, sts[t])
  {
    if t > 0 {
      PoolsAlwaysRight(c, sts, es, t - 1);
      assert Follows(c, sts[t - 1], es[t - 1], sts[t]);
      EventKeeps(c, sts[t - 1], es[t - 1]);
    }
  }
}
