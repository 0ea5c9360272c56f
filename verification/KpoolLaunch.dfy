/** Whole launches of the kpool kernels over live requests: whatever the order of their programs, they are
    the requests' own Prefill or Decode events, so they keep every pool and ring right. */
module KpoolLaunch {
  import opened Arith
  import opened Kpool
  import opened KpoolRuns
  import opened KpoolDecode
  import opened KpoolSafety
  import opened KpoolBatch
  import opened KpoolGrid

  // ---- Programs that write one place each --------------------------------------------------------

  /** What one program of a prefill kernel writes. */
  datatype Write<T> = Nothing | Write(at: nat, value: T)

  predicate WritesInRange<T>(size: nat, ws: seq<Write<T>>) {
    forall i | 0 <= i < |ws| && ws[i].Write? :: ws[i].at < size
  }

  /** No two programs write the same place. */
  ghost predicate PlacesDiffer<T>(ws: seq<Write<T>>) {
    forall i, j | 0 <= i < j < |ws| && ws[i].Write? && ws[j].Write? :: ws[i].at != ws[j].at
  }

  function PutAll<T>(buf: seq<T>, ws: seq<Write<T>>): (r: seq<T>)
    requires WritesInRange(|buf|, ws)
    ensures |r| == |buf|
    decreases |ws|
  {
    if ws == [] then buf
    else
      var before := PutAll(buf, ws[..|ws| - 1]);
      match ws[|ws| - 1]
      case Nothing => before
      case Write(at, value) => before[at := value]
  }

  lemma {:induction false} PutMiss<T>(buf: seq<T>, ws: seq<Write<T>>, x: nat)
    requires WritesInRange(|buf|, ws) && x < |buf| && forall i | 0 <= i < |ws| && ws[i].Write? :: ws[i].at != x
    ensures PutAll(buf, ws)[x] == buf[x]
    decreases |ws|
  {
    if ws != [] {
      PutMiss(buf, ws[..|ws| - 1], x);
    }
  }

  lemma {:induction false} PutHit<T>(buf: seq<T>, ws: seq<Write<T>>, i: nat)
    requires WritesInRange(|buf|, ws) && PlacesDiffer(ws) && i < |ws| && ws[i].Write?
    ensures PutAll(buf, ws)[ws[i].at] == ws[i].value
    decreases |ws|
  {
    if i < |ws| - 1 {
      PutHit(buf, ws[..|ws| - 1], i);
    }
  }

  /** Programs that write different places may run in any order. */
  lemma PutAnyOrder<T>(buf: seq<T>, ws: seq<Write<T>>, order: seq<nat>)
    requires WritesInRange(|buf|, ws) && PlacesDiffer(ws) && Enumerates(order, |ws|)
    ensures InRange(order, |ws|) && WritesInRange(|buf|, Picked(ws, order))
    ensures PutAll(buf, Picked(ws, order)) == PutAll(buf, ws)
  {
    hide PutAll;
    EnumerationInRange(order, |ws|);
    var picked := Picked(ws, order);
    forall x: nat | x < |buf|
      ensures PutAll(buf, picked)[x] == PutAll(buf, ws)[x]
    {
      PutSame(buf, ws, order, x);
    }
  }

  lemma PutSame<T>(buf: seq<T>, ws: seq<Write<T>>, order: seq<nat>, x: nat)
    requires WritesInRange(|buf|, ws) && PlacesDiffer(ws) && Enumerates(order, |ws|) && InRange(order, |ws|)
    requires WritesInRange(|buf|, Picked(ws, order)) && x < |buf|
    ensures PutAll(buf, Picked(ws, order))[x] == PutAll(buf, ws)[x]
  {
    hide PutAll;
    var picked := Picked(ws, order);
    if i: nat :| i < |ws| && ws[i].Write? && ws[i].at == x {
      assert i in order;
      var k :| 0 <= k < |order| && order[k] == i;
      assert PlacesDiffer(picked);
      PutHit(buf, ws, i);
      PutHit(buf, picked, k);
    } else {
      PutMiss(buf, ws, x);
      PutMiss(buf, picked, x);
    }
  }

  // ---- The prefill kernels as such programs ------------------------------------------------------------

  function InsertWrites<V, C>(c: Config<V, C>, toks: seq<V>, slots: seq<int>): (ws: seq<Write<C>>)
    requires c.kpool > 0 && |toks| == |slots|
    ensures |ws| == |toks|
  {
    seq(|toks|, i requires 0 <= i < |toks| =>
          if slots[i] >= 0 && i >= c.kpool - 1
          then Write(slots[i], c.compress(toks[i + 1 - c.kpool..i + 1]))
          else Nothing)
  }

  function SeedWrites<V>(kpool: nat, toks: seq<V>, tslots: seq<int>): (ws: seq<Write<V>>)
    requires kpool > 0 && |toks| == |tslots|
    ensures |ws| == |toks|
  {
    seq(|toks|, i requires 0 <= i < |toks| =>
          if tslots[i] < 0 || Superseded(kpool, tslots, i) then Nothing else Write(tslots[i], toks[i]))
  }

  lemma {:induction false} InsertIsPut<V, C>(c: Config<V, C>, cache: seq<C>, toks: seq<V>, slots: seq<int>, n: nat)
    requires c.kpool > 0 && n <= |toks| == |slots| && forall i | 0 <= i < |slots| :: slots[i] < |cache|
    ensures WritesInRange(|cache|, InsertWrites(c, toks, slots)[..n])
    ensures InsertRows(c, cache, toks, slots, n) == PutAll(cache, InsertWrites(c, toks, slots)[..n])
  {
    var ws := InsertWrites(c, toks, slots);
    if n > 0 {
      InsertIsPut(c, cache, toks, slots, n - 1);
      assert ws[..n][..n - 1] == ws[..n - 1];
    }
  }

  lemma {:induction false} SeedIsPut<V>(kpool: nat, tail: seq<V>, toks: seq<V>, tslots: seq<int>, n: nat)
    requires kpool > 0 && n <= |toks| == |tslots| && forall i | 0 <= i < |tslots| :: tslots[i] < |tail|
    ensures WritesInRange(|tail|, SeedWrites(kpool, toks, tslots)[..n])
    ensures SeedRows(kpool, tail, toks, tslots, n) == PutAll(tail, SeedWrites(kpool, toks, tslots)[..n])
  {
    var ws := SeedWrites(kpool, toks, tslots);
    if n > 0 {
      SeedIsPut(kpool, tail, toks, tslots, n - 1);
      assert ws[..n][..n - 1] == ws[..n - 1];
    }
  }

  // ---- Tokens of a prefill launch ------------------------------------------------------------------------

  /** Chunks of live requests, each of a request of its own. */
  ghost predicate LiveLaunch<V, C>(c: Config<V, C>, s: Store<V, C>, chunks: seq<Chunk<V>>) {
    && GoodLaunch(c, s, chunks)
    && (forall b | 0 <= b < |chunks| :: LocsDistinct(c.kpool, chunks[b].req))
    && forall a, b | 0 <= a < |chunks| && 0 <= b < |chunks| && a != b :: Apart(c.kpool, chunks[a].req, chunks[b].req)
  }

  function Offset<V>(chunks: seq<Chunk<V>>, b: nat): nat
    requires b <= |chunks|
  {
    |LaunchToks(chunks[..b])|
  }

  /** Token j of chunk b in the launch. */
  lemma {:induction false} TokenAt<V>(k: nat, chunks: seq<Chunk<V>>, b: nat, j: nat)
    requires k > 0 && b < |chunks| && j < |chunks[b].toks|
    ensures Offset(chunks, b) + j < |LaunchToks(chunks)|
    ensures LaunchSlots(k, chunks)[Offset(chunks, b) + j] == ChunkSlots(k, chunks[b])[j]
    ensures LaunchTails(k, chunks)[Offset(chunks, b) + j] == ChunkTails(k, chunks[b])[j]
    decreases |chunks|
  {
    hide PoolSlot, TailSlot;
    var n := |chunks| - 1;
    if b < n {
      TokenAt(k, chunks[..n], b, j);
      assert chunks[..n][..b] == chunks[..b];
    }
  }

  /** The chunk of token i. */
  lemma {:induction false} Place<V>(chunks: seq<Chunk<V>>, i: nat) returns (b: nat, j: nat)
    requires i < |LaunchToks(chunks)|
    ensures b < |chunks| && j < |chunks[b].toks| && i == Offset(chunks, b) + j
    decreases |chunks|
  {
    var n := |chunks| - 1;
    if i < |LaunchToks(chunks[..n])| {
      b, j := Place(chunks[..n], i);
      assert chunks[..n][..b] == chunks[..b];
    } else {
      b, j := n, i - |LaunchToks(chunks[..n])|;
    }
  }

  lemma OwnSlotsDiffer<V>(k: nat, r: Req<V>, i: nat, j: nat)
    requires k > 0 && LocsDistinct(k, r) && |r.hist| <= i < j && PoolSlot(k, r.locs, i) >= 0
    ensures PoolSlot(k, r.locs, i) != PoolSlot(k, r.locs, j)
  {
    Whole(i, k);
    Whole(j, k);
    DivMono(|r.hist|, i, k);
    DivMono(i, j, k);
  }

  /** No two programs of the insert write the same cache slot. */
  lemma InsertsDiffer<V, C>(c: Config<V, C>, s: Store<V, C>, chunks: seq<Chunk<V>>, i: nat, j: nat)
    requires LiveLaunch(c, s, chunks) && i < j < |LaunchToks(chunks)| && LaunchSlots(c.kpool, chunks)[i] >= 0
    ensures LaunchSlots(c.kpool, chunks)[i] != LaunchSlots(c.kpool, chunks)[j]
  {
    hide PoolSlot, TailSlot, LaunchSlots, LaunchTails, LaunchToks, LocsDistinct, Apart, Fits;
    var a, x := Place(chunks, i);
    var b, y := Place(chunks, j);
    TokenAt(c.kpool, chunks, a, x);
    TokenAt(c.kpool, chunks, b, y);
    var r, q := chunks[a].req, chunks[b].req;
    if a == b {
      OwnSlotsDiffer(c.kpool, r, |r.hist| + x, |r.hist| + y);
    } else {
      assert Apart(c.kpool, r, q);
      SlotsApart(c.kpool, r, q, |r.hist| + x, |q.hist| + y);
    }
  }

  /** No two programs of the seed write the same ring entry. */
  lemma SeedsDiffer<V, C>(c: Config<V, C>, s: Store<V, C>, chunks: seq<Chunk<V>>, i: nat, j: nat)
    requires LiveLaunch(c, s, chunks) && i < j < |LaunchToks(chunks)|
    requires !Superseded(c.kpool, LaunchTails(c.kpool, chunks), i)
    ensures LaunchTails(c.kpool, chunks)[i] != LaunchTails(c.kpool, chunks)[j]
  {
    hide PoolSlot, TailSlot, LaunchSlots, LaunchTails, LaunchToks, LocsDistinct, Apart;
    var a, x := Place(chunks, i);
    var b, y := Place(chunks, j);
    TokenAt(c.kpool, chunks, a, x);
    TokenAt(c.kpool, chunks, b, y);
    var r, q := chunks[a].req, chunks[b].req;
    SlotsFit(c.kpool, s, r, |chunks[a].toks|, x);
    SlotsFit(c.kpool, s, q, |chunks[b].toks|, y);
    if a == b {
      if y < x + c.kpool {
        RingSlotsDiffer(c.kpool, r.own, |r.hist| + x, |r.hist| + y);
      } else {
        TokenAt(c.kpool, chunks, a, x + c.kpool);
        SlotsFit(c.kpool, s, r, |chunks[a].toks|, x + c.kpool);
        assert false;
      }
    }
  }

  /** Both kernels of a prefill launch, their programs in any orders, do what the chunks do one by one. */
  lemma PrefillAnyOrder<V, C>(c: Config<V, C>, s: Store<V, C>, chunks: seq<Chunk<V>>, inserts: seq<nat>,
          seeds: seq<nat>)
    requires LiveLaunch(c, s, chunks)
    requires Enumerates(inserts, |LaunchToks(chunks)|) && Enumerates(seeds, |LaunchToks(chunks)|)
    ensures PrefillLaunched(c, s, chunks, inserts, seeds, PrefillEach(c, s, chunks))
  {
    hide PoolSlot, TailSlot, LaunchSlots, LaunchTails, LaunchToks, LocsDistinct, Apart, Fits, InsertRows, SeedRows,
         PutAll, PrefillEach, Enumerates, Superseded;
    var toks, slots, tails := LaunchToks(chunks), LaunchSlots(c.kpool, chunks), LaunchTails(c.kpool, chunks);
    PrefillLaunchIsEach(c, s, chunks);
    var a, b := InsertWrites(c, toks, slots), SeedWrites(c.kpool, toks, tails);
    InsertIsPut(c, s.cache, toks, slots, |toks|);
    SeedIsPut(c.kpool, s.tail, toks, tails, |toks|);
    assert a[..|toks|] == a && b[..|toks|] == b;
    forall i, j | 0 <= i < j < |a| && a[i].Write? && a[j].Write?
      ensures a[i].at != a[j].at
    {
      InsertsDiffer(c, s, chunks, i, j);
    }
    forall i, j | 0 <= i < j < |b| && b[i].Write? && b[j].Write?
      ensures b[i].at != b[j].at
    {
      SeedsDiffer(c, s, chunks, i, j);
    }
    PutAnyOrder(s.cache, a, inserts);
    PutAnyOrder(s.tail, b, seeds);
  }

  /** The store after the two kernels of a prefill launch, their programs in the given orders. */
  ghost predicate PrefillLaunched<V, C>(c: Config<V, C>, s: Store<V, C>, chunks: seq<Chunk<V>>, inserts: seq<nat>,
                                        seeds: seq<nat>, t: Store<V, C>)
    requires c.kpool > 0
  {
    var n, toks := |LaunchToks(chunks)|, LaunchToks(chunks);
    && InRange(inserts, n) && InRange(seeds, n)
    && var a := Picked(InsertWrites(c, toks, LaunchSlots(c.kpool, chunks)), inserts);
       var b := Picked(SeedWrites(c.kpool, toks, LaunchTails(c.kpool, chunks)), seeds);
       WritesInRange(|s.cache|, a) && WritesInRange(|s.tail|, b) && t == Store(PutAll(s.cache, a), PutAll(s.tail, b))
  }

  // ---- Launches as events ------------------------------------------------------------------------------------

  ghost predicate Distinct(ids: seq<nat>) {
    forall a, b | 0 <= a < b < |ids| :: ids[a] != ids[b]
  }

  ghost predicate AllInv<V, C>(c: Config<V, C>, sts: seq<State<V, C>>) {
    forall t | 0 <= t < |sts| :: Inv(c, sts[t])
  }

  function PrefillEvents<V>(ids: seq<nat>, toks: seq<seq<V>>): (es: seq<Event<V>>)
    requires |toks| == |ids|
    ensures |es| == |ids|
  {
    seq(|ids|, b requires 0 <= b < |ids| => Event.Prefill(ids[b], toks[b]))
  }

  ghost function LiveChunks<V, C>(st: State<V, C>, ids: seq<nat>, toks: seq<seq<V>>): (chunks: seq<Chunk<V>>)
    requires |toks| == |ids| && forall b | 0 <= b < |ids| :: ids[b] in st.reqs
    ensures |chunks| == |ids| && forall b | 0 <= b < |ids| :: chunks[b] == Chunk(st.reqs[ids[b]], toks[b])
  {
    seq(|ids|, b requires 0 <= b < |ids| => Chunk(st.reqs[ids[b]], toks[b]))
  }

  /** Every request of the launch is live, on its own, and may take its event. */
  ghost predicate CanLaunch<V, C>(c: Config<V, C>, st: State<V, C>, ids: seq<nat>, es: seq<Event<V>>)
    requires c.kpool > 0
  {
    && |es| == |ids| && Distinct(ids)
    && forall b | 0 <= b < |ids| :: ids[b] in st.reqs && Enabled(c, st, es[b])
  }

  lemma LaunchLive<V, C>(c: Config<V, C>, st: State<V, C>, ids: seq<nat>, toks: seq<seq<V>>)
    requires Inv(c, st) && |toks| == |ids| && CanLaunch(c, st, ids, PrefillEvents(ids, toks))
    ensures LiveLaunch(c, st.store, LiveChunks(st, ids, toks))
  {
    hide Fits, KeptOk, PoolsCached, RingOk, LocsDistinct;
    var chunks, es := LiveChunks(st, ids, toks), PrefillEvents(ids, toks);
    forall b | 0 <= b < |chunks|
      ensures Fits(c.kpool, st.store, chunks[b].req, |chunks[b].toks|) && |chunks[b].req.hist| % c.kpool == 0
      ensures LocsDistinct(c.kpool, chunks[b].req)
    {
      assert Enabled(c, st, es[b]) && ReqOk(c, st.store, st.reqs[ids[b]]);
    }
    forall a, b | 0 <= a < |chunks| && 0 <= b < |chunks| && a != b
      ensures Apart(c.kpool, chunks[a].req, chunks[b].req)
    {
      assert ids[a] != ids[b];
      assert Apart(c.kpool, st.reqs[ids[a]], st.reqs[ids[b]]);
    }
  }

  /** After some events, a request that has had none is as it was. */
  ghost predicate Untouched<V, C>(st: State<V, C>, now: State<V, C>, ids: seq<nat>, n: nat)
    requires n <= |ids|
  {
    && |now.store.cache| == |st.store.cache| && |now.store.tail| == |st.store.tail|
    && forall b | n <= b < |ids| && ids[b] in st.reqs :: ids[b] in now.reqs && now.reqs[ids[b]] == st.reqs[ids[b]]
  }

  /** So its event is still enabled, and leaves the later ones alone. */
  lemma EventLater<V, C>(c: Config<V, C>, st: State<V, C>, now: State<V, C>, ids: seq<nat>, es: seq<Event<V>>, n: nat)
    requires c.kpool > 0 && CanLaunch(c, st, ids, es) && n < |ids| && Untouched(st, now, ids, n)
    requires (es[n].Prefill? || es[n].Decode?) && es[n].id == ids[n]
    ensures Enabled(c, now, es[n]) && Untouched(st, Apply(c, now, es[n]), ids, n + 1)
  {
    hide PrefillStore, DecodeReq, KeepsPool;
    assert Enabled(c, st, es[n]);
  }

  lemma RunOn<V, C>(c: Config<V, C>, sts: seq<State<V, C>>, es: seq<Event<V>>, n: nat)
    requires c.kpool > 0 && n < |es| && Continues(c, sts, es[..n]) && AllInv(c, sts) && Enabled(c, sts[n], es[n])
    ensures Continues(c, sts + [Apply(c, sts[n], es[n])], es[..n + 1])
    ensures AllInv(c, sts + [Apply(c, sts[n], es[n])])
  {
    hide Inv, Enabled, Apply;
    EventKeeps(c, sts[n], es[n]);
    var more := sts + [Apply(c, sts[n], es[n])];
    forall t | 0 <= t < n + 1
      ensures Follows(c, more[t], es[..n + 1][t], more[t + 1])
    {
      if t < n {
        assert Follows(c, sts[t], es[..n][t], sts[t + 1]);
      }
    }
  }

  lemma {:induction false} PrefillsRun<V, C>(c: Config<V, C>, st: State<V, C>, ids: seq<nat>, toks: seq<seq<V>>, n: nat)
    returns (sts: seq<State<V, C>>)
    requires Inv(c, st) && |toks| == |ids| && CanLaunch(c, st, ids, PrefillEvents(ids, toks)) && n <= |ids|
    ensures Continues(c, sts, PrefillEvents(ids, toks)[..n]) && AllInv(c, sts) && sts[0] == st
    ensures Untouched(st, sts[n], ids, n) && GoodLaunch(c, st.store, LiveChunks(st, ids, toks)[..n])
    ensures sts[n].store == PrefillEach(c, st.store, LiveChunks(st, ids, toks)[..n])
  {
    hide Inv, Fits, Enabled, Apply, PrefillStore, Apart, LocsDistinct, Distinct;
    var es, chunks := PrefillEvents(ids, toks), LiveChunks(st, ids, toks);
    LaunchLive(c, st, ids, toks);
    if n == 0 {
      sts := [st];
    } else {
      sts := PrefillsRun(c, st, ids, toks, n - 1);
      EventLater(c, st, sts[n - 1], ids, es, n - 1);
      RunOn(c, sts, es, n - 1);
      PrefillStored(c, sts[n - 1], ids[n - 1], toks[n - 1]);
      assert chunks[..n][..n - 1] == chunks[..n - 1];
      sts := sts + [Apply(c, sts[n - 1], es[n - 1])];
    }
  }

  lemma PrefillStored<V, C>(c: Config<V, C>, st: State<V, C>, id: nat, toks: seq<V>)
    requires c.kpool > 0 && Enabled(c, st, Event.Prefill(id, toks))
    ensures id in st.reqs && Fits(c.kpool, st.store, st.reqs[id], |toks|)
    ensures Apply(c, st, Event.Prefill(id, toks)).store == PrefillStore(c, st.store, st.reqs[id], toks)
  {}

  /** A prefill launch over live requests, its programs in any orders, is the requests' Prefill events, and
      keeps the invariant. */
  lemma PrefillGridIsRun<V, C>(c: Config<V, C>, st: State<V, C>, ids: seq<nat>, toks: seq<seq<V>>, inserts: seq<nat>,
                               seeds: seq<nat>) returns (sts: seq<State<V, C>>)
    requires Inv(c, st) && |toks| == |ids| && CanLaunch(c, st, ids, PrefillEvents(ids, toks))
    requires var n := |LaunchToks(LiveChunks(st, ids, toks))|; Enumerates(inserts, n) && Enumerates(seeds, n)
    ensures Continues(c, sts, PrefillEvents(ids, toks)) && AllInv(c, sts) && sts[0] == st
    ensures PrefillLaunched(c, st.store, LiveChunks(st, ids, toks), inserts, seeds, sts[|ids|].store)
  {
    hide Inv, Continues, Enabled, Distinct, Enumerates, PrefillEach, PrefillLaunched;
    var chunks, es := LiveChunks(st, ids, toks), PrefillEvents(ids, toks);
    LaunchLive(c, st, ids, toks);
    sts := PrefillsRun(c, st, ids, toks, |ids|);
    assert es[..|ids|] == es && chunks[..|ids|] == chunks;
    PrefillAnyOrder(c, st.store, chunks, inserts, seeds);
  }

  // ---- Decode launches ------------------------------------------------------------------------------------------

  function DecodeEvents<V>(ids: seq<nat>, toks: seq<seq<V>>, keeps: seq<nat>): (es: seq<Event<V>>)
    requires |toks| == |keeps| == |ids|
    ensures |es| == |ids|
  {
    seq(|ids|, b requires 0 <= b < |ids| => Event.Decode(ids[b], toks[b], keeps[b]))
  }

  ghost function LiveReqs<V, C>(st: State<V, C>, ids: seq<nat>): (reqs: seq<Req<V>>)
    requires forall b | 0 <= b < |ids| :: ids[b] in st.reqs
    ensures |reqs| == |ids| && forall b | 0 <= b < |ids| :: reqs[b] == st.reqs[ids[b]]
  {
    seq(|ids|, b requires 0 <= b < |ids| => st.reqs[ids[b]])
  }

  lemma DecodeFits<V, C>(c: Config<V, C>, st: State<V, C>, ids: seq<nat>, toks: seq<seq<V>>, keeps: seq<nat>)
    requires c.kpool > 0 && |toks| == |keeps| == |ids| && CanLaunch(c, st, ids, DecodeEvents(ids, toks, keeps))
    ensures EachFits(c.kpool, st.store, LiveReqs(st, ids), toks)
  {
    hide Fits, KeepsPool;
    forall b | 0 <= b < |ids|
      ensures Fits(c.kpool, st.store, st.reqs[ids[b]], |toks[b]|)
    {
      assert Enabled(c, st, DecodeEvents(ids, toks, keeps)[b]);
    }
  }

  lemma {:induction false} DecodesRun<V, C>(c: Config<V, C>, st: State<V, C>, ids: seq<nat>, toks: seq<seq<V>>,
          keeps: seq<nat>, n: nat)
    returns (sts: seq<State<V, C>>)
    requires c.kpool > 0 && Inv(c, st) && |toks| == |keeps| == |ids| && n <= |ids|
    requires CanLaunch(c, st, ids, DecodeEvents(ids, toks, keeps))
    ensures Continues(c, sts, DecodeEvents(ids, toks, keeps)[..n]) && AllInv(c, sts) && sts[0] == st
    ensures Untouched(st, sts[n], ids, n) && EachFits(c.kpool, st.store, LiveReqs(st, ids), toks)
    ensures sts[n].store == DecodeEach(c, st.store, LiveReqs(st, ids), toks, n)
  {
    hide Inv, Fits, Enabled, Apply, DecodeReq, Distinct;
    var es := DecodeEvents(ids, toks, keeps);
    DecodeFits(c, st, ids, toks, keeps);
    if n == 0 {
      sts := [st];
    } else {
      sts := DecodesRun(c, st, ids, toks, keeps, n - 1);
      EventLater(c, st, sts[n - 1], ids, es, n - 1);
      RunOn(c, sts, es, n - 1);
      DecodeStored(c, sts[n - 1], ids[n - 1], toks[n - 1], keeps[n - 1]);
      sts := sts + [Apply(c, sts[n - 1], es[n - 1])];
    }
  }

  lemma DecodeStored<V, C>(c: Config<V, C>, st: State<V, C>, id: nat, toks: seq<V>, keep: nat)
    requires c.kpool > 0 && Enabled(c, st, Event.Decode(id, toks, keep))
    ensures id in st.reqs && Fits(c.kpool, st.store, st.reqs[id], |toks|)
    ensures Apply(c, st, Event.Decode(id, toks, keep)).store == DecodeReq(c, st.store, st.reqs[id], toks)
  {}

  /** A decode launch over live requests, padded rows included and its programs in any order, is the
      requests' Decode events, whatever is kept of each row, and keeps the invariant. */
  lemma DecodeGridIsRun<V, C>(c: Config<V, C>, st: State<V, C>, ids: seq<nat>, toks: seq<seq<V>>, keeps: seq<nat>,
                              width: nat, pad: V, rows: seq<seq<Verify<V>>>, order: seq<nat>)
    returns (sts: seq<State<V, C>>)
    requires c.kpool > 0 && Inv(c, st) && |toks| == |keeps| == |rows| == |ids|
    requires CanLaunch(c, st, ids, DecodeEvents(ids, toks, keeps))
    requires forall b | 0 <= b < |ids| :: |toks[b]| <= width
               && rows[b] == ProgramRow(c.kpool, st.reqs[ids[b]], toks[b], width - |toks[b]|, pad)
    requires Enumerates(order, |rows|)
    ensures Continues(c, sts, DecodeEvents(ids, toks, keeps)) && AllInv(c, sts) && sts[0] == st
    ensures InRange(order, |rows|) && RowsInRange(c.kpool, st.store, Picked(rows, order))
    ensures sts[|ids|].store == DecodeRows(c, st.store, Picked(rows, order))
  {
    hide Inv, Continues, AllInv, Untouched, Enabled, Enumerates, ProgramRow, Fits, RowInRange, DecodeEach, DecodeRows;
    var es := DecodeEvents(ids, toks, keeps);
    DecodeFits(c, st, ids, toks, keeps);
    sts := DecodesRun(c, st, ids, toks, keeps, |ids|);
    assert es[..|ids|] == es && rows[..|ids|] == rows;
    var pads := seq(|ids|, b requires 0 <= b < |ids| => width - |toks[b]|);
    DecodeLaunchIsEach(c, st.store, LiveReqs(st, ids), toks, pads, pad, rows, |ids|);
    LaunchAnyOrder(c, st, ids, toks, width, pad, rows, order);
  }
}
