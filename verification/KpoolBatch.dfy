/** One prefill launch over the concatenated chunks of several requests does what the chunks
    would do one request at a time. */
module KpoolBatch {
  import opened Arith
  import opened Kpool
  import opened KpoolRuns
  import opened KpoolDecode

  // ---- Splitting a launch in two -----------------------------------------------------------

  lemma {:induction false} InsertPrefix<V, C>(c: Config<V, C>, cache: seq<C>, a: seq<V>, sa: seq<int>, b: seq<V>,
          sb: seq<int>, n: nat)
    requires c.kpool > 0 && |a| == |sa| && |b| == |sb| && n <= |a|
    requires forall i | 0 <= i < |sa + sb| :: (sa + sb)[i] < |cache|
    ensures forall i | 0 <= i < |sa| :: sa[i] < |cache|
    ensures InsertRows(c, cache, a + b, sa + sb, n) == InsertRows(c, cache, a, sa, n)
  {
    assert forall i | 0 <= i < |sa| :: (sa + sb)[i] == sa[i];
    if n > 0 {
      InsertPrefix(c, cache, a, sa, b, sb, n - 1);
      if n >= c.kpool { assert (a + b)[n - c.kpool..n] == a[n - c.kpool..n]; }
    }
  }

  lemma {:induction false} InsertConcat<V, C>(c: Config<V, C>, cache: seq<C>, a: seq<V>, sa: seq<int>, b: seq<V>,
          sb: seq<int>, n: nat)
    requires c.kpool > 0 && |a| == |sa| && |b| == |sb| && n <= |b|
    requires forall i | 0 <= i < |sa| :: sa[i] < |cache|
    requires forall i | 0 <= i < |sb| :: sb[i] < |cache|
    requires forall j | 0 <= j < |sb| && sb[j] >= 0 :: j >= c.kpool - 1
    ensures forall i | 0 <= i < |sa + sb| :: (sa + sb)[i] < |cache|
    ensures InsertRows(c, cache, a + b, sa + sb, |a| + n) == InsertRows(c, InsertRows(c, cache, a, sa, |a|), b, sb, n)
  {
    if n == 0 {
      InsertPrefix(c, cache, a, sa, b, sb, |a|);
    } else {
      InsertConcat(c, cache, a, sa, b, sb, n - 1);
      var m := |a| + n;
      assert (sa + sb)[m - 1] == sb[n - 1];
      if sb[n - 1] >= 0 { assert (a + b)[m - c.kpool..m] == b[n - c.kpool..n]; }
    }
  }

  /** The tail slots of two launches lie in different tail blocks. */
  ghost predicate BlocksDiffer(k: nat, ta: seq<int>, tb: seq<int>)
    requires k > 0
  {
    forall i, j | 0 <= i < |ta| && 0 <= j < |tb| && ta[i] >= 0 && tb[j] >= 0 :: ta[i] / k != tb[j] / k
  }

  lemma {:induction false} SeedPrefix<V>(k: nat, tail: seq<V>, a: seq<V>, ta: seq<int>, b: seq<V>, tb: seq<int>, n: nat)
    requires k > 0 && |a| == |ta| && |b| == |tb| && n <= |a|
    requires forall i | 0 <= i < |ta| :: ta[i] < |tail|
    requires forall i | 0 <= i < |tb| :: tb[i] < |tail|
    requires BlocksDiffer(k, ta, tb)
    ensures forall i | 0 <= i < |ta + tb| :: (ta + tb)[i] < |tail|
    ensures SeedRows(k, tail, a + b, ta + tb, n) == SeedRows(k, tail, a, ta, n)
  {
    if n > 0 {
      SeedPrefix(k, tail, a, ta, b, tb, n - 1);
      assert ta[n - 1] >= 0 ==> (Superseded(k, ta + tb, n - 1) <==> Superseded(k, ta, n - 1));
    }
  }

  lemma {:induction false} SeedConcat<V>(k: nat, tail: seq<V>, a: seq<V>, ta: seq<int>, b: seq<V>, tb: seq<int>, n: nat)
    requires k > 0 && |a| == |ta| && |b| == |tb| && n <= |b|
    requires forall i | 0 <= i < |ta| :: ta[i] < |tail|
    requires forall i | 0 <= i < |tb| :: tb[i] < |tail|
    requires BlocksDiffer(k, ta, tb)
    ensures forall i | 0 <= i < |ta + tb| :: (ta + tb)[i] < |tail|
    ensures SeedRows(k, tail, a + b, ta + tb, |a| + n) == SeedRows(k, SeedRows(k, tail, a, ta, |a|), b, tb, n)
  {
    SeedPrefix(k, tail, a, ta, b, tb, |a|);
    if n > 0 {
      SeedConcat(k, tail, a, ta, b, tb, n - 1);
      var m := |a| + n;
      assert (ta + tb)[m - 1] == tb[n - 1] && (a + b)[m - 1] == b[n - 1];
      assert Superseded(k, ta + tb, m - 1) <==> Superseded(k, tb, n - 1);
    }
  }

  // ---- A launch over many requests ---------------------------------------------------------------

  datatype Chunk<V> = Chunk(req: Req<V>, toks: seq<V>)

  function LaunchToks<V>(chunks: seq<Chunk<V>>): seq<V> {
    if chunks == [] then [] else LaunchToks(chunks[..|chunks| - 1]) + chunks[|chunks| - 1].toks
  }

  function ChunkSlots<V>(k: nat, ch: Chunk<V>): seq<int>
    requires k > 0
  {
    PoolSlots(k, ch.req.locs, |ch.req.hist|, |ch.toks|)
  }

  function ChunkTails<V>(k: nat, ch: Chunk<V>): seq<int>
    requires k > 0
  {
    TailSlots(k, ch.req.own, |ch.req.hist|, |ch.toks|)
  }

  function LaunchSlots<V>(k: nat, chunks: seq<Chunk<V>>): (s: seq<int>)
    requires k > 0
    ensures |s| == |LaunchToks(chunks)|
  {
    if chunks == [] then [] else LaunchSlots(k, chunks[..|chunks| - 1]) + ChunkSlots(k, chunks[|chunks| - 1])
  }

  function LaunchTails<V>(k: nat, chunks: seq<Chunk<V>>): (s: seq<int>)
    requires k > 0
    ensures |s| == |LaunchToks(chunks)|
  {
    if chunks == [] then [] else LaunchTails(k, chunks[..|chunks| - 1]) + ChunkTails(k, chunks[|chunks| - 1])
  }

  /** Pool-aligned chunks of requests with different tail blocks, all in range. */
  ghost predicate GoodLaunch<V, C>(c: Config<V, C>, s: Store<V, C>, chunks: seq<Chunk<V>>) {
    && c.kpool > 0
    && (forall b | 0 <= b < |chunks| :: Fits(c.kpool, s, chunks[b].req, |chunks[b].toks|)
         && |chunks[b].req.hist| % c.kpool == 0)
    && (forall a, b | 0 <= a < b < |chunks| :: chunks[a].req.own != chunks[b].req.own)
  }

  /** The chunks one request at a time. */
  ghost function PrefillEach<V, C>(c: Config<V, C>, s: Store<V, C>, chunks: seq<Chunk<V>>): (t: Store<V, C>)
    requires GoodLaunch(c, s, chunks)
    ensures |t.cache| == |s.cache| && |t.tail| == |s.tail|
    decreases |chunks|
  {
    if chunks == [] then s
    else
      var t := PrefillEach(c, s, chunks[..|chunks| - 1]);
      PrefillStore(c, t, chunks[|chunks| - 1].req, chunks[|chunks| - 1].toks)
  }

  lemma AlignedWindows<V>(k: nat, ch: Chunk<V>, j: nat)
    requires k > 0 && |ch.req.hist| % k == 0 && j < |ch.toks| && ChunkSlots(k, ch)[j] >= 0
    ensures j >= k - 1
  {
    var start := |ch.req.hist|;
    Whole(start, k);
    Whole(start + j, k);
    if j < k - 1 { Split(start / k, j, k); }
  }

  /** Every tail slot of the launch belongs to the tail block of one of its requests. */
  lemma {:induction false} TailOwners<V, C>(c: Config<V, C>, s: Store<V, C>, chunks: seq<Chunk<V>>, i: nat)
    requires GoodLaunch(c, s, chunks) && i < |LaunchToks(chunks)|
    ensures 0 <= LaunchTails(c.kpool, chunks)[i] < |s.tail| && LaunchSlots(c.kpool, chunks)[i] < |s.cache|
    ensures exists b :: 0 <= b < |chunks| && LaunchTails(c.kpool, chunks)[i] / c.kpool == chunks[b].req.own
    decreases |chunks|
  {
    var init, last := chunks[..|chunks| - 1], chunks[|chunks| - 1];
    if i < |LaunchToks(init)| {
      TailOwners(c, s, init, i);
      var b :| 0 <= b < |init| && LaunchTails(c.kpool, init)[i] / c.kpool == init[b].req.own;
      assert chunks[b] == init[b];
    } else {
      SlotsFit(c.kpool, s, last.req, |last.toks|, i - |LaunchToks(init)|);
    }
  }

  /** The two prefill kernels on the concatenated batch equal the per-request chunks in order. */
  lemma {:induction false} PrefillLaunchIsEach<V, C>(c: Config<V, C>, s: Store<V, C>, chunks: seq<Chunk<V>>)
    requires GoodLaunch(c, s, chunks)
    ensures forall i | 0 <= i < |LaunchToks(chunks)| ::
              LaunchTails(c.kpool, chunks)[i] < |s.tail| && LaunchSlots(c.kpool, chunks)[i] < |s.cache|
    ensures PrefillEach(c, s, chunks)
         == Store(InsertRows(c, s.cache, LaunchToks(chunks), LaunchSlots(c.kpool, chunks), |LaunchToks(chunks)|),
                  SeedRows(c.kpool, s.tail, LaunchToks(chunks), LaunchTails(c.kpool, chunks), |LaunchToks(chunks)|))
    decreases |chunks|
  {
    hide Fits, PoolSlot, TailSlot, InsertRows, SeedRows, BlocksDiffer;
    forall i | 0 <= i < |LaunchToks(chunks)|
      ensures LaunchTails(c.kpool, chunks)[i] < |s.tail| && LaunchSlots(c.kpool, chunks)[i] < |s.cache|
    {
      TailOwners(c, s, chunks, i);
    }
    if chunks != [] {
      var init, last := chunks[..|chunks| - 1], chunks[|chunks| - 1];
      PrefillLaunchIsEach(c, s, init);
      SlotsInRange(c.kpool, s, last.req, |last.toks|);
      forall j | 0 <= j < |last.toks| && ChunkSlots(c.kpool, last)[j] >= 0 ensures j >= c.kpool - 1 {
        AlignedWindows(c.kpool, last, j);
      }
      LastOwnsItsBlock(c, s, chunks);
      InsertConcat(c, s.cache, LaunchToks(init), LaunchSlots(c.kpool, init), last.toks, ChunkSlots(c.kpool, last),
          |last.toks|);
      SeedConcat(c.kpool, s.tail, LaunchToks(init), LaunchTails(c.kpool, init), last.toks, ChunkTails(c.kpool, last),
          |last.toks|);
    } else {
      NoRows(c, s);
    }
  }

  lemma NoRows<V, C>(c: Config<V, C>, s: Store<V, C>)
    requires c.kpool > 0
    ensures InsertRows(c, s.cache, [], [], 0) == s.cache && SeedRows(c.kpool, s.tail, [], [], 0) == s.tail
  {}

  lemma LastOwnsItsBlock<V, C>(c: Config<V, C>, s: Store<V, C>, chunks: seq<Chunk<V>>)
    requires GoodLaunch(c, s, chunks) && chunks != []
    ensures BlocksDiffer(c.kpool, LaunchTails(c.kpool, chunks[..|chunks| - 1]),
        ChunkTails(c.kpool, chunks[|chunks| - 1]))
  {
    hide Fits, TailSlot, PoolSlot;
    var init, last := chunks[..|chunks| - 1], chunks[|chunks| - 1];
    var ta, tb := LaunchTails(c.kpool, init), ChunkTails(c.kpool, last);
    forall i, j | 0 <= i < |ta| && 0 <= j < |tb| && ta[i] >= 0 && tb[j] >= 0
      ensures ta[i] / c.kpool != tb[j] / c.kpool
    {
      TailOwners(c, s, init, i);
      var b :| 0 <= b < |init| && ta[i] / c.kpool == init[b].req.own;
      assert init[b] == chunks[b];
      SlotsFit(c.kpool, s, last.req, |last.toks|, j);
    }
  }

  // ---- The request of a flat token ------------------------------------------------------------

  /** searchsorted(query_start_loc, i, right=True) - 1, clamped to the requests. */
  function RequestOf(qsl: seq<nat>, i: nat): (r: nat)
    requires |qsl| > 1
    ensures r < |qsl| - 1
  {
    var r := CountUpTo(qsl, i) - 1;
    if r < 0 then 0 else if r > |qsl| - 2 then |qsl| - 2 else r
  }

  /** Entries of qsl that are at most i. */
  function CountUpTo(qsl: seq<nat>, i: nat): (n: nat)
    ensures n <= |qsl|
  {
    if qsl == [] then 0 else CountUpTo(qsl[..|qsl| - 1], i) + (if qsl[|qsl| - 1] <= i then 1 else 0)
  }

  lemma {:induction false} CountSorted(qsl: seq<nat>, i: nat, r: nat)
    requires forall a, b | 0 <= a < b < |qsl| :: qsl[a] <= qsl[b]
    requires r <= |qsl| && (forall a | 0 <= a < r :: qsl[a] <= i) && (forall a | r <= a < |qsl| :: qsl[a] > i)
    ensures CountUpTo(qsl, i) == r
    decreases |qsl|
  {
    if qsl != [] {
      CountSorted(qsl[..|qsl| - 1], i, if r == |qsl| then r - 1 else r);
    }
  }

  /** Tokens in front of the first request are given to it, and padding behind the last one to that. */
  lemma RequestOfPadding(qsl: seq<nat>, i: nat)
    requires |qsl| > 1 && forall a, b | 0 <= a < b < |qsl| :: qsl[a] <= qsl[b]
    ensures i < qsl[0] ==> RequestOf(qsl, i) == 0
    ensures i >= qsl[|qsl| - 1] ==> RequestOf(qsl, i) == |qsl| - 2
  {
    if i < qsl[0] {
      CountSorted(qsl, i, 0);
    } else if i >= qsl[|qsl| - 1] {
      CountSorted(qsl, i, |qsl|);
    }
  }

  /** The circular mapping sends every token of request r into r's own tail block, whatever the
      lengths of the other requests (zero included). */
  lemma TailSlotOfToken(qsl: seq<nat>, own: seq<nat>, pos: seq<nat>, kpool: nat, r: nat, i: nat)
    requires kpool > 0 && |qsl| == |own| + 1 && |qsl| > 1 && r < |own| && i < |pos|
    requires forall a, b | 0 <= a < b < |qsl| :: qsl[a] <= qsl[b]
    requires qsl[r] <= i < qsl[r + 1]
    ensures RequestOf(qsl, i) == r
    ensures TailSlot(kpool, own[RequestOf(qsl, i)], pos[i]) / kpool == own[r]
  {
    CountSorted(qsl, i, r + 1);
    Whole(pos[i], kpool);
    Split(own[r], pos[i] % kpool, kpool);
  }
}
