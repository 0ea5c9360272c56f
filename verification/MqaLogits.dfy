/** Indexer logits: the contiguous kernel with early exit, its chunked form, and the paged kernel
    that reads the cache through the block table. */
module MqaLogits {
  import Arith
  import opened DecodeLayout

  /** A cached key with its scale, a query token with its heads, a logit. */
  datatype Entry = Entry(k: seq<real>, scale: real)
  datatype Query = Query(heads: seq<seq<real>>, weights: seq<real>)
  datatype Logit = NegInf | Val(x: real)

  function Dot(a: seq<real>, b: seq<real>, d: nat): real
    requires d <= |a| && d <= |b|
  {
    if d == 0 then 0.0 else Dot(a, b, d - 1) + a[d - 1] * b[d - 1]
  }

  ghost predicate Shaped(q: Query, e: Entry) {
    |q.heads| == |q.weights| && forall h | 0 <= h < |q.heads| :: |q.heads[h]| == |e.k|
  }

  function Relu(x: real): real {
    if x > 0.0 then x else 0.0
  }

  function HeadTerm(q: Query, e: Entry, h: nat): real
    requires Shaped(q, e) && h < |q.heads|
  {
    Relu(Dot(q.heads[h], e.k, |e.k|) * e.scale) * q.weights[h]
  }

  /** The first n heads' weighted, rectified scores. */
  function HeadSum(q: Query, e: Entry, n: nat): real
    requires Shaped(q, e) && n <= |q.heads|
  {
    if n == 0 then 0.0 else HeadSum(q, e, n - 1) + HeadTerm(q, e, n - 1)
  }

  function Score(q: Query, e: Entry): real
    requires Shaped(q, e)
  {
    HeadSum(q, e, |q.heads|)
  }

  // ---- What a score is ---------------------------------------------------------------------------------

  /** The product of two keys. */
  function Product(a: seq<real>, b: seq<real>): real
    requires |a| == |b|
  {
    Dot(a, b, |b|)
  }

  function OneHead(head: seq<real>, weight: real): Query {
    Query([head], [weight])
  }

  /** The heads of p, then those of q. */
  function Join(p: Query, q: Query): Query {
    Query(p.heads + q.heads, p.weights + q.weights)
  }

  /** One head scores its scaled product times its weight when that product is positive, and 0 otherwise. */
  lemma OneHeadScore(head: seq<real>, weight: real, e: Entry)
    requires |head| == |e.k|
    ensures Shaped(OneHead(head, weight), e)
    ensures Score(OneHead(head, weight), e)
         == if Product(head, e.k) * e.scale > 0.0 then Product(head, e.k) * e.scale * weight else 0.0
  {
    hide Dot;
    assert HeadSum(OneHead(head, weight), e, 0) == 0.0;
  }

  lemma {:induction false} FirstHeads(p: Query, q: Query, e: Entry, n: nat)
    requires Shaped(p, e) && Shaped(q, e) && n <= |p.heads|
    ensures Shaped(Join(p, q), e) && HeadSum(Join(p, q), e, n) == HeadSum(p, e, n)
  {
    var all := Join(p, q);
    if n > 0 {
      FirstHeads(p, q, e, n - 1);
      assert all.heads[n - 1] == p.heads[n - 1] && all.weights[n - 1] == p.weights[n - 1];
      assert HeadTerm(all, e, n - 1) == HeadTerm(p, e, n - 1);
    }
  }

  lemma {:induction false} HeadsOf(p: Query, q: Query, e: Entry, n: nat)
    requires Shaped(p, e) && Shaped(q, e) && n <= |q.heads|
    ensures Shaped(Join(p, q), e)
    ensures HeadSum(Join(p, q), e, |p.heads| + n) == HeadSum(p, e, |p.heads|) + HeadSum(q, e, n)
  {
    var all, m := Join(p, q), |p.heads| + n - 1;
    if n == 0 {
      FirstHeads(p, q, e, |p.heads|);
    } else {
      HeadsOf(p, q, e, n - 1);
      assert all.heads[m] == q.heads[n - 1] && all.weights[m] == q.weights[n - 1];
      assert HeadTerm(all, e, m) == HeadTerm(q, e, n - 1);
      assert HeadSum(all, e, m + 1) == HeadSum(all, e, m) + HeadTerm(all, e, m);
    }
  }

  /** The heads of two queries score the sum of the two scores. */
  lemma JoinedScore(p: Query, q: Query, e: Entry)
    requires Shaped(p, e) && Shaped(q, e)
    ensures Shaped(Join(p, q), e) && Score(Join(p, q), e) == Score(p, e) + Score(q, e)
  {
    hide HeadSum;
    HeadsOf(p, q, e, |q.heads|);
  }

  /** A head whose scaled product is not positive may be left out. */
  lemma IdleHead(p: Query, head: seq<real>, weight: real, q: Query, e: Entry)
    requires Shaped(p, e) && Shaped(q, e) && |head| == |e.k| && Product(head, e.k) * e.scale <= 0.0
    ensures Shaped(Join(Join(p, OneHead(head, weight)), q), e) && Shaped(Join(p, q), e)
    ensures Score(Join(Join(p, OneHead(head, weight)), q), e) == Score(Join(p, q), e)
  {
    hide Score, Product;
    OneHeadScore(head, weight, e);
    JoinedScore(p, OneHead(head, weight), e);
    JoinedScore(Join(p, OneHead(head, weight)), q, e);
    JoinedScore(p, q, e);
  }

  /** Without negative weights no score is negative. */
  lemma {:induction false} ScoreNonNegative(q: Query, e: Entry)
    requires Shaped(q, e) && forall w <- q.weights :: w >= 0.0
    ensures Score(q, e) >= 0.0
    decreases |q.heads|
  {
    if q.heads != [] {
      hide Score, Product;
      var n := |q.heads| - 1;
      var init := Query(q.heads[..n], q.weights[..n]);
      assert forall w <- init.weights :: w in q.weights;
      ScoreNonNegative(init, e);
      OneHeadScore(q.heads[n], q.weights[n], e);
      JoinedScore(init, OneHead(q.heads[n], q.weights[n]), e);
      assert Join(init, OneHead(q.heads[n], q.weights[n])) == q;
      assert q.weights[n] in q.weights;
      NonNegative(Product(q.heads[n], e.k) * e.scale, q.weights[n]);
    }
  }

  lemma NonNegative(x: real, w: real)
    requires w >= 0.0
    ensures x > 0.0 ==> x * w >= 0.0
  {}

  /** The product is linear in the query, ... */
  lemma {:induction false} ProductLinear(x: real, a: seq<real>, y: real, b: seq<real>, k: seq<real>, d: nat)
    requires d <= |a| && |a| == |b| == |k|
    ensures Dot(Mix(x, a, y, b), k, d) == x * Dot(a, k, d) + y * Dot(b, k, d)
  {
    if d > 0 {
      ProductLinear(x, a, y, b, k, d - 1);
      MixEntry(x, a[d - 1], y, b[d - 1], k[d - 1]);
      Spread(x, Dot(a, k, d - 1), a[d - 1] * k[d - 1]);
      Spread(y, Dot(b, k, d - 1), b[d - 1] * k[d - 1]);
    }
  }

  lemma MixEntry(x: real, u: real, y: real, v: real, w: real)
    ensures (x * u + y * v) * w == x * (u * w) + y * (v * w)
  {}

  lemma Spread(x: real, u: real, v: real)
    ensures x * (u + v) == x * u + x * v
  {}

  function Mix(x: real, a: seq<real>, y: real, b: seq<real>): (r: seq<real>)
    requires |a| == |b|
    ensures |r| == |a|
  {
    seq(|a|, i requires 0 <= i < |a| => x * a[i] + y * b[i])
  }

  function Unit(i: nat, n: nat): (r: seq<real>)
    ensures |r| == n
  {
    seq(n, j => if j == i then 1.0 else 0.0)
  }

  /** ... and with a unit vector it is that coordinate of the key. */
  lemma {:induction false} ProductUnit(i: nat, k: seq<real>, d: nat)
    requires d <= |k| && i < |k|
    ensures Dot(Unit(i, |k|), k, d) == if i < d then k[i] else 0.0
  {
    if d > 0 {
      ProductUnit(i, k, d - 1);
    }
  }

  ghost predicate AllShaped(qs: seq<Query>, keys: seq<Entry>) {
    forall m, n | 0 <= m < |qs| && 0 <= n < |keys| :: Shaped(qs[m], keys[n])
  }

  /** Row m scores the keys in [ks, ke). */
  function Wanted(qs: seq<Query>, keys: seq<Entry>, ks: seq<nat>, ke: seq<nat>, m: nat, n: nat): Logit
    requires AllShaped(qs, keys) && |ks| == |ke| == |qs| && m < |qs| && n < |keys|
  {
    if ks[m] <= n < ke[m] then Val(Score(qs[m], keys[n])) else NegInf
  }

  function At(tile: nat, block: nat): nat {
    tile * block
  }

  /** One program of _fp8_mqa_logits_kernel. */
  method LogitsTile(qs: seq<Query>, keys: seq<Entry>, ks: seq<nat>, ke: seq<nat>, m: nat, tile: nat, block: nat,
                    out: array2<Logit>)
    requires AllShaped(qs, keys) && |ks| == |ke| == |qs| == out.Length0 && |keys| == out.Length1 && m < |qs|
    modifies out
    ensures forall r, n | 0 <= r < out.Length0 && 0 <= n < out.Length1 ::
              out[r, n] == if r == m && At(tile, block) <= n < At(tile, block) + block
                  then Wanted(qs, keys, ks, ke, m, n) else old(out[r, n])
  {
    hide At, Shaped;
    var first := At(tile, block);
    if first >= ke[m] || first + block <= ks[m] {
      forall n | first <= n < first + block && n < |keys| {
        out[m, n] := NegInf;
      }
      return;
    }
    forall n | first <= n < first + block && n < |keys| {
      out[m, n] := if n >= ks[m] && n < ke[m] then Val(Score(qs[m], keys[n])) else NegInf;
    }
  }

  lemma AtNext(tile: nat, block: nat)
    ensures At(tile + 1, block) == At(tile, block) + block && At(0, block) == 0
  {}

  lemma TilesCover(n: nat, block: nat)
    requires block > 0
    ensures n <= At((n + block - 1) / block, block)
  {
    Arith.DivBounds(n + block - 1, block);
  }

  /** fp8_mqa_logits_triton: all tiles of all rows; every column is written, whatever the tile size. */
  method ContiguousLogits(qs: seq<Query>, keys: seq<Entry>, ks: seq<nat>, ke: seq<nat>,
                          block: nat) returns (out: array2<Logit>)
    requires AllShaped(qs, keys) && |ks| == |ke| == |qs| && block > 0
    ensures out.Length0 == |qs| && out.Length1 == |keys|
    ensures forall m, n | 0 <= m < |qs| && 0 <= n < |keys| :: out[m, n] == Wanted(qs, keys, ks, ke, m, n)
  {
    hide At, Wanted, AllShaped;
    out := new Logit[|qs|, |keys|]((m, n) => NegInf);
    var tiles := (|keys| + block - 1) / block;
    TilesCover(|keys|, block);
    for m := 0 to |qs|
      invariant forall r, n | 0 <= r < m && 0 <= n < |keys| :: out[r, n] == Wanted(qs, keys, ks, ke, r, n)
    {
      AtNext(0, block);
      for tile := 0 to tiles
        invariant forall r, n | 0 <= r < m && 0 <= n < |keys| :: out[r, n] == Wanted(qs, keys, ks, ke, r, n)
        invariant forall n | 0 <= n < |keys| && n < At(tile, block) :: out[m, n] == Wanted(qs, keys, ks, ke, m, n)
      {
        AtNext(tile, block);
        LogitsTile(qs, keys, ks, ke, m, tile, block, out);
      }
    }
  }

  /** _mqa_logits_torch: column chunks over all rows at once; the same result for every chunk size. */
  method TorchLogits(qs: seq<Query>, keys: seq<Entry>, ks: seq<nat>, ke: seq<nat>,
                     chunk: nat) returns (out: array2<Logit>)
    requires AllShaped(qs, keys) && |ks| == |ke| == |qs| && chunk > 0
    ensures out.Length0 == |qs| && out.Length1 == |keys|
    ensures forall m, n | 0 <= m < |qs| && 0 <= n < |keys| :: out[m, n] == Wanted(qs, keys, ks, ke, m, n)
  {
    hide Shaped;
    out := new Logit[|qs|, |keys|]((m, n) => NegInf);
    var n0 := 0;
    while n0 < |keys|
      invariant forall m, n | 0 <= m < |qs| && 0 <= n < |keys| && n < n0 :: out[m, n] == Wanted(qs, keys, ks, ke, m, n)
      decreases if n0 <= |keys| then |keys| - n0 else 0
    {
      var n1 := if n0 + chunk < |keys| then n0 + chunk else |keys|;
      forall m, n | 0 <= m < |qs| && n0 <= n < n1 {
        out[m, n] := if n >= ks[m] && n < ke[m] then Val(Score(qs[m], keys[n])) else NegInf;
      }
      n0 := n0 + chunk;
    }
  }

  // ---- Gather ---------------------------------------------------------------------------------------

  type Cache = seq<seq<Entry>>

  /** Block table rows name cache blocks of equal size that hold every request's context. */
  ghost predicate Paged(cache: Cache, blockSize: nat, table: seq<seq<nat>>, lens: seq<nat>) {
    && blockSize > 0 && |table| == |lens|
    && (forall i | 0 <= i < |cache| :: |cache[i]| == blockSize)
    && (forall b, j | 0 <= b < |table| && 0 <= j < |table[b]| :: table[b][j] < |cache|)
    && (forall b | 0 <= b < |table| :: lens[b] <= At(|table[b]|, blockSize))
  }

  function Column(p: nat, blockSize: nat): nat
    requires blockSize > 0
  {
    p / blockSize
  }

  lemma ColumnInside(p: nat, n: nat, blockSize: nat)
    requires blockSize > 0 && p < At(n, blockSize)
    ensures Column(p, blockSize) < n
  {
    RowInside(p, n, blockSize);
  }

  /** The cached entry at position p of request b. */
  function Cached(cache: Cache, blockSize: nat, table: seq<seq<nat>>, lens: seq<nat>, b: nat, p: nat): Entry
    requires Paged(cache, blockSize, table, lens) && b < |table| && p < At(|table[b]|, blockSize)
  {
    ColumnInside(p, |table[b]|, blockSize);
    cache[table[b][Column(p, blockSize)]][p % blockSize]
  }

  /** _gather_k_torch: the contexts of all requests one after the other. */
  method GatherK(cache: Cache, blockSize: nat, table: seq<seq<nat>>, lens: seq<nat>) returns (keys: seq<Entry>)
    requires Paged(cache, blockSize, table, lens)
    ensures |keys| == Total(lens)
    ensures forall b, p | 0 <= b < |lens| && 0 <= p < lens[b] ::
              Flat(lens, b, p) < |keys| && keys[Flat(lens, b, p)] == Cached(cache, blockSize, table, lens, b, p)
  {
    var reqOf := Repeat(Arange(|lens|), lens);
    keys := [];
    for i := 0 to Total(lens)
      invariant |keys| == i
      invariant forall b, p | 0 <= b < |lens| && 0 <= p < lens[b] && Flat(lens, b, p) < i ::
        keys[Flat(lens, b, p)] == Cached(cache, blockSize, table, lens, b, p)
    {
      hide Cached, Paged;
      ghost var b, p := RequestOf(lens, |lens|, i);
      RepeatAt(Arange(|lens|), lens, |lens|, b, p);
      forall a, u | 0 <= a < |lens| && 0 <= u < lens[a] && Flat(lens, a, u) == i
        ensures a == b && u == p
      {
        SameToken(lens, a, u, b, p);
      }
      var e := ReadEntry(cache, blockSize, table, lens, reqOf[i], i - Offset(lens, reqOf[i]));
      keys := keys + [e];
    }
    forall b, p | 0 <= b < |lens| && 0 <= p < lens[b]
      ensures Flat(lens, b, p) < |keys|
    {
      Within(lens, b, p);
    }
  }

  method ReadEntry(cache: Cache, blockSize: nat, table: seq<seq<nat>>, lens: seq<nat>, b: nat, p: nat)
          returns (e: Entry)
    requires Paged(cache, blockSize, table, lens) && b < |table| && p < lens[b]
    ensures e == Cached(cache, blockSize, table, lens, b, p)
  {
    ColumnInside(p, |table[b]|, blockSize);
    var blkCol, off := p / blockSize, p % blockSize;
    e := cache[table[b][blkCol]][off];
  }

  // ---- Paged kernel -----------------------------------------------------------------------------------

  ghost predicate CacheShaped(qs: seq<Query>, cache: Cache) {
    forall m, i, o | 0 <= m < |qs| && 0 <= i < |cache| && 0 <= o < |cache[i]| :: Shaped(qs[m], cache[i][o])
  }

  lemma CachedShaped(qs: seq<Query>, cache: Cache, blockSize: nat, table: seq<seq<nat>>, lens: seq<nat>, m: nat,
                     b: nat, p: nat)
    requires Paged(cache, blockSize, table, lens) && CacheShaped(qs, cache)
    requires m < |qs| && b < |table| && p < At(|table[b]|, blockSize)
    ensures Shaped(qs[m], Cached(cache, blockSize, table, lens, b, p))
  {
    ColumnInside(p, |table[b]|, blockSize);
  }

  /** What the paged kernel leaves in column n of a token: its score up to its own position. */
  function PagedWanted(qs: seq<Query>, cache: Cache, blockSize: nat, table: seq<seq<nat>>, lens: seq<nat>, nextN: nat,
                       token: nat, n: nat): Logit
    requires Paged(cache, blockSize, table, lens) && CacheShaped(qs, cache) && nextN > 0
    requires token < |qs| && |qs| == |lens| * nextN && n < lens[BatchOf(qs, lens, nextN, token)]
  {
    var b := BatchOf(qs, lens, nextN, token);
    CachedShaped(qs, cache, blockSize, table, lens, token, b, n);
    if n <= lens[b] - nextN + token % nextN
    then Val(Score(qs[token], Cached(cache, blockSize, table, lens, b, n)))
    else NegInf
  }

  function BatchOf(qs: seq<Query>, lens: seq<nat>, nextN: nat, token: nat): (b: nat)
    requires nextN > 0 && token < |qs| == |lens| * nextN
    ensures b < |lens|
  {
    RowInside(token, |lens|, nextN);
    token / nextN
  }

  /** One program of _fp8_paged_mqa_logits_kernel: one token against one block. */
  method PagedProgram(qs: seq<Query>, cache: Cache, blockSize: nat, table: seq<seq<nat>>, lens: seq<nat>, nextN: nat,
                      token: nat, rk: nat, out: array2<Logit>)
    requires Paged(cache, blockSize, table, lens) && CacheShaped(qs, cache) && nextN > 0 && |qs| == |lens| * nextN
    requires token < |qs| == out.Length0 && (forall b | 0 <= b < |lens| :: lens[b] <= out.Length1)
    requires rk < |table[BatchOf(qs, lens, nextN, token)]|
    modifies out
    ensures forall r, n | 0 <= r < out.Length0 && 0 <= n < out.Length1 ::
              out[r, n] == if r == token && At(rk, blockSize) <= n < At(rk, blockSize) + blockSize
                  && n < lens[BatchOf(qs, lens, nextN, token)]
                           then PagedWanted(qs, cache, blockSize, table, lens, nextN, token, n) else old(out[r, n])
  {
    var b := BatchOf(qs, lens, nextN, token);
    var first := At(rk, blockSize);
    if first >= lens[b] {
      return;
    }
    var qOffset := lens[b] - nextN + token % nextN;
    var block := cache[table[b][rk]];
    forall n | first <= n < first + blockSize && n < lens[b]
      ensures n < At(|table[b]|, blockSize) && block[n - first] == Cached(cache, blockSize, table, lens, b, n)
      ensures Shaped(qs[token], block[n - first])
    {
      Arith.Split(rk, n - first, blockSize);
      CachedShaped(qs, cache, blockSize, table, lens, token, b, n);
    }
    hide Cached, Paged, Shaped, At, CacheShaped;
    forall n | first <= n < first + blockSize && n < lens[b] {
      out[token, n] := if n <= qOffset then Val(Score(qs[token], block[n - first])) else NegInf;
    }
  }

  /** fp8_paged_mqa_logits_triton over a buffer; columns beyond a context keep what the buffer held. */
  method PagedLogits(qs: seq<Query>, cache: Cache, blockSize: nat, table: seq<seq<nat>>, lens: seq<nat>, nextN: nat,
                     out: array2<Logit>)
    requires Paged(cache, blockSize, table, lens) && CacheShaped(qs, cache) && nextN > 0
    requires |qs| == |lens| * nextN == out.Length0
    requires forall b | 0 <= b < |lens| :: lens[b] <= out.Length1
    modifies out
    ensures forall t, n | 0 <= t < |qs| && 0 <= n < out.Length1 ::
              out[t, n] == if n < lens[BatchOf(qs, lens, nextN, t)]
                  then PagedWanted(qs, cache, blockSize, table, lens, nextN, t, n)
                           else old(out[t, n])
  {
    for token := 0 to |qs|
      invariant forall t, n | 0 <= t < |qs| && 0 <= n < out.Length1 ::
        out[t, n] == if t < token && n < lens[BatchOf(qs, lens, nextN, t)]
            then PagedWanted(qs, cache, blockSize, table, lens, nextN, t, n)
                     else old(out[t, n])
    {
      var b := BatchOf(qs, lens, nextN, token);
      ContextInside(cache, blockSize, table, lens, b);
      hide Paged, CacheShaped, BatchOf, PagedWanted, At;
      AtNext(0, blockSize);
      for rk := 0 to |table[b]|
        invariant forall t, n | 0 <= t < |qs| && 0 <= n < out.Length1 ::
          out[t, n] == if (t < token || (t == token && n < At(rk, blockSize))) && n < lens[BatchOf(qs, lens, nextN, t)]
                       then PagedWanted(qs, cache, blockSize, table, lens, nextN, t, n) else old(out[t, n])
      {
        AtNext(rk, blockSize);
        PagedProgram(qs, cache, blockSize, table, lens, nextN, token, rk, out);
      }
    }
  }

  lemma ContextInside(cache: Cache, blockSize: nat, table: seq<seq<nat>>, lens: seq<nat>, b: nat)
    requires Paged(cache, blockSize, table, lens) && b < |lens|
    ensures lens[b] <= At(|table[b]|, blockSize)
  {}

  /** keys is what GatherK returns. */
  ghost predicate GatheredKeys(cache: Cache, blockSize: nat, table: seq<seq<nat>>, lens: seq<nat>, keys: seq<Entry>)
    requires Paged(cache, blockSize, table, lens)
  {
    forall b, p | 0 <= b < |lens| && 0 <= p < lens[b] ::
      Flat(lens, b, p) < |keys| && keys[Flat(lens, b, p)] == Cached(cache, blockSize, table, lens, b, p)
  }

  /** First and one-past-last gathered key a token may score. */
  function RowStart(lens: seq<nat>, b: nat): nat
    requires b < |lens|
  {
    Offset(lens, b)
  }

  function RowStop(lens: seq<nat>, nextN: nat, b: nat, nid: nat): nat
    requires b < |lens|
  {
    if lens[b] + nid + 1 >= nextN then Offset(lens, b) + (lens[b] + nid + 1 - nextN) else Offset(lens, b)
  }

  /** Scoring through the block table equals gathering by the same table and scoring the row's range. */
  lemma PagedIsContiguous(qs: seq<Query>, cache: Cache, blockSize: nat, table: seq<seq<nat>>, lens: seq<nat>,
          nextN: nat,
                          keys: seq<Entry>, ks: seq<nat>, ke: seq<nat>, token: nat, n: nat)
    requires Paged(cache, blockSize, table, lens) && CacheShaped(qs, cache) && nextN > 0
    requires token < |qs| == |lens| * nextN && n < lens[BatchOf(qs, lens, nextN, token)]
    requires GatheredKeys(cache, blockSize, table, lens, keys) && AllShaped(qs, keys) && |ks| == |ke| == |qs|
    requires ks[token] == RowStart(lens, BatchOf(qs, lens, nextN, token))
    requires ke[token] == RowStop(lens, nextN, BatchOf(qs, lens, nextN, token), token % nextN)
    ensures ks[token] + n < |keys|
    ensures Wanted(qs, keys, ks, ke, token, ks[token] + n)
        == PagedWanted(qs, cache, blockSize, table, lens, nextN, token, n)
  {
    var b := BatchOf(qs, lens, nextN, token);
    hide Paged, Cached, CacheShaped, Shaped, BatchOf;
    assert Flat(lens, b, n) == ks[token] + n;
  }
}
