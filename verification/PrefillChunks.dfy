/** Splitting prefill requests into indexer chunks under a workspace and a logits budget. */
module PrefillChunks {
  import Arith

  datatype Slice = Slice(start: nat, stop: nat)
  datatype Chunk = Chunk(reqs: Slice, queries: Slice)

  /** The prefill requests of a step: compressed lengths, query lengths, budgets, first request. */
  datatype Batch = Batch(seqLens: seq<nat>, queryLens: seq<nat>, workspace: nat, maxLogitsBytes: nat, offset: nat)

  predicate Valid(batch: Batch) {
    |batch.seqLens| == |batch.queryLens|
  }

  function MaxElems(batch: Batch): nat {
    batch.maxLogitsBytes / 4
  }

  function Sum(s: seq<nat>, a: nat, b: nat): nat
    requires a <= b <= |s|
    decreases b
  {
    if a == b then 0 else Sum(s, a, b - 1) + s[b - 1]
  }

  /** Logits elements of m query rows against n keys. */
  function Logits(m: nat, n: nat): nat {
    m * n
  }

  /** The requests [a, b) together obey both budgets. */
  predicate Fits(batch: Batch, a: nat, b: nat)
    requires Valid(batch) && a <= b <= |batch.seqLens|
  {
    && Sum(batch.seqLens, a, b) <= batch.workspace
    && Logits(Sum(batch.queryLens, a, b), Sum(batch.seqLens, a, b)) <= MaxElems(batch)
  }

  /** Requests are taken while they fit. */
  function GroupEnd(batch: Batch, start: nat, end: nat): (e: nat)
    requires Valid(batch) && start <= end <= |batch.seqLens|
    ensures end <= e <= |batch.seqLens|
    decreases |batch.seqLens| - end
  {
    if end < |batch.seqLens| && Fits(batch, start, end + 1) then GroupEnd(batch, start, end + 1) else end
  }

  /** A request that does not fit alone is a group of its own. */
  function NextGroup(batch: Batch, start: nat): (e: nat)
    requires Valid(batch) && start < |batch.seqLens|
    ensures start < e <= |batch.seqLens|
  {
    if GroupEnd(batch, start, start) == start then start + 1 else GroupEnd(batch, start, start)
  }

  /** Query rows per chunk of a group of m rows and n keys. */
  function RowsPerChunk(batch: Batch, m: nat, n: nat): (r: nat)
    ensures r > 0
  {
    if n > 0 then (if MaxElems(batch) / n < 1 then 1 else MaxElems(batch) / n) else if m < 1 then 1 else m
  }

  function SubChunks(reqs: Slice, from: nat, m: nat, rows: nat): seq<Chunk>
    requires rows > 0
    decreases if from <= m then m - from else 0
  {
    if from >= m then []
    else
      [Chunk(reqs, Slice(from, from + if rows < m - from then rows else m - from))]
      + SubChunks(reqs, from + rows, m, rows)
  }

  function GroupChunks(batch: Batch, a: nat, b: nat): seq<Chunk>
    requires Valid(batch) && a <= b <= |batch.seqLens|
  {
    var m, n := Sum(batch.queryLens, a, b), Sum(batch.seqLens, a, b);
    SubChunks(Slice(a + batch.offset, b + batch.offset), 0, m, RowsPerChunk(batch, m, n))
  }

  function ChunksFrom(batch: Batch, start: nat): seq<Chunk>
    requires Valid(batch) && start <= |batch.seqLens|
    decreases |batch.seqLens| - start
  {
    if start == |batch.seqLens| then []
    else GroupChunks(batch, start, NextGroup(batch, start)) + ChunksFrom(batch, NextGroup(batch, start))
  }

  /** The inner loop: take requests from start while both budgets hold. */
  method TakeGroup(batch: Batch, start: nat) returns (end: nat, chunkM: nat, chunkN: nat)
    requires Valid(batch) && start < |batch.seqLens|
    ensures end == NextGroup(batch, start)
    ensures chunkM == Sum(batch.queryLens, start, end) && chunkN == Sum(batch.seqLens, start, end)
  {
    var n := |batch.seqLens|;
    end, chunkM, chunkN := start, 0, 0;
    while end < n
      invariant start <= end <= n
      invariant chunkM == Sum(batch.queryLens, start, end) && chunkN == Sum(batch.seqLens, start, end)
      invariant GroupEnd(batch, start, end) == GroupEnd(batch, start, start)
    {
      var newM, newN := chunkM + batch.queryLens[end], chunkN + batch.seqLens[end];
      if newN <= batch.workspace && Logits(newM, newN) <= MaxElems(batch) {
        chunkM, chunkN := newM, newN;
        end := end + 1;
      } else {
        break;
      }
    }
    assert end == GroupEnd(batch, start, start);
    if end == start {
      chunkM, chunkN := batch.queryLens[end], batch.seqLens[end];
      end := end + 1;
      assert Sum(batch.queryLens, start, start) == 0 && Sum(batch.seqLens, start, start) == 0;
    }
  }

  /** The loop over query offsets of one group. */
  method CutQueries(reqs: Slice, m: nat, maxQ: nat) returns (chunks: seq<Chunk>)
    requires maxQ > 0
    ensures chunks == SubChunks(reqs, 0, m, maxQ)
  {
    chunks := [];
    var qOff := 0;
    while qOff < m
      invariant chunks + SubChunks(reqs, qOff, m, maxQ) == SubChunks(reqs, 0, m, maxQ)
      decreases if qOff <= m then m - qOff else 0
    {
      var subM := if maxQ < m - qOff then maxQ else m - qOff;
      chunks := chunks + [Chunk(reqs, Slice(qOff, qOff + subM))];
      qOff := qOff + maxQ;
    }
  }

  /** split_indexer_prefill_chunks. */
  method SplitIndexerPrefillChunks(batch: Batch) returns (chunks: seq<Chunk>)
    requires Valid(batch)
    ensures chunks == ChunksFrom(batch, 0)
  {
    chunks := [];
    var end := 0;
    while end < |batch.seqLens|
      invariant end <= |batch.seqLens| && chunks + ChunksFrom(batch, end) == ChunksFrom(batch, 0)
    {
      var start := end;
      var chunkM, chunkN;
      end, chunkM, chunkN := TakeGroup(batch, start);
      var cut := CutQueries(Slice(start + batch.offset, end + batch.offset), chunkM,
          RowsPerChunk(batch, chunkM, chunkN));
      assert chunks + (cut + ChunksFrom(batch, end)) == (chunks + cut) + ChunksFrom(batch, end);
      chunks := chunks + cut;
    }
  }

  // ---- Every query row in exactly one chunk --------------------------------------------------------

  /** Chunk c scores query row t of request b. */
  predicate Scores(batch: Batch, c: Chunk, b: nat, t: nat)
    requires Valid(batch) && b < |batch.seqLens|
  {
    && c.reqs.start <= b + batch.offset < c.reqs.stop && batch.offset <= c.reqs.start
    && c.queries.start <= Sum(batch.queryLens, c.reqs.start - batch.offset, b) + t < c.queries.stop
  }

  function Count(batch: Batch, chunks: seq<Chunk>, b: nat, t: nat): nat
    requires Valid(batch) && b < |batch.seqLens|
  {
    if chunks == [] then 0 else (if Scores(batch, chunks[0], b, t) then 1 else 0) + Count(batch, chunks[1..], b, t)
  }

  lemma {:induction false} CountJoins(batch: Batch, x: seq<Chunk>, y: seq<Chunk>, b: nat, t: nat)
    requires Valid(batch) && b < |batch.seqLens|
    ensures Count(batch, x + y, b, t) == Count(batch, x, b, t) + Count(batch, y, b, t)
    decreases |x|
  {
    if x == [] {
      assert x + y == y;
    } else {
      CountJoins(batch, x[1..], y, b, t);
      assert (x + y)[1..] == x[1..] + y;
    }
  }

  lemma {:induction false} SumSplits(s: seq<nat>, a: nat, b: nat, c: nat)
    requires a <= b <= c <= |s|
    ensures Sum(s, a, c) == Sum(s, a, b) + Sum(s, b, c)
    decreases c
  {
    if b < c {
      SumSplits(s, a, b, c - 1);
    }
  }

  /** The slices of one group partition its query rows. */
  lemma {:induction false} SubChunksCount(batch: Batch, a: nat, e: nat, from: nat, m: nat, rows: nat, b: nat, t: nat)
    requires Valid(batch) && b < |batch.seqLens| && rows > 0
    ensures Count(batch, SubChunks(Slice(a + batch.offset, e + batch.offset), from, m, rows), b, t)
      == if a <= b < e && from <= Sum(batch.queryLens, a, b) + t < m then 1 else 0
    decreases if from <= m then m - from else 0
  {
    if from < m {
      SubChunksCount(batch, a, e, from + rows, m, rows, b, t);
      var all := SubChunks(Slice(a + batch.offset, e + batch.offset), from, m, rows);
      assert all[1..] == SubChunks(Slice(a + batch.offset, e + batch.offset), from + rows, m, rows);
    }
  }

  /** Every query row of every request is scored by exactly one chunk. */
  lemma {:induction false} RowInOneChunk(batch: Batch, start: nat, b: nat, t: nat)
    requires Valid(batch) && start <= |batch.seqLens| && b < |batch.seqLens| && t < batch.queryLens[b]
    ensures Count(batch, ChunksFrom(batch, start), b, t) == if start <= b then 1 else 0
    decreases |batch.seqLens| - start
  {
    if start < |batch.seqLens| {
      var e := NextGroup(batch, start);
      var m := Sum(batch.queryLens, start, e);
      RowInOneChunk(batch, e, b, t);
      CountJoins(batch, GroupChunks(batch, start, e), ChunksFrom(batch, e), b, t);
      SubChunksCount(batch, start, e, 0, m, RowsPerChunk(batch, m, Sum(batch.seqLens, start, e)), b, t);
      if start <= b < e {
        SumSplits(batch.queryLens, start, b, e);
        SumSplits(batch.queryLens, b, b + 1, e);
        assert Sum(batch.queryLens, b, b) == 0 && Sum(batch.queryLens, b, b + 1) == batch.queryLens[b];
      }
    }
  }

  // ---- Budgets -------------------------------------------------------------------------------------

  /** A chunk within its budgets, four bytes a logit; only a lone request may exceed the workspace, and only a
      single query row the logits.  A slice that leaves rows to the next has no room for one more. */
  ghost predicate Bounded(batch: Batch, c: Chunk)
    requires Valid(batch)
  {
    && batch.offset <= c.reqs.start < c.reqs.stop <= |batch.seqLens| + batch.offset
    && var a, b := c.reqs.start - batch.offset, c.reqs.stop - batch.offset;
    && c.queries.start < c.queries.stop <= Sum(batch.queryLens, a, b)
    && (Sum(batch.seqLens, a, b) <= batch.workspace || b == a + 1)
    && (Bytes(c.queries.stop - c.queries.start, Sum(batch.seqLens, a, b)) <= batch.maxLogitsBytes
         || c.queries.stop == c.queries.start + 1)
    && (c.queries.stop < Sum(batch.queryLens, a, b) ==>
         Bytes(c.queries.stop - c.queries.start + 1, Sum(batch.seqLens, a, b)) > batch.maxLogitsBytes)
    && (b > a + 1 ==> c.queries == Slice(0, Sum(batch.queryLens, a, b)))
  }

  /** The logits of m query rows against n keys in single precision. */
  function Bytes(m: nat, n: nat): nat {
    m * n * 4
  }

  ghost predicate AllBounded(batch: Batch, chunks: seq<Chunk>)
    requires Valid(batch)
  {
    forall i | 0 <= i < |chunks| :: Bounded(batch, chunks[i])
  }

  /** A group of several requests was admitted by its budgets, and is maximal. */
  lemma {:induction false} GroupFits(batch: Batch, start: nat, end: nat)
    requires Valid(batch) && start <= end <= |batch.seqLens| && (start < end ==> Fits(batch, start, end))
    ensures var e := GroupEnd(batch, start, end);
            (start < e ==> Fits(batch, start, e)) && (e < |batch.seqLens| ==> !Fits(batch, start, e + 1))
    decreases |batch.seqLens| - end
  {
    if end < |batch.seqLens| && Fits(batch, start, end + 1) {
      GroupFits(batch, start, end + 1);
    }
  }

  lemma BytesFit(batch: Batch, m: nat, n: nat)
    ensures Logits(m, n) <= MaxElems(batch) <==> Bytes(m, n) <= batch.maxLogitsBytes
  {}

  /** Cutting by max_elems / n keeps a slice within the budget unless it is one row, and one row more would
      break it. */
  lemma SliceWithin(batch: Batch, m: nat, n: nat, sub: nat)
    requires sub <= RowsPerChunk(batch, m, n)
    ensures Bytes(sub, n) <= batch.maxLogitsBytes || sub <= 1
    ensures sub == RowsPerChunk(batch, m, n) < m ==> Bytes(sub + 1, n) > batch.maxLogitsBytes
  {
    BytesFit(batch, sub, n);
    BytesFit(batch, sub + 1, n);
    if n > 0 {
      var most := MaxElems(batch) / n;
      Arith.DivBounds(MaxElems(batch), n);
      if sub <= most {
        Arith.MulLe(sub, most, n);
      }
      if most <= sub {
        Arith.MulLe(most + 1, sub + 1, n);
      }
    }
  }

  /** A whole group that fits is not cut. */
  lemma WholeWithin(batch: Batch, m: nat, n: nat)
    requires Logits(m, n) <= MaxElems(batch)
    ensures m <= RowsPerChunk(batch, m, n)
  {
    if n > 0 {
      Arith.DivMul(m, n);
      Arith.DivMono(m * n, MaxElems(batch), n);
    }
  }

  lemma {:induction false} SubChunksBounded(batch: Batch, a: nat, b: nat, from: nat)
    requires Valid(batch) && a < b <= |batch.seqLens|
    requires b > a + 1 ==> Fits(batch, a, b) && from == 0
    ensures var m, n := Sum(batch.queryLens, a, b), Sum(batch.seqLens, a, b);
            AllBounded(batch, SubChunks(Slice(a + batch.offset, b + batch.offset), from, m, RowsPerChunk(batch, m, n)))
    decreases Sum(batch.queryLens, a, b) - from
  {
    hide Logits, RowsPerChunk, MaxElems, Bytes;
    var m, n := Sum(batch.queryLens, a, b), Sum(batch.seqLens, a, b);
    var rows := RowsPerChunk(batch, m, n);
    var reqs := Slice(a + batch.offset, b + batch.offset);
    if from < m {
      var sub := if rows < m - from then rows else m - from;
      SliceWithin(batch, m, n, sub);
      if b > a + 1 {
        WholeWithin(batch, m, n);
        assert SubChunks(reqs, from + rows, m, rows) == [];
      } else {
        SubChunksBounded(batch, a, b, from + rows);
      }
    }
  }

  lemma {:induction false} ChunksBounded(batch: Batch, start: nat)
    requires Valid(batch) && start <= |batch.seqLens|
    ensures AllBounded(batch, ChunksFrom(batch, start))
    decreases |batch.seqLens| - start
  {
    hide Bounded, Fits;
    if start < |batch.seqLens| {
      var e := NextGroup(batch, start);
      GroupFits(batch, start, start);
      SubChunksBounded(batch, start, e, 0);
      ChunksBounded(batch, e);
    }
  }

  predicate WithinBudgets(batch: Batch, a: nat, b: nat)
    requires Valid(batch) && a <= b <= |batch.seqLens|
  {
    && Sum(batch.seqLens, a, b) <= batch.workspace
    && Bytes(Sum(batch.queryLens, a, b), Sum(batch.seqLens, a, b)) <= batch.maxLogitsBytes
  }

  /** A group is as long as its budgets allow: a second request joins only within both, and the request after the
      group would break one. */
  lemma GroupMaximal(batch: Batch, start: nat)
    requires Valid(batch) && start < |batch.seqLens|
    ensures var e := NextGroup(batch, start);
            && (e > start + 1 ==> WithinBudgets(batch, start, e))
            && (e < |batch.seqLens| ==> !WithinBudgets(batch, start, e + 1))
  {
    hide Logits, MaxElems, Bytes;
    var e := NextGroup(batch, start);
    GroupFits(batch, start, start);
    BytesFit(batch, Sum(batch.queryLens, start, e), Sum(batch.seqLens, start, e));
    if e < |batch.seqLens| {
      BytesFit(batch, Sum(batch.queryLens, start, e + 1), Sum(batch.seqLens, start, e + 1));
      if GroupEnd(batch, start, start) == start {
        LogitsGrow(Sum(batch.queryLens, start, e), Sum(batch.queryLens, start, e + 1), Sum(batch.seqLens, start, e),
                   Sum(batch.seqLens, start, e + 1));
      }
    }
  }

  lemma LogitsGrow(m: nat, m': nat, n: nat, n': nat)
    requires m <= m' && n <= n'
    ensures Logits(m, n) <= Logits(m', n')
  {
    Arith.MulLe(m, m', n);
    Arith.MulLe(n, n', m');
  }

  // ---- Order and reuse of the gathered keys ----------------------------------------------------------

  /** d may follow c: the next slice of the same requests, or the first slice of later ones. */
  ghost predicate Follows(batch: Batch, c: Chunk, d: Chunk)
    requires Valid(batch)
  {
    if d.queries.start > 0 then d.reqs == c.reqs && d.queries.start == c.queries.stop
    else
      && c.reqs.stop <= d.reqs.start
      && batch.offset <= c.reqs.start <= c.reqs.stop <= |batch.seqLens| + batch.offset
      && c.queries.stop == Sum(batch.queryLens, c.reqs.start - batch.offset, c.reqs.stop - batch.offset)
  }

  /** Chunks in order: a slice with start > 0, which reuses the gathered keys, directly follows the
      previous slice of the same requests. */
  ghost predicate InOrder(batch: Batch, chunks: seq<Chunk>)
    requires Valid(batch)
  {
    && (|chunks| > 0 ==> chunks[0].queries.start == 0)
    && (forall i, j | 0 <= i && j == i + 1 < |chunks| :: Follows(batch, chunks[i], chunks[j]))
  }

  /** Slices of one group from row from on: consecutive, up to the last row. */
  ghost predicate Consecutive(chunks: seq<Chunk>, reqs: Slice, from: nat, m: nat) {
    && (chunks == [] <==> from >= m)
    && (chunks != [] ==> chunks[0].queries.start == from && chunks[|chunks| - 1].queries.stop == m)
    && (forall i | 0 <= i < |chunks| :: chunks[i].reqs == reqs && (i > 0 ==> chunks[i].queries.start > 0))
    && (forall i, j | 0 <= i && j == i + 1 < |chunks| :: chunks[j].queries.start == chunks[i].queries.stop)
  }

  lemma {:induction false} SubChunksConsecutive(reqs: Slice, from: nat, m: nat, rows: nat)
    requires rows > 0
    ensures Consecutive(SubChunks(reqs, from, m, rows), reqs, from, m)
    decreases if from <= m then m - from else 0
  {
    if from < m {
      SubChunksConsecutive(reqs, from + rows, m, rows);
    }
  }

  lemma JoinInOrder(batch: Batch, x: seq<Chunk>, y: seq<Chunk>, a: nat, e: nat)
    requires Valid(batch) && a <= e <= |batch.seqLens| && InOrder(batch, y)
    requires Consecutive(x, Slice(a + batch.offset, e + batch.offset), 0, Sum(batch.queryLens, a, e))
    requires forall i | 0 <= i < |y| :: e + batch.offset <= y[i].reqs.start
    ensures InOrder(batch, x + y)
  {
    forall i, j | 0 <= i && j == i + 1 < |x + y|
      ensures Follows(batch, (x + y)[i], (x + y)[j])
    {
      if i >= |x| {
        assert Follows(batch, y[i - |x|], y[j - |x|]);
      } else if j < |x| {
        assert x[j].queries.start == x[i].queries.stop;
      }
    }
  }

  lemma {:induction false} ChunksInOrder(batch: Batch, start: nat)
    requires Valid(batch) && start <= |batch.seqLens|
    ensures InOrder(batch, ChunksFrom(batch, start))
    ensures forall i | 0 <= i < |ChunksFrom(batch, start)| ::
        start + batch.offset <= ChunksFrom(batch, start)[i].reqs.start
    decreases |batch.seqLens| - start
  {
    hide InOrder, Fits, GroupEnd, NextGroup, RowsPerChunk;
    if start < |batch.seqLens| {
      var e := NextGroup(batch, start);
      var m, n := Sum(batch.queryLens, start, e), Sum(batch.seqLens, start, e);
      SubChunksConsecutive(Slice(start + batch.offset, e + batch.offset), 0, m, RowsPerChunk(batch, m, n));
      ChunksInOrder(batch, e);
      JoinInOrder(batch, GroupChunks(batch, start, e), ChunksFrom(batch, e), start, e);
    } else {
      NoneInOrder(batch);
    }
  }

  lemma NoneInOrder(batch: Batch)
    requires Valid(batch)
    ensures InOrder(batch, [])
  {}
}
