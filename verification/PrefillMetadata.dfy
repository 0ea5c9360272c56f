/** The key range each query row of a prefill chunk scores, within the keys gathered for the chunk. */
module PrefillMetadata {
  import Arith
  import opened ContextParallel

  /** The requests of one chunk: query offsets (one more than requests), lengths before compression,
      tokens per cached entry, and the slice of query rows.  world 1 means no context parallelism. */
  datatype Meta = Meta(queryStart: seq<nat>, seqLens: seq<nat>, ratio: nat, group: Group, rank: nat,
                       sliceStart: nat, sliceStop: nat)

  ghost predicate Valid(meta: Meta) {
    && meta.ratio > 0 && ContextParallel.Valid(meta.group) && meta.rank < meta.group.world
    && |meta.queryStart| == |meta.seqLens| + 1 && meta.queryStart[0] == 0
    && (forall b | 0 <= b < |meta.seqLens| ::
          meta.queryStart[b] <= meta.queryStart[b + 1] <= meta.queryStart[b] + meta.seqLens[b])
    && meta.sliceStart <= meta.sliceStop <= meta.queryStart[|meta.seqLens|]
  }

  function Compressed(meta: Meta, b: nat): nat
    requires meta.ratio > 0 && b < |meta.seqLens|
  {
    meta.seqLens[b] / meta.ratio
  }

  /** Length kept on this rank. */
  function Local(meta: Meta, len: nat): nat
    requires ContextParallel.Valid(meta.group)
  {
    if meta.group.world > 1 then LocalLen(meta.group, meta.rank, len) else len
  }

  /** Cumulative compressed lengths, as gathered (local) or over all ranks. */
  function Cumulative(meta: Meta, local: bool, b: nat): nat
    requires meta.ratio > 0 && ContextParallel.Valid(meta.group) && b <= |meta.seqLens|
  {
    if b == 0 then 0
    else Cumulative(meta, local, b - 1) + if local then Local(meta, Compressed(meta, b - 1))
        else Compressed(meta, b - 1)
  }

  /** Request b holds query row r of the slice. */
  predicate Holds(meta: Meta, b: nat, r: nat)
    requires |meta.queryStart| == |meta.seqLens| + 1 && b < |meta.seqLens|
  {
    meta.queryStart[b] <= r + meta.sliceStart < meta.queryStart[b + 1] && r + meta.sliceStart < meta.sliceStop
  }

  /** The compressed context of the token at a query offset of request b. */
  function Context(meta: Meta, b: nat, offset: nat): nat
    requires Valid(meta) && b < |meta.seqLens| && offset < meta.queryStart[b + 1] - meta.queryStart[b]
  {
    var queryLen := meta.queryStart[b + 1] - meta.queryStart[b];
    (meta.seqLens[b] - queryLen + 1 + offset) / meta.ratio
  }

  /** The row of [ks, ke) for query row r of request b. */
  function Ks(meta: Meta, b: nat): nat
    requires Valid(meta) && b < |meta.seqLens|
  {
    Cumulative(meta, true, b)
  }

  function Ke(meta: Meta, b: nat, r: nat): nat
    requires Valid(meta) && b < |meta.seqLens| && Holds(meta, b, r)
  {
    Cumulative(meta, true, b) + Local(meta, Context(meta, b, r + meta.sliceStart - meta.queryStart[b]))
  }

  /** One program of the kernel: the rows and gathered entries of request b. */
  method Program(meta: Meta, b: nat, block: nat, ks: array<nat>, ke: array<nat>, tokenToSeq: array<nat>)
    requires Valid(meta) && b < |meta.seqLens| && block > 0
    requires ks != ke && ks != tokenToSeq && ke != tokenToSeq
    requires ks.Length == ke.Length == meta.sliceStop - meta.sliceStart
    requires Cumulative(meta, false, b + 1) <= tokenToSeq.Length
    modifies ks, ke, tokenToSeq
    ensures forall r | 0 <= r < ks.Length :: if Holds(meta, b, r) then ks[r] == Ks(meta, b) && ke[r] == Ke(meta, b, r)
                                            else ks[r] == old(ks[r]) && ke[r] == old(ke[r])
    ensures forall e | 0 <= e < tokenToSeq.Length ::
              tokenToSeq[e] == if Cumulative(meta, false, b) <= e < Cumulative(meta, false, b + 1) then b
                  else old(tokenToSeq[e])
  {
    hide Local, Context, Cumulative;
    var first, queryLen := meta.queryStart[b], meta.queryStart[b + 1] - meta.queryStart[b];
    var rowStart := Cumulative(meta, true, b);
    var i := 0;
    while i < queryLen
      invariant forall r | 0 <= r < ks.Length ::
        if Holds(meta, b, r) && r + meta.sliceStart - first < i then ks[r] == Ks(meta, b) && ke[r] == Ke(meta, b, r)
        else ks[r] == old(ks[r]) && ke[r] == old(ke[r])
      invariant forall e | 0 <= e < tokenToSeq.Length :: tokenToSeq[e] == old(tokenToSeq[e])
      decreases if i <= queryLen then queryLen - i else 0
    {
      forall r | 0 <= r < ks.Length && Holds(meta, b, r) && i <= r + meta.sliceStart - first < i + block {
        ks[r] := rowStart;
      }
      forall r | 0 <= r < ks.Length && Holds(meta, b, r) && i <= r + meta.sliceStart - first < i + block {
        ke[r] := rowStart + Local(meta, Context(meta, b, r + meta.sliceStart - first));
      }
      i := i + block;
    }
    var start, len := Cumulative(meta, false, b), Compressed(meta, b);
    CumulativeNext(meta, false, b);
    i := 0;
    while i < len
      invariant forall r | 0 <= r < ks.Length ::
                  if Holds(meta, b, r) then ks[r] == Ks(meta, b) && ke[r] == Ke(meta, b, r)
                                                else ks[r] == old(ks[r]) && ke[r] == old(ke[r])
      invariant forall e | 0 <= e < tokenToSeq.Length ::
        tokenToSeq[e] == if start <= e < start + i && e < start + len then b else old(tokenToSeq[e])
      decreases if i <= len then len - i else 0
    {
      forall e | start + i <= e < start + i + block && e < start + len {
        tokenToSeq[e] := b;
      }
      i := i + block;
    }
  }

  lemma CumulativeNext(meta: Meta, local: bool, b: nat)
    requires meta.ratio > 0 && ContextParallel.Valid(meta.group) && b < |meta.seqLens|
    ensures Cumulative(meta, local, b + 1)
         == Cumulative(meta, local, b) + if local then Local(meta, Compressed(meta, b)) else Compressed(meta, b)
  {}

  lemma {:induction false} CumulativeGrows(meta: Meta, local: bool, a: nat, b: nat)
    requires meta.ratio > 0 && ContextParallel.Valid(meta.group) && a <= b <= |meta.seqLens|
    ensures Cumulative(meta, local, a) <= Cumulative(meta, local, b)
    decreases b
  {
    if a < b {
      CumulativeGrows(meta, local, a, b - 1);
    }
  }

  lemma {:induction false} StartsGrow(meta: Meta, a: nat, b: nat)
    requires Valid(meta) && a <= b <= |meta.seqLens|
    ensures meta.queryStart[a] <= meta.queryStart[b]
    decreases b
  {
    if a < b {
      StartsGrow(meta, a, b - 1);
    }
  }

  lemma HeldOnce(meta: Meta, a: nat, b: nat, r: nat)
    requires Valid(meta) && a < |meta.seqLens| && b < |meta.seqLens| && Holds(meta, a, r) && Holds(meta, b, r)
    ensures a == b
  {
    if a < b {
      StartsGrow(meta, a + 1, b);
    } else if b < a {
      StartsGrow(meta, b + 1, a);
    }
  }

  lemma {:induction false} HeldBy(meta: Meta, r: nat, n: nat) returns (b: nat)
    requires Valid(meta) && n <= |meta.seqLens| && r + meta.sliceStart < meta.sliceStop
    requires r + meta.sliceStart < meta.queryStart[n]
    ensures b < n && Holds(meta, b, r)
  {
    if r + meta.sliceStart < meta.queryStart[n - 1] {
      b := HeldBy(meta, r, n - 1);
    } else {
      b := n - 1;
    }
  }

  /** Every row of the slice was written for its request, and every gathered entry names its request. */
  ghost predicate Complete(meta: Meta, ks: seq<nat>, ke: seq<nat>, tokenToSeq: seq<nat>)
    requires Valid(meta)
  {
    && |ks| == |ke| == meta.sliceStop - meta.sliceStart && |tokenToSeq| == Cumulative(meta, false, |meta.seqLens|)
    && (forall b, r | 0 <= b < |meta.seqLens| && 0 <= r < |ks| && Holds(meta, b, r) ::
         ks[r] == Ks(meta, b) && ke[r] == Ke(meta, b, r))
    && (forall b, e | 0 <= b < |meta.seqLens| && 0 <= e < |tokenToSeq| && Gathers(meta, b, e) :: tokenToSeq[e] == b)
  }

  ghost predicate Gathers(meta: Meta, b: nat, e: nat)
    requires Valid(meta) && b < |meta.seqLens|
  {
    Cumulative(meta, false, b) <= e < Cumulative(meta, false, b + 1)
  }

  /** The launch: one program per request. */
  method BuildPrefillChunkMetadata(meta: Meta, block: nat) returns (ks: array<nat>, ke: array<nat>,
                                   tokenToSeq: array<nat>)
    requires Valid(meta) && block > 0
    ensures Complete(meta, ks[..], ke[..], tokenToSeq[..])
  {
    ks, ke := new nat[meta.sliceStop - meta.sliceStart], new nat[meta.sliceStop - meta.sliceStart];
    tokenToSeq := new nat[Cumulative(meta, false, |meta.seqLens|)];
    for b := 0 to |meta.seqLens|
      invariant forall a, r | 0 <= a < b && 0 <= r < ks.Length && Holds(meta, a, r) ::
          ks[r] == Ks(meta, a) && ke[r] == Ke(meta, a, r)
      invariant forall a, e | 0 <= a < b && 0 <= e < tokenToSeq.Length && Gathers(meta, a, e) :: tokenToSeq[e] == a
    {
      CumulativeGrows(meta, false, b + 1, |meta.seqLens|);
      forall a, r | 0 <= a < b && 0 <= r < ks.Length && Holds(meta, a, r)
        ensures !Holds(meta, b, r)
      {
        if Holds(meta, b, r) {
          HeldOnce(meta, a, b, r);
        }
      }
      forall a, e | 0 <= a < b && 0 <= e < tokenToSeq.Length && Gathers(meta, a, e)
        ensures !Gathers(meta, b, e)
      {
        CumulativeGrows(meta, false, a + 1, b);
      }
      hide Holds, Gathers, Cumulative, Ks, Ke;
      Program(meta, b, block, ks, ke, tokenToSeq);
    }
  }

  lemma LocalMono(meta: Meta, m: nat, n: nat)
    requires ContextParallel.Valid(meta.group) && meta.rank < meta.group.world && m <= n
    ensures Local(meta, m) <= Local(meta, n)
  {
    LocalLenCounts(meta.group, meta.rank, m);
    LocalLenCounts(meta.group, meta.rank, n);
    OwnedGrows(meta.group, meta.rank, m, n);
  }

  /** Every row of the slice belongs to one request, and its range stays inside the entries gathered
      for that request and counts those its token may see. */
  lemma RowInsideRequest(meta: Meta, r: nat) returns (b: nat)
    requires Valid(meta) && r < meta.sliceStop - meta.sliceStart
    ensures b < |meta.seqLens| && Holds(meta, b, r)
        && (forall a | 0 <= a < |meta.seqLens| && Holds(meta, a, r) :: a == b)
    ensures Cumulative(meta, true, b) == Ks(meta, b) <= Ke(meta, b, r) <= Cumulative(meta, true, b + 1)
    ensures Cumulative(meta, true, b + 1) <= Cumulative(meta, true, |meta.seqLens|)
  {
    b := HeldBy(meta, r, |meta.seqLens|);
    forall a | 0 <= a < |meta.seqLens| && Holds(meta, a, r)
      ensures a == b
    {
      HeldOnce(meta, a, b, r);
    }
    var offset := r + meta.sliceStart - meta.queryStart[b];
    Arith.DivMono(meta.seqLens[b] - (meta.queryStart[b + 1] - meta.queryStart[b]) + 1 + offset, meta.seqLens[b],
        meta.ratio);
    LocalMono(meta, Context(meta, b, offset), Compressed(meta, b));
    CumulativeGrows(meta, true, b + 1, |meta.seqLens|);
  }

  // ---- What a row sees ---------------------------------------------------------------------------------

  /** The compressed entries this rank keeps whose tokens are all among the first n of a request. */
  ghost function Visible(meta: Meta, n: nat): set<nat>
    requires Valid(meta)
  {
    set e: nat | e < n && (e + 1) * meta.ratio <= n && Owner(meta.group, e) == meta.rank
  }

  /** The owned entries below n. */
  ghost function OwnedBelow(meta: Meta, n: nat): set<nat>
    requires Valid(meta)
  {
    set e: nat | e < n && Owner(meta.group, e) == meta.rank
  }

  lemma {:induction false} LocalIsOwned(meta: Meta, n: nat)
    requires Valid(meta)
    ensures Local(meta, n) == |OwnedBelow(meta, n)|
  {
    hide Owner, LocalLen;
    if meta.group.world > 1 {
      LocalLenCounts(meta.group, meta.rank, n);
    } else {
      OnlyOwner(meta, n);
    }
    OwnedSet(meta, n);
  }

  /** Without context parallelism the rank owns every entry. */
  lemma {:induction false} OnlyOwner(meta: Meta, n: nat)
    requires Valid(meta) && meta.group.world == 1
    ensures Owned(meta.group, meta.rank, n) == n
  {
    if n > 0 {
      OnlyOwner(meta, n - 1);
      OwnerBound(meta.group, n - 1);
    }
  }

  lemma {:induction false} OwnedSet(meta: Meta, n: nat)
    requires Valid(meta)
    ensures Owned(meta.group, meta.rank, n) == |OwnedBelow(meta, n)|
  {
    hide Owner;
    if n > 0 {
      OwnedSet(meta, n - 1);
      assert OwnedBelow(meta, n)
        == OwnedBelow(meta, n - 1) + if Owner(meta.group, n - 1) == meta.rank then {n - 1} else {};
    }
  }

  lemma EntryBelow(e: nat, ratio: nat, ctx: nat)
    requires ratio > 0
    ensures (e + 1) * ratio <= ctx <==> e < ctx / ratio
    ensures (e + 1) * ratio <= ctx ==> e < ctx
  {
    Arith.DivBounds(ctx, ratio);
    if e < ctx / ratio {
      Arith.MulLe(e + 1, ctx / ratio, ratio);
    }
    if (e + 1) * ratio <= ctx {
      Arith.DivMono((e + 1) * ratio, ctx, ratio);
      Arith.DivMul(e + 1, ratio);
      Arith.MulLe(1, ratio, e + 1);
    }
  }

  lemma LocalIsVisible(meta: Meta, n: nat)
    requires Valid(meta)
    ensures Local(meta, n / meta.ratio) == |Visible(meta, n)|
  {
    LocalIsOwned(meta, n / meta.ratio);
    hide Owner, Local;
    forall e: nat
      ensures e in Visible(meta, n) <==> e in OwnedBelow(meta, n / meta.ratio)
    {
      EntryBelow(e, meta.ratio, n);
    }
    assert Visible(meta, n) == OwnedBelow(meta, n / meta.ratio);
  }

  /** A query row scores exactly as many entries as its own position can see on this rank: those compressed from
      tokens up to and including its own. */
  lemma RowCountsVisible(meta: Meta, b: nat, r: nat)
    requires Valid(meta) && b < |meta.seqLens| && Holds(meta, b, r)
    ensures var queryLen := meta.queryStart[b + 1] - meta.queryStart[b];
            var pos: nat := meta.seqLens[b] - queryLen + (r + meta.sliceStart - meta.queryStart[b]);
            Ke(meta, b, r) - Ks(meta, b) == |Visible(meta, pos + 1)|
  {
    hide Local, Cumulative, Visible;
    var queryLen := meta.queryStart[b + 1] - meta.queryStart[b];
    LocalIsVisible(meta, meta.seqLens[b] - queryLen + (r + meta.sliceStart - meta.queryStart[b]) + 1);
  }

  /** A request's gathered entries are those of its whole context: its last query row sees them all. */
  lemma GatheredIsVisible(meta: Meta, b: nat)
    requires Valid(meta) && b < |meta.seqLens|
    ensures Cumulative(meta, true, 0) == Cumulative(meta, false, 0) == 0
    ensures Cumulative(meta, true, b + 1) == Cumulative(meta, true, b) + |Visible(meta, meta.seqLens[b])|
    ensures forall r: nat | Holds(meta, b, r) && r + meta.sliceStart + 1 == meta.queryStart[b + 1] ::
              Ke(meta, b, r) == Cumulative(meta, true, b + 1)
  {
    hide Local, Visible;
    LocalIsVisible(meta, meta.seqLens[b]);
    CumulativeNext(meta, true, b);
  }

  /** Over all ranks, the entries whose tokens are all in the context. */
  lemma AllEntries(meta: Meta, b: nat, e: nat)
    requires Valid(meta) && b < |meta.seqLens|
    ensures Cumulative(meta, false, b) + e < Cumulative(meta, false, b + 1)
       <==> (e + 1) * meta.ratio <= meta.seqLens[b]
  {
    CumulativeNext(meta, false, b);
    EntryBelow(e, meta.ratio, meta.seqLens[b]);
  }
}
