/** Selecting the top K of a score row that is sharded over ranks. */
module DistributedTopK {
  import opened ContextParallel

  datatype Candidate = Candidate(score: real, id: nat)

  /** a is preferred to b: higher score, then lower id. */
  predicate Above(a: Candidate, b: Candidate) {
    a.score > b.score || (a.score == b.score && a.id < b.id)
  }

  function Better(s: set<Candidate>, x: Candidate): set<Candidate> {
    set y | y in s && Above(y, x)
  }

  /** The k most preferred candidates: those with fewer than k above them. */
  function TopK(s: set<Candidate>, k: nat): set<Candidate> {
    set x | x in s && |Better(s, x)| < k
  }

  lemma Subset<T>(a: set<T>, b: set<T>)
    requires a <= b
    ensures |a| <= |b|
  {
    assert b == a + (b - a);
  }

  lemma {:induction false} Least(s: set<Candidate>) returns (m: Candidate)
    requires s != {}
    ensures m in s && forall x <- s :: x == m || Above(x, m)
    decreases |s|
  {
    m :| m in s;
    if s != {m} {
      var t := s - {m};
      assert s == t + {m};
      var n := Least(t);
      if Above(m, n) {
        m := n;
      }
    }
  }

  /** Dropping the least candidate of a large set keeps the top k. */
  lemma DropLeast(s: set<Candidate>, m: Candidate, k: nat)
    requires m in s && (forall x <- s :: x == m || Above(x, m))
    ensures TopK(s - {m}, k) <= TopK(s, k)
  {
    forall x | x in TopK(s - {m}, k)
      ensures x in TopK(s, k)
    {
      assert Better(s, x) == Better(s - {m}, x);
    }
  }

  /** A set of at least k candidates has at least k on top. */
  lemma {:induction false} TopKFull(s: set<Candidate>, k: nat)
    requires k <= |s|
    ensures |TopK(s, k)| >= k
    decreases |s|
  {
    if |s| > k {
      var m := Least(s);
      TopKFull(s - {m}, k);
      DropLeast(s, m, k);
      Subset(TopK(s - {m}, k), TopK(s, k));
    } else {
      forall x | x in s
        ensures x in TopK(s, k)
      {
        assert x !in Better(s, x);
        Subset(Better(s, x), s - {x});
      }
      assert TopK(s, k) == s;
    }
  }

  /** And never more: a selection has exactly k candidates, or all there are. */
  lemma TopKSize(s: set<Candidate>, k: nat)
    ensures |TopK(s, k)| == if |s| < k then |s| else k
    ensures |s| <= k ==> TopK(s, k) == s
  {
    var t := TopK(s, k);
    if |s| <= k {
      forall x | x in s
        ensures x in t
      {
        Subset(Better(s, x), s - {x});
      }
      assert t == s;
    } else {
      TopKFull(s, k);
      if |t| > k {
        var m := Least(t);
        Subset(t - {m}, Better(s, m));
        assert false;
      }
    }
  }

  /** What is on top of a whole is on top of any part that holds it. */
  lemma TopOfPart(part: set<Candidate>, s: set<Candidate>, k: nat, x: Candidate)
    requires part <= s && x in part && x in TopK(s, k)
    ensures x in TopK(part, k)
  {
    Subset(Better(part, x), Better(s, x));
  }

  /** Selecting from any set between the top k and the whole gives the top k. */
  lemma Sandwich(u: set<Candidate>, s: set<Candidate>, k: nat)
    requires TopK(s, k) <= u <= s
    ensures TopK(u, k) == TopK(s, k)
  {
    forall x | x in u
      ensures x in TopK(u, k) <==> x in TopK(s, k)
    {
      if x in TopK(s, k) {
        TopOfPart(u, s, k, x);
      } else {
        var a := Better(s, x);
        TopKFull(a, k);
        forall y | y in TopK(a, k)
          ensures y in Better(u, x)
        {
          assert Better(s, y) == Better(a, y);
        }
        Subset(TopK(a, k), Better(u, x));
      }
    }
  }

  /** What the all-gather brings together: the local top k of the first ranks shards. */
  function Gathered(shards: seq<set<Candidate>>, k: nat): set<Candidate> {
    if shards == [] then {} else Gathered(shards[..|shards| - 1], k) + TopK(shards[|shards| - 1], k)
  }

  function Union(shards: seq<set<Candidate>>): set<Candidate> {
    if shards == [] then {} else Union(shards[..|shards| - 1]) + shards[|shards| - 1]
  }

  lemma {:induction false} GatheredKeeps(shards: seq<set<Candidate>>, s: set<Candidate>, k: nat)
    requires Union(shards) <= s
    ensures Gathered(shards, k) <= Union(shards)
    ensures forall x | x in Union(shards) && x in TopK(s, k) :: x in Gathered(shards, k)
    decreases |shards|
  {
    if shards != [] {
      GatheredKeeps(shards[..|shards| - 1], s, k);
      var last := shards[|shards| - 1];
      forall x | x in last && x in TopK(s, k)
        ensures x in TopK(last, k)
      {
        TopOfPart(last, s, k, x);
      }
    }
  }

  /** For any number of ranks and any sharding, the merged selection is the global one. */
  lemma MergeIsGlobal(shards: seq<set<Candidate>>, k: nat)
    ensures TopK(Gathered(shards, k), k) == TopK(Union(shards), k)
  {
    GatheredKeeps(shards, Union(shards), k);
    Sandwich(Gathered(shards, k), Union(shards), k);
  }

  // ---- Shards of one score row --------------------------------------------------------------------

  /** The candidates of a context of length len. */
  function Row(score: nat -> real, len: nat): set<Candidate> {
    set g: nat | g < len :: Candidate(score(g), g)
  }

  /** The candidates a rank scores: its local context, by local index. */
  function LocalRow(group: Group, rank: nat, score: nat -> real, len: nat): set<Candidate>
    requires Valid(group)
  {
    set j: nat | j < LocalLen(group, rank, len) :: Candidate(score(GlobalId(group, rank, j)), j)
  }

  function Globalized(group: Group, rank: nat, x: Candidate): Candidate
    requires Valid(group)
  {
    Candidate(x.score, GlobalId(group, rank, x.id))
  }

  /** The pack kernel: local indices become global ids, scores stay. */
  function Pack(group: Group, rank: nat, s: set<Candidate>): set<Candidate>
    requires Valid(group)
  {
    set x | x in s :: Globalized(group, rank, x)
  }

  /** A rank's part of the row under global ids. */
  function Shard(group: Group, rank: nat, score: nat -> real, len: nat): set<Candidate>
    requires Valid(group)
  {
    Pack(group, rank, LocalRow(group, rank, score, len))
  }

  function Shards(group: Group, score: nat -> real, len: nat): seq<set<Candidate>>
    requires Valid(group)
  {
    seq(group.world, r requires 0 <= r < group.world => Shard(group, r, score, len))
  }

  lemma {:induction false} InUnion(shards: seq<set<Candidate>>, x: Candidate)
    ensures x in Union(shards) <==> exists i | 0 <= i < |shards| :: x in shards[i]
    decreases |shards|
  {
    if shards != [] {
      var rest := shards[..|shards| - 1];
      InUnion(rest, x);
      if exists i | 0 <= i < |shards| :: x in shards[i] {
        var i :| 0 <= i < |shards| && x in shards[i];
        if i < |rest| {
          assert x in rest[i];
        }
      }
    }
  }

  /** The local contexts of all ranks hold the whole row, each token once. */
  lemma ShardsCover(group: Group, score: nat -> real, len: nat)
    requires Valid(group)
    ensures Union(Shards(group, score, len)) == Row(score, len)
  {
    hide LocalLen, GlobalId, LocalId, Owner;
    var shards := Shards(group, score, len);
    forall x: Candidate
      ensures x in Union(shards) <==> x in Row(score, len)
    {
      InUnion(shards, x);
      if x in Row(score, len) {
        var r, j := Owner(group, x.id), LocalId(group, x.id);
        OwnerBound(group, x.id);
        OwnedIsGlobal(group, x.id);
        LocalPrefix(group, r, j, len);
        assert Candidate(x.score, j) in LocalRow(group, r, score, len);
        assert x == Globalized(group, r, Candidate(x.score, j)) && x in shards[r];
      }
      if x in Union(shards) {
        var r :| 0 <= r < |shards| && x in shards[r];
        var j: nat :| j < LocalLen(group, r, len)
            && x == Globalized(group, r, Candidate(score(GlobalId(group, r, j)), j));
        LocalPrefix(group, r, j, len);
      }
    }
  }

  lemma GlobalizedAlike(group: Group, rank: nat, x: Candidate, y: Candidate)
    requires Valid(group) && rank < group.world
    ensures Above(x, y) <==> Above(Globalized(group, rank, x), Globalized(group, rank, y))
    ensures Globalized(group, rank, x) == Globalized(group, rank, y) <==> x == y
  {
    hide GlobalId;
    GlobalIdOrder(group, rank, x.id, y.id);
    GlobalIdOrder(group, rank, y.id, x.id);
  }

  lemma {:induction false} PackSize(group: Group, rank: nat, s: set<Candidate>)
    requires Valid(group) && rank < group.world
    ensures |Pack(group, rank, s)| == |s|
    decreases |s|
  {
    hide GlobalId;
    if s != {} {
      var x :| x in s;
      PackSize(group, rank, s - {x});
      forall y | y in s && y != x
        ensures Globalized(group, rank, y) != Globalized(group, rank, x)
      {
        GlobalizedAlike(group, rank, x, y);
      }
      assert Pack(group, rank, s) == Pack(group, rank, s - {x}) + {Globalized(group, rank, x)};
    }
  }

  /** Selecting by local indices and converting is selecting by global ids. */
  lemma PackedTopK(group: Group, rank: nat, s: set<Candidate>, k: nat)
    requires Valid(group) && rank < group.world
    ensures Pack(group, rank, TopK(s, k)) == TopK(Pack(group, rank, s), k)
  {
    hide GlobalId, Globalized, Above;
    forall x | x in s
      ensures x in TopK(s, k) <==> Globalized(group, rank, x) in TopK(Pack(group, rank, s), k)
    {
      forall y | y in s
        ensures Above(y, x) <==> Above(Globalized(group, rank, y), Globalized(group, rank, x))
      {
        GlobalizedAlike(group, rank, y, x);
      }
      assert Pack(group, rank, Better(s, x)) == Better(Pack(group, rank, s), Globalized(group, rank, x));
      PackSize(group, rank, Better(s, x));
    }
    forall x, y | x in s && y in s && Globalized(group, rank, x) == Globalized(group, rank, y)
      ensures x == y
    {
      GlobalizedAlike(group, rank, x, y);
    }
  }

  /** What the all-gather brings together: each rank's top k by local index, packed with global ids. */
  function Packed(group: Group, score: nat -> real, len: nat, k: nat, ranks: nat): set<Candidate>
    requires Valid(group)
  {
    if ranks == 0 then {}
    else
      Packed(group, score, len, k, ranks - 1)
      + Pack(group, ranks - 1, TopK(LocalRow(group, ranks - 1, score, len), k))
  }

  lemma {:induction false} PackedIsGathered(group: Group, score: nat -> real, len: nat, k: nat, ranks: nat)
    requires Valid(group) && ranks <= group.world
    ensures Packed(group, score, len, k, ranks) == Gathered(Shards(group, score, len)[..ranks], k)
  {
    hide TopK, LocalRow, Pack;
    if ranks > 0 {
      PackedIsGathered(group, score, len, k, ranks - 1);
      var shards := Shards(group, score, len);
      assert shards[..ranks][..ranks - 1] == shards[..ranks - 1];
      PackedTopK(group, ranks - 1, LocalRow(group, ranks - 1, score, len), k);
    }
  }

  /** _merge_dcp_topk_global: each rank selects its top k by local index and sends them under global ids;
      the top k of what arrives are the k best of the whole row, or all of a shorter row. */
  lemma MergeDcpTopK(group: Group, score: nat -> real, len: nat, k: nat)
    requires Valid(group)
    ensures TopK(Packed(group, score, len, k, group.world), k) == TopK(Row(score, len), k)
    ensures |TopK(Row(score, len), k)| == if len < k then len else k
  {
    var shards := Shards(group, score, len);
    PackedIsGathered(group, score, len, k, group.world);
    assert shards[..group.world] == shards;
    ShardsCover(group, score, len);
    MergeIsGlobal(shards, k);
    RowSize(score, len);
    TopKSize(Row(score, len), k);
  }

  lemma {:induction false} RowSize(score: nat -> real, len: nat)
    ensures |Row(score, len)| == len
  {
    if len > 0 {
      RowSize(score, len - 1);
      assert Row(score, len) == Row(score, len - 1) + {Candidate(score(len - 1), len - 1)};
    }
  }

  /** What is on top is above what is not. */
  lemma TopAbove(s: set<Candidate>, x: Candidate, y: Candidate, k: nat)
    requires x in TopK(s, k) && y in s && y !in TopK(s, k)
    ensures Above(x, y)
  {
    if !Above(x, y) {
      assert Better(s, y) <= Better(s, x);
      Subset(Better(s, y), Better(s, x));
    }
  }

  /** In plain terms: the merged selection is the part of the row, of size k or all of it, in which every token
      scores at least as high as every token left out, and has the lower id where they score alike. */
  lemma MergedKeepsHighest(group: Group, score: nat -> real, len: nat, k: nat, g: nat, h: nat)
    requires Valid(group) && g < len && h < len
    requires Candidate(score(g), g) in TopK(Packed(group, score, len, k, group.world), k)
    requires Candidate(score(h), h) !in TopK(Packed(group, score, len, k, group.world), k)
    ensures score(g) >= score(h) && (score(g) == score(h) ==> g < h)
  {
    hide TopK, Packed;
    MergeDcpTopK(group, score, len, k);
    TopAbove(Row(score, len), Candidate(score(g), g), Candidate(score(h), h), k);
  }

  /** And no other set of tokens of that size has this property. */
  lemma OnlyHighest(score: nat -> real, len: nat, k: nat, picked: set<Candidate>)
    requires picked <= Row(score, len) && |picked| == if len < k then len else k
    requires forall x, y | x in picked && y in Row(score, len) && y !in picked ::
               x.score >= y.score && (x.score == y.score ==> x.id < y.id)
    ensures picked == TopK(Row(score, len), k)
  {
    var row := Row(score, len);
    RowSize(score, len);
    TopKSize(row, k);
    var top := TopK(row, k);
    if exists x :: x in picked && x !in top {
      var x :| x in picked && x !in top;
      if top <= picked {
        Subset(top + {x}, picked);
      } else {
        var y :| y in top && y !in picked;
        TopAbove(row, y, x, k);
      }
      assert false;
    }
    Subset(picked, top);
    assert top == picked + (top - picked);
  }
}
