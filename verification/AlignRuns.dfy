/** Whole runs of the align machine: safety, durable checkpoints, private blocks. */
module AlignRuns {
  import opened Arith
  import opened Recurrence
  import opened AlignMachine
  import opened AlignSafety

  // ---- Scheduler events ----------------------------------------------------------------

  lemma AdmitKeeps<S>(c: Config<S>, m: Machine<S>, i: nat, req: nat, row: seq<nat>, hist: seq<int>)
    requires GoodConfig(c) && Inv(c, m) && Enabled(c, m, Admit(i, req, row, hist))
    ensures Inv(c, Apply(c, m, Admit(i, req, row, hist)))
  {
    hide Fold, Window, ColumnEnd, Aligned, RunningColumn;
    var n := Apply(c, m, Admit(i, req, row, hist));
    AdmitSlot(c, m, n, i, req, row, hist);
    AdmitSeparate(c, m, n, i, req, row, hist);
    forall k: nat | Live(n, k) ensures SlotInv(c, n, n.slots[k]) {
      if k != i {
        assert Live(m, k);
        SlotInvFrame(c, m, n, m.slots[k]);
      }
    }
    forall b <- n.cache ensures CacheEntry(c, n, b) {
      assert CacheEntry(c, m, b);
    }
  }

  lemma AdmitSeparate<S>(c: Config<S>, m: Machine<S>, n: Machine<S>, i: nat, req: nat, row: seq<nat>, hist: seq<int>)
    requires GoodConfig(c) && Separate(c, m) && Enabled(c, m, Admit(i, req, row, hist))
    requires n == Apply(c, m, Admit(i, req, row, hist))
    ensures Separate(c, n)
  {
    hide Fold, Window, ColumnEnd, Aligned, RunningColumn;
    forall k: nat, b: nat | Live(n, k) && Writable(c, n, k, b)
      ensures b !in n.cache && forall l: nat | Live(n, l) && l != k :: b !in n.slots[l].occ.row
    {
      if k == i {
        assert Unused(m, b);
        assert forall l: nat | Live(n, l) && l != k :: Live(m, l);
      } else {
        assert Live(m, k) && Writable(c, m, k, b);
        forall x | 0 <= x < |row| ensures row[x] != b {
          if WritableAt(c, row, |hist|, x) { assert Unused(m, row[x]); } else { assert Settled(c, m, row[x]); }
        }
        assert forall l: nat | Live(n, l) && l != k && l != i :: Live(m, l);
      }
    }
  }

  lemma AdmitSlot<S>(c: Config<S>, m: Machine<S>, n: Machine<S>, i: nat, req: nat, row: seq<nat>, hist: seq<int>)
    requires GoodConfig(c) && Inv(c, m) && Enabled(c, m, Admit(i, req, row, hist))
    requires n == Apply(c, m, Admit(i, req, row, hist))
    ensures SlotInv(c, n, n.slots[i])
  {
    hide Fold, Window, Unused, Settled, Separate, ColumnEnd;
    if hist != [] {
      var k := |hist| / c.bs;
      CachedColumn(|hist|, c.bs);
      assert CacheEntry(c, m, row[k - 1]);
    }
  }

  lemma CachedColumn(n: nat, bs: nat)
    requires bs > 0 && n > 0 && n % bs == 0
    ensures n / bs >= 1 && (n - 1) / bs == n / bs - 1
  {
    var k := n / bs;
    DivBounds(n, bs);
    if k <= 0 {
      MulLe(k, 0, bs);
    }
    DivUnique(n - 1, bs, k - 1);
  }

  lemma ExtendKeeps<S>(c: Config<S>, m: Machine<S>, i: nat, blocks: seq<nat>)
    requires GoodConfig(c) && Inv(c, m) && Enabled(c, m, Extend(i, blocks))
    ensures Inv(c, Apply(c, m, Extend(i, blocks)))
  {
    hide Fold, Window, ColumnEnd, Aligned, RunningColumn;
    var n := Apply(c, m, Extend(i, blocks));
    var s := m.slots[i];
    assert SlotInv(c, m, s);
    ExtendInjective(c, m, i, blocks);
    ExtendSlot(c, m, n, i, blocks);
    forall k: nat | Live(n, k) ensures SlotInv(c, n, n.slots[k]) {
      if k != i { SlotInvFrame(c, m, n, m.slots[k]); }
    }
    forall b <- n.cache ensures CacheEntry(c, n, b) {
      assert CacheEntry(c, m, b);
    }
    ExtendSeparate(c, m, n, i, blocks);
  }

  lemma ExtendSeparate<S>(c: Config<S>, m: Machine<S>, n: Machine<S>, i: nat, blocks: seq<nat>)
    requires GoodConfig(c) && Separate(c, m) && Enabled(c, m, Extend(i, blocks))
    requires n == Apply(c, m, Extend(i, blocks))
    ensures Separate(c, n)
  {
    hide Fold, Window, ColumnEnd, Aligned, RunningColumn;
    forall k: nat, b: nat | Live(n, k) && Writable(c, n, k, b)
      ensures b !in n.cache && forall l: nat | Live(n, l) && l != k :: b !in n.slots[l].occ.row
    {
      var l: nat :| WritableAt(c, n.slots[k].occ.row, |n.slots[k].occ.hist|, l) && n.slots[k].occ.row[l] == b;
      assert Live(m, k);
      if l < |m.slots[k].occ.row| {
        assert WritableAt(c, m.slots[k].occ.row, |m.slots[k].occ.hist|, l);
        assert Writable(c, m, k, b);
        assert b in m.slots[k].occ.row;
        forall x | 0 <= x < |blocks| ensures blocks[x] != b {
          assert Unused(m, blocks[x]);
        }
      } else {
        assert Unused(m, blocks[l - |m.slots[k].occ.row|]);
      }
      assert forall o: nat | Live(n, o) :: Live(m, o);
    }
  }

  lemma ExtendInjective<S>(c: Config<S>, m: Machine<S>, i: nat, blocks: seq<nat>)
    requires GoodConfig(c) && Inv(c, m) && Enabled(c, m, Extend(i, blocks))
    ensures Injective(c, m.slots[i].occ.row + blocks, |m.slots[i].occ.hist|)
  {
    hide Fold, Window, ColumnEnd, Aligned, RunningColumn;
    var row, computed := m.slots[i].occ.row, |m.slots[i].occ.hist|;
    assert SlotInv(c, m, m.slots[i]);
    forall k: nat, l: nat | WritableAt(c, row + blocks, computed, k) && l < |row + blocks| && l != k
      ensures (row + blocks)[k] != (row + blocks)[l]
    {
      if k < |row| { assert WritableAt(c, row, computed, k); }
      if k < |row| <= l {
        assert Unused(m, blocks[l - |row|]) && row[k] in row;
      } else if l < |row| <= k {
        assert Unused(m, blocks[k - |row|]) && row[l] in row;
      }
    }
  }

  lemma ExtendSlot<S>(c: Config<S>, m: Machine<S>, n: Machine<S>, i: nat, blocks: seq<nat>)
    requires GoodConfig(c) && Inv(c, m) && Enabled(c, m, Extend(i, blocks))
    requires n == Apply(c, m, Extend(i, blocks))
    requires Injective(c, n.slots[i].occ.row, |n.slots[i].occ.hist|)
    ensures SlotInv(c, n, n.slots[i])
  {
    hide Fold, Window, ColumnEnd, Aligned, RunningColumn;
    var s := m.slots[i];
    assert SlotInv(c, m, s);
    forall k | 0 <= k < |s.occ.row + blocks| ensures (s.occ.row + blocks)[k] < |m.pool| {
      if k >= |s.occ.row| { assert Unused(m, blocks[k - |s.occ.row|]); }
    }
    if s.occ.phase.Computed? {
      var toks, drafts := s.occ.phase.toks, s.occ.phase.drafts;
      forall j: nat | j <= drafts ensures ColumnHolds(c, n, n.slots[i], toks, drafts, j) {
        assert ColumnHolds(c, m, s, toks, drafts, j);
      }
    }
  }

  lemma FillKeeps<S>(c: Config<S>, m: Machine<S>, i: nat)
    requires GoodConfig(c) && Inv(c, m) && Enabled(c, m, Fill(i))
    ensures Inv(c, Apply(c, m, Fill(i)))
  {
    hide Fold, Window, ColumnEnd, Aligned, RunningColumn;
    var n := Apply(c, m, Fill(i));
    var s := m.slots[i];
    assert SlotInv(c, m, s);
    forall j: nat | j <= s.occ.phase.drafts
      ensures ColumnHolds(c, n, n.slots[i], s.occ.phase.toks, s.occ.phase.drafts, j)
    {
      assert ColumnHolds(c, m, s, s.occ.phase.toks, s.occ.phase.drafts, j);
    }
    InPlace(c, m, n, i);
  }

  lemma ReleaseKeeps<S>(c: Config<S>, m: Machine<S>, i: nat)
    requires GoodConfig(c) && Inv(c, m) && Enabled(c, m, Release(i))
    ensures Inv(c, Apply(c, m, Release(i)))
  {
    hide Fold, Window, ColumnEnd, Aligned, RunningColumn;
    var n := Apply(c, m, Release(i));
    forall k: nat | Live(n, k) ensures SlotInv(c, n, n.slots[k]) {
      SlotInvFrame(c, m, n, m.slots[k]);
    }
    forall b <- n.cache ensures CacheEntry(c, n, b) {
      assert CacheEntry(c, m, b);
    }
    forall k: nat, b: nat | Live(n, k) && Writable(c, n, k, b) ensures Writable(c, m, k, b) {}
  }

  lemma EvictKeeps<S>(c: Config<S>, m: Machine<S>, b: nat)
    requires GoodConfig(c) && Inv(c, m) && Enabled(c, m, Evict(b))
    ensures Inv(c, Apply(c, m, Evict(b)))
  {
    hide Fold, Window, ColumnEnd, Aligned, RunningColumn;
    var n := Apply(c, m, Evict(b));
    forall k: nat | Live(n, k) ensures SlotInv(c, n, n.slots[k]) {
      SlotInvFrame(c, m, n, m.slots[k]);
    }
    forall x <- n.cache ensures CacheEntry(c, n, x) {
      assert CacheEntry(c, m, x);
    }
    forall k: nat, x: nat | Live(n, k) && Writable(c, n, k, x) ensures Writable(c, m, k, x) {}
  }

  // ---- One step, all steps ---------------------------------------------------------------

  /** No kernel reads or writes outside its row or pool, and every event keeps the invariant. */
  lemma StepSafe<S>(c: Config<S>, m: Machine<S>, e: Event)
    requires GoodConfig(c) && Inv(c, m) && Enabled(c, m, e)
    ensures Defined(c, m, e) && Inv(c, Apply(c, m, e))
  {
    match e
    case Admit(i, req, row, hist) => AdmitKeeps(c, m, i, req, row, hist);
    case Extend(i, blocks) => ExtendKeeps(c, m, i, blocks);
    case Preprocess(i, toks, drafts) => PreprocessKeeps(c, m, i, toks, drafts);
    case Precopy(i) => PrecopyDefined(c, m, i); PrecopyKeeps(c, m, i);
    case Forward(i) => ForwardDefined(c, m, i); ForwardKeeps(c, m, i);
    case Fill(i) => FillKeeps(c, m, i);
    case Post(i, sampled) => PostDefined(c, m, i, sampled); PostKeeps(c, m, i, sampled);
    case Release(i) => ReleaseKeeps(c, m, i);
    case Evict(b) => EvictKeeps(c, m, b);
  }

  /** `ms` is a run: each event was enabled, and determines the next machine unless it is undefined. */
  ghost predicate IsRun<S>(c: Config<S>, ms: seq<Machine<S>>, es: seq<Event>)
    requires GoodConfig(c)
  {
    && |ms| == |es| + 1
    && forall t | 0 <= t < |es| :: Follows(c, ms[t], es[t], ms[t + 1])
  }

  ghost predicate Follows<S>(c: Config<S>, m: Machine<S>, e: Event, n: Machine<S>)
    requires GoodConfig(c)
  {
    Enabled(c, m, e) && (Defined(c, m, e) ==> n == Apply(c, m, e))
  }

  /** All slots vacant, empty cache, arbitrary bytes in the pools. */
  ghost predicate Initial<S>(c: Config<S>, m: Machine<S>) {
    && (forall s <- m.slots :: s.occ.Vacant?)
    && m.cache == map[] && |m.conv| == |m.pool|
    && forall b | 0 <= b < |m.conv| :: |m.conv[b]| == c.width + c.spec
  }

  lemma {:induction false} RunSafe<S>(c: Config<S>, ms: seq<Machine<S>>, es: seq<Event>, t: nat)
    requires GoodConfig(c) && IsRun(c, ms, es) && Initial(c, ms[0]) && t <= |es|
    ensures Inv(c, ms[t])
    ensures t < |es| ==> Enabled(c, ms[t], es[t]) && Defined(c, ms[t], es[t]) && ms[t + 1] == Apply(c, ms[t], es[t])
  {
    hide Fold, Window, ColumnEnd, Aligned, RunningColumn;
    if t > 0 {
      RunSafe(c, ms, es, t - 1);
      StepSafe(c, ms[t - 1], es[t - 1]);
    }
    if t < |es| {
      assert Follows(c, ms[t], es[t], ms[t + 1]);
      StepSafe(c, ms[t], es[t]);
    }
  }

  /** In every run, an idle request's state sits at column stateIdx + accepted - 1 (temporal)
      and at offset accepted - 1 of block column stateIdx (conv). */
  lemma RunningStateFound<S>(c: Config<S>, ms: seq<Machine<S>>, es: seq<Event>, t: nat, i: nat)
    requires GoodConfig(c) && IsRun(c, ms, es) && Initial(c, ms[0]) && t <= |es|
    requires Live(ms[t], i) && ms[t].slots[i].occ.phase.Idle? && ms[t].slots[i].occ.hist != []
    ensures var r, o := ms[t].slots[i].regs, ms[t].slots[i].occ;
            && 0 <= r.stateIdx && 1 <= r.accepted && r.stateIdx + r.accepted - 1 < |o.row|
            && o.row[r.stateIdx + r.accepted - 1] < |ms[t].pool| && o.row[r.stateIdx] < |ms[t].conv|
            && ms[t].pool[o.row[r.stateIdx + r.accepted - 1]] == Fold(c.step, c.init, o.hist)
            && r.accepted - 1 + c.width <= |ms[t].conv[o.row[r.stateIdx]]|
            && ms[t].conv[o.row[r.stateIdx]][r.accepted - 1..r.accepted - 1 + c.width] == Window(c.width, o.hist)
  {
    RunSafe(c, ms, es, t);
    assert SlotInv(c, ms[t], ms[t].slots[i]);
  }

  // ---- Checkpoints ------------------------------------------------------------------------

  /** At most one multiple of the block size fits in a span shorter than a block. */
  lemma BoundaryUnique(a: nat, running: nat, computed: nat, bs: nat)
    requires bs > 0 && a % bs == 0 && running <= a <= computed < running + bs
    ensures Aligned(computed, bs) == a
  {
    AlignedBounds(computed, bs);
    DivBounds(a, bs);
    DivMono(a, computed, bs);
    MulLe(a / bs, computed / bs, bs);
    if a / bs < computed / bs { MulLe(a / bs + 1, computed / bs, bs); }
  }

  /** Whenever a boundary a lies in [running, new computed], its column stores the state after
      exactly a tokens, and it is the only such boundary. */
  lemma CheckpointExactly<S>(c: Config<S>, m: Machine<S>, i: nat, sampled: nat, a: nat)
    requires GoodConfig(c) && Inv(c, m) && CanPost(m, i, sampled) && PostAccess(c, m, i, sampled)
    requires a % c.bs == 0
    requires var o := m.slots[i].occ;
             |o.hist| + |o.phase.toks| - o.phase.drafts <= a
             <= |o.hist| + |Kept(o.phase.toks, o.phase.drafts, sampled)|
    ensures var n := ApplyPost(c, m, i, sampled);
            var o := n.slots[i].occ;
            && 0 <= a / c.bs - 1 < |o.row| && a <= |o.hist|
            && o.row[a / c.bs - 1] in n.cache && n.cache[o.row[a / c.bs - 1]] == o.hist[..a]
            && CacheEntry(c, n, o.row[a / c.bs - 1])
  {
    hide Inv, Fold, Window, ColumnEnd, Aligned, RunningColumn, ApplyPost, PostMoved, PostAccess, SlotPost, Kept, Holds;
    var s := m.slots[i];
    SlotOf(c, m, i);
    BoundaryReached(c, s, sampled, a);
    ReachBoundary(c, m, i, sampled);
    PostShape(c, m, ApplyPost(c, m, i, sampled), i, sampled);
    PostKeeps(c, m, i, sampled);
    CacheOf(c, ApplyPost(c, m, i, sampled), s.occ.row[SlotPost(c, s, sampled).dstCol]);
  }

  lemma SlotOf<S>(c: Config<S>, m: Machine<S>, i: nat)
    requires GoodConfig(c) && Inv(c, m) && Live(m, i)
    ensures SlotInv(c, m, m.slots[i])
  {}

  lemma CacheOf<S>(c: Config<S>, m: Machine<S>, b: nat)
    requires GoodConfig(c) && Inv(c, m) && b in m.cache
    ensures CacheEntry(c, m, b)
  {}

  /** A boundary at or after the running position is the one the postprocess acts on. */
  lemma BoundaryReached<S>(c: Config<S>, s: Slot, sampled: nat, a: nat)
    requires GoodConfig(c) && s.occ.Occupied? && s.occ.phase.Computed?
    requires StagedShape(c, s, s.occ.phase.toks, s.occ.phase.drafts)
    requires if sampled == 0 then s.occ.phase.drafts == 0 else sampled <= s.occ.phase.drafts + 1
    requires a % c.bs == 0
    requires |s.occ.hist| + |s.occ.phase.toks| - s.occ.phase.drafts <= a
    requires a <= |s.occ.hist| + |Kept(s.occ.phase.toks, s.occ.phase.drafts, sampled)|
    ensures a == Aligned(|s.occ.hist| + |Kept(s.occ.phase.toks, s.occ.phase.drafts, sampled)|, c.bs)
    ensures Checkpoints(c, s, sampled)
  {
    hide Aligned, RunningColumn, ColumnEnd;
    var o := s.occ;
    PostCounts(|o.hist|, o.phase.toks, o.phase.drafts, sampled, s.regs.stateIdx, c.bs);
    BoundaryUnique(a, |o.hist| + |o.phase.toks| - o.phase.drafts,
        |o.hist| + |Kept(o.phase.toks, o.phase.drafts, sampled)|, c.bs);
  }

  /** A checkpoint is stored in a block that was writable, hence in no older entry. */
  lemma PostKey<S>(c: Config<S>, m: Machine<S>, i: nat, sampled: nat, b: nat)
    requires GoodConfig(c) && Inv(c, m) && CanPost(m, i, sampled) && PostAccess(c, m, i, sampled)
    requires b in m.cache && AtBoundary(c, m, i, sampled)
    ensures b != m.slots[i].occ.row[SlotPost(c, m.slots[i], sampled).dstCol]
  {
    hide Fold, Window, ColumnEnd, Aligned, RunningColumn;
    var s := m.slots[i];
    var dst := SlotPost(c, s, sampled).dstCol;
    assert WritableAt(c, s.occ.row, |s.occ.hist|, dst);
    assert Writable(c, m, i, s.occ.row[dst]);
  }

  /** No event but its eviction changes a cache entry. */
  lemma CheckpointKept<S>(c: Config<S>, m: Machine<S>, e: Event, b: nat)
    requires GoodConfig(c) && Inv(c, m) && Enabled(c, m, e) && Defined(c, m, e)
    requires b in m.cache && e != Evict(b)
    ensures b in Apply(c, m, e).cache && Apply(c, m, e).cache[b] == m.cache[b]
  {
    hide Fold, Window, ColumnEnd, Aligned, RunningColumn;
    if e.Post? && Checkpoints(c, m.slots[e.i], e.sampled) {
      ReachBoundary(c, m, e.i, e.sampled);
      PostKey(c, m, e.i, e.sampled, b);
    }
  }

  /** From the step that stores it until its eviction, a checkpoint reads back as the state of its prefix. */
  lemma {:induction false} CheckpointDurable<S>(c: Config<S>, ms: seq<Machine<S>>, es: seq<Event>, t: nat, u: nat,
          b: nat)
    requires GoodConfig(c) && IsRun(c, ms, es) && Initial(c, ms[0]) && t <= u <= |es|
    requires b in ms[t].cache && forall v | t <= v < u :: es[v] != Evict(b)
    ensures b in ms[u].cache && ms[u].cache[b] == ms[t].cache[b]
    ensures b < |ms[u].pool| && ms[u].pool[b] == Fold(c.step, c.init, ms[t].cache[b])
    ensures b < |ms[u].conv| && c.width <= |ms[u].conv[b]|
        && ms[u].conv[b][..c.width] == Window(c.width, ms[t].cache[b])
    decreases u
  {
    if t < u {
      CheckpointDurable(c, ms, es, t, u - 1, b);
      RunSafe(c, ms, es, u - 1);
      CheckpointKept(c, ms[u - 1], es[u - 1], b);
    }
    RunSafe(c, ms, es, u);
    assert CacheEntry(c, ms[u], b);
  }
}
