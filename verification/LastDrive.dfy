/** The last rank over a whole run of its own: it settles every row at once and parks nothing, so every
    kernel it launches is an enabled event of the align machine whatever the mask drops, the scheduler
    reports and the other ranks do. */
module LastDrive {
  import opened AlignMachine
  import opened AlignSafety
  import opened AlignRuns
  import opened Options
  import opened Relay
  import opened RelayAgreement
  import opened AlignRelay
  import opened RelayDrive
  import RelayRuns

  function LastEvents(i: nat, toks: seq<int>, drafts: nat, s: Sample): seq<Event> {
    StepEvents(i, toks, drafts) + [Post(i, s.numSampled)]
  }

  function LastBatchEvents(st: StepIn, plan: Plan, k: nat): seq<Event>
    requires k <= |st.batch| == |st.samples| && |plan.toks| == |plan.drafts| == |st.batch|
  {
    if k == 0 then []
    else
      LastBatchEvents(st, plan, k - 1)
      + LastEvents(st.batch[k - 1].slot, plan.toks[k - 1], plan.drafts[k - 1], st.samples[k - 1])
  }

  /** A slot after its row on the last rank: settled. */
  ghost predicate SettledRow(u: Setup, v: SlotVars, row: BatchRow, sample: Sample, was: Slot, now: Slot)
    requires GoodSetup(u)
  {
    && sample.numSampled <= |sample.tokens| && was.occ.Occupied? && now.occ.Occupied? && now.occ.phase.Idle?
    && now.occ.req == was.occ.req && Tracks(LastRow(u, v, row, sample), now)
  }

  ghost predicate LastDone<S>(u: Setup, n: Rank, m: Machine<S>, st: StepIn, k: nat, r: Machine<S>)
    requires GoodSetup(u) && k <= |st.batch| == |st.samples|
  {
    && |r.slots| == |m.slots| == |n.slots|
    && (forall b | 0 <= b < k :: st.batch[b].slot < |m.slots| &&
          SettledRow(u, n.slots[st.batch[b].slot], st.batch[b], st.samples[b], m.slots[st.batch[b].slot],
              r.slots[st.batch[b].slot]))
    && (forall i | 0 <= i < |m.slots| && (forall b | 0 <= b < k :: st.batch[b].slot != i) :: r.slots[i] == m.slots[i])
  }

  lemma LastRowReach<S>(c: Config<S>, u: Setup, m: Machine<S>, i: nat, v: SlotVars, row: BatchRow, toks: seq<int>,
                        drafts: nat, s: Sample)
    returns (r: Machine<S>)
    requires GoodConfig(c) && GoodSetup(u) && c.bs == u.bs && Inv(c, m) && i < |m.slots| && s.numSampled <= |s.tokens|
    requires m.slots[i].occ.Occupied? && m.slots[i].occ.phase.Idle? && Tracks(v, m.slots[i])
    requires RoomFor(c, m.slots[i], row, toks, drafts, s)
    ensures Reaches(c, m, LastEvents(i, toks, drafts, s), r) && Inv(c, r) && OnlySlot(m, r, i)
    ensures SettledRow(u, v, row, s, m.slots[i], r.slots[i])
  {
    hide Inv, Tracks, Apply, Defined, LastRow, OtherRow, Settle, RunningColumn;
    r := LastRankTracks(c, u, m, i, v, row, toks, drafts, s);
  }

  lemma {:induction false} LastRowsReach<S>(c: Config<S>, u: Setup, n: Rank, m: Machine<S>, st: StepIn, plan: Plan,
          k: nat) returns (r: Machine<S>)
    requires GoodConfig(c) && GoodSetup(u) && c.bs == u.bs && Inv(c, m) && SamplesFit(u, st.batch, st.samples)
    requires RowsReady(n, m, st) && Room(c, m, st, plan) && k <= |st.batch|
    ensures Reaches(c, m, LastBatchEvents(st, plan, k), r) && Inv(c, r) && LastDone(u, n, m, st, k, r)
  {
    hide Inv, Tracks, LastRow, RoomFor, SettledRow, Reaches, LastEvents;
    if k == 0 {
      r := m;
      ReachNone(c, m);
    } else {
      var q := LastRowsReach(c, u, n, m, st, plan, k - 1);
      var row := st.batch[k - 1];
      var i := row.slot;
      assert q.slots[i] == m.slots[i];
      assert RoomFor(c, m.slots[i], row, plan.toks[k - 1], plan.drafts[k - 1], st.samples[k - 1]);
      r := LastRowReach(c, u, q, i, n.slots[i], row, plan.toks[k - 1], plan.drafts[k - 1], st.samples[k - 1]);
      ReachJoin(c, m, LastBatchEvents(st, plan, k - 1), q,
          LastEvents(i, plan.toks[k - 1], plan.drafts[k - 1], st.samples[k - 1]), r);
      LastNext(u, n, m, st, k, q, r);
    }
  }

  lemma LastNext<S>(u: Setup, n: Rank, m: Machine<S>, st: StepIn, k: nat, q: Machine<S>, r: Machine<S>)
    requires GoodSetup(u) && 0 < k <= |st.batch| == |st.samples| && GoodBatch(st.batch, |n.slots|)
    requires LastDone(u, n, m, st, k - 1, q)
    requires var i := st.batch[k - 1].slot;
             OnlySlot(q, r, i) && SettledRow(u, n.slots[i], st.batch[k - 1], st.samples[k - 1], m.slots[i], r.slots[i])
    ensures LastDone(u, n, m, st, k, r)
  {
    hide SettledRow;
  }

  lemma LastVars(u: Setup, v: SlotVars, row: BatchRow, s: Sample)
    requires GoodSetup(u) && s.numSampled <= |s.tokens|
    ensures LastRow(u, v, row, s).owner == v.owner
  {
    hide Aligned, RunningColumn;
  }

  /** Every request on the machine is between two steps. */
  ghost predicate AllIdle<S>(m: Machine<S>) {
    forall i | 0 <= i < |m.slots| && m.slots[i].occ.Occupied? :: m.slots[i].occ.phase.Idle?
  }

  /** The rank parks nothing, and its variables describe the machine. */
  ghost predicate LastDriven<S>(l: Rank, m: Machine<S>) {
    l.queue == [] && Driven(l, m) && AllIdle(m)
  }

  /** Every row is for an occupied slot. */
  ghost predicate RowsOwned(l: Rank, batch: seq<BatchRow>) {
    forall b | 0 <= b < |batch| :: batch[b].slot < |l.slots| && l.slots[batch[b].slot].owner >= 0
  }

  lemma OwnedReady<S>(l: Rank, m: Machine<S>, st: StepIn)
    requires LastDriven(l, m) && GoodBatch(st.batch, |l.slots|) && RowsOwned(l, st.batch) && |st.samples| == |st.batch|
    ensures RowsReady(l, m, st)
  {
    hide SampleOf, Excluded;
    forall b | 0 <= b < |st.batch|
      ensures var i := st.batch[b].slot;
              m.slots[i].occ.Occupied? && m.slots[i].occ.phase.Idle? && Tracks(l.slots[i], m.slots[i])
    {
      assert SlotDriven(l, m.slots[st.batch[b].slot], st.batch[b].slot);
    }
  }

  /** A whole batch on the last rank keeps rank and device in step. */
  lemma LastBatchDriven<S>(c: Config<S>, u: Setup, l: Rank, m: Machine<S>, st: StepIn, plan: Plan)
          returns (r: Machine<S>)
    requires GoodConfig(c) && GoodSetup(u) && c.bs == u.bs && Inv(c, m) && LastDriven(l, m) && Room(c, m, st, plan)
    requires GoodRank(u, l) && GoodStep(u, |l.slots|, st) && RowsOwned(l, st.batch)
    ensures Reaches(c, m, LastBatchEvents(st, plan, |st.batch|), r) && Inv(c, r)
    ensures LastDriven(LastBatch(u, l, st), r) && RowsReady(l, m, st)
  {
    hide Inv, Tracks, LastRow, RoomFor, SampleOf, Reaches, LastBatchEvents, SettledRow;
    OwnedReady(l, m, st);
    r := LastRowsReach(c, u, l, m, st, plan, |st.batch|);
    forall i | 0 <= i < |l.slots|
      ensures SlotDriven(LastBatch(u, l, st), r.slots[i], i)
      ensures r.slots[i].occ.Occupied? ==> r.slots[i].occ.phase.Idle?
    {
      assert SlotDriven(l, m.slots[i], i);
      LastSlotDriven(u, l, m, st, r, i);
    }
  }

  lemma LastSlotDriven<S>(u: Setup, l: Rank, m: Machine<S>, st: StepIn, r: Machine<S>, i: nat)
    requires GoodSetup(u) && GoodRank(u, l) && l.queue == [] && GoodStep(u, |l.slots|, st) && i < |l.slots|
    requires LastDone(u, l, m, st, |st.batch|, r) && SlotDriven(l, m.slots[i], i) && AllIdle(m)
    ensures SlotDriven(LastBatch(u, l, st), r.slots[i], i)
    ensures r.slots[i].occ.Occupied? ==> r.slots[i].occ.phase.Idle?
  {
    hide Tracks, LastRow, SampleOf;
    var row := BatchRowFor(st.batch, i);
    if row.Some? {
      var b := row.value;
      assert SettledRow(u, l.slots[i], st.batch[b], st.samples[b], m.slots[i], r.slots[i]);
      LastVars(u, l.slots[i], st.batch[b], st.samples[b]);
      OccupiedOwner(l, m.slots[i], i);
    }
  }

  lemma OccupiedOwner(l: Rank, s: Slot, i: nat)
    requires i < |l.slots| && SlotDriven(l, s, i) && s.occ.Occupied?
    ensures l.slots[i].owner >= 0 && s.occ.req == l.slots[i].owner
  {}

  // ---- Whole runs ----------------------------------------------------------------------------------------

  /** The rank takes a step: any changes of its slots, rows of occupied slots, any reported counts, limits
      and drops, any draft widths. */
  ghost predicate LastFollows(u: Setup, l: Rank, st: StepIn, l': Rank)
    requires GoodSetup(u)
  {
    GoodRank(u, l) ==>
      && GoodStep(u, |l.slots|, st) && RowsOwned(ApplyChanges(u, l, st.changes), st.batch)
      && l' == StepLast(u, l, st)
  }

  /** A run of the last rank alone, and its machines. */
  ghost predicate LastRun<S>(c: Config<S>, u: Setup, ls: seq<Rank>, sts: seq<StepIn>, plans: seq<Plan>,
                             moves: seq<seq<Event>>, starts: seq<Machine<S>>, moved: seq<Machine<S>>)
    requires GoodConfig(c) && GoodSetup(u)
  {
    && c.bs == u.bs && |ls| == |starts| == |sts| + 1 && |plans| == |moves| == |moved| == |sts|
    && LastStart(c, ls[0], starts[0])
    && (forall t | 0 <= t < |sts| :: LastFollows(u, ls[t], sts[t], ls[t + 1]))
    && forall t | 0 <= t < |sts| :: LastStep(c, sts[t], plans[t], moves[t], starts[t], moved[t], starts[t + 1])
  }

  /** No slot is taken, and the rank's registers are the device's. */
  ghost predicate LastStart<S>(c: Config<S>, l: Rank, m: Machine<S>) {
    && |l.gen| == |l.slots| && l.queue == [] && (forall v <- l.slots :: v.owner == -1)
    && Initial(c, m) && |m.slots| == |l.slots| && forall i | 0 <= i < |l.slots| :: m.slots[i].regs == l.slots[i].regs
  }

  ghost predicate LastStep<S>(c: Config<S>, st: StepIn, plan: Plan, moves: seq<Event>, a: Machine<S>, q: Machine<S>,
                              b: Machine<S>)
    requires GoodConfig(c)
  {
    && Reaches(c, a, moves, q) && Allocates(moves, st.changes)
    && Room(c, q, st, plan) && Launches(c, q, LastBatchEvents(st, plan, |st.batch|), b)
  }

  ghost predicate LastStepDone<S>(c: Config<S>, u: Setup, l: Rank, l': Rank, st: StepIn, plan: Plan, q: Machine<S>,
                                  b: Machine<S>)
    requires GoodConfig(c) && GoodSetup(u) && GoodRank(u, l) && GoodStep(u, |l.slots|, st)
  {
    && |plan.toks| == |plan.drafts| == |st.batch| == |st.samples|
    && Inv(c, q) && LastDriven(ApplyChanges(u, l, st.changes), q) && RowsReady(ApplyChanges(u, l, st.changes), q, st)
    && Reaches(c, q, LastBatchEvents(st, plan, |st.batch|), b) && Inv(c, b) && LastDriven(l', b)
  }

  /** The scheduler's and the allocator's moves leave every request between two steps. */
  lemma {:induction false} AllocIdle<S>(c: Config<S>, m: Machine<S>, es: seq<Event>, chs: seq<Change>, r: Machine<S>)
    requires GoodConfig(c) && Reaches(c, m, es, r) && Allocates(es, chs) && AllIdle(m)
    ensures AllIdle(r)
    decreases |es|
  {
    hide Enabled, Defined, Apply, AllIdle;
    if es != [] {
      MoveIdle(c, m, es[0]);
      AllocIdle(c, Apply(c, m, es[0]), es[1..], if es[0].Extend? || es[0].Evict? then chs else chs[1..], r);
    }
  }

  lemma MoveIdle<S>(c: Config<S>, m: Machine<S>, e: Event)
    requires GoodConfig(c) && AllIdle(m) && Enabled(c, m, e) && Defined(c, m, e)
    requires e.Extend? || e.Evict? || e.Release? || e.Admit?
    ensures AllIdle(Apply(c, m, e))
  {}

  lemma LastStepSafe<S>(c: Config<S>, u: Setup, l: Rank, l': Rank, st: StepIn, plan: Plan, moves: seq<Event>,
                        a: Machine<S>, q: Machine<S>, b: Machine<S>)
    requires GoodConfig(c) && GoodSetup(u) && c.bs == u.bs && GoodRank(u, l) && LastFollows(u, l, st, l')
    requires Inv(c, a) && LastDriven(l, a) && LastStep(c, st, plan, moves, a, q, b)
    ensures GoodRank(u, l') && LastStepDone(c, u, l, l', st, plan, q, b)
  {
    hide Inv, Driven, AllIdle, Launches, Reaches, Allocates, RowsReady, ApplyChange, LastRow, SendOps, RowsOwned;
    assert Owned(l);
    AllocDriven(c, u, l, a, moves, st.changes, q);
    AllocIdle(c, a, moves, st.changes, q);
    RelayRuns.StepLastParts(u, l, st);
    var r := LastBatchDriven(c, u, ApplyChanges(u, l, st.changes), q, st, plan);
    LaunchesReach(c, q, LastBatchEvents(st, plan, |st.batch|), b, r);
  }

  /** In every run of the last rank, each pre-copy, forward and postprocess is enabled and stays inside the
      blocks of its own request, and the rank's variables keep describing the machine. */
  lemma {:induction false} LastRunSafe<S>(c: Config<S>, u: Setup, ls: seq<Rank>, sts: seq<StepIn>, plans: seq<Plan>,
          moves: seq<seq<Event>>, starts: seq<Machine<S>>, moved: seq<Machine<S>>, t: nat)
    requires GoodConfig(c) && GoodSetup(u) && LastRun(c, u, ls, sts, plans, moves, starts, moved) && t <= |sts|
    ensures Inv(c, starts[t]) && LastDriven(ls[t], starts[t]) && GoodRank(u, ls[t])
    ensures t < |sts| ==> GoodStep(u, |ls[t].slots|, sts[t])
                          && LastStepDone(c, u, ls[t], ls[t + 1], sts[t], plans[t], moved[t], starts[t + 1])
  {
    hide Inv, LastDriven, LastStep, LastStart, StepLast, LastStepDone, RowsOwned, GoodRank;
    if t == 0 {
      StartLast(c, u, ls[0], starts[0]);
    } else {
      LastRunSafe(c, u, ls, sts, plans, moves, starts, moved, t - 1);
      LastDoneKeeps(c, u, ls[t - 1], ls[t], sts[t - 1], plans[t - 1], moves[t - 1], starts[t - 1], moved[t - 1],
          starts[t]);
    }
    if t < |sts| {
      assert LastFollows(u, ls[t], sts[t], ls[t + 1]);
      LastStepSafe(c, u, ls[t], ls[t + 1], sts[t], plans[t], moves[t], starts[t], moved[t], starts[t + 1]);
    }
  }

  lemma LastDoneKeeps<S>(c: Config<S>, u: Setup, l: Rank, l': Rank, st: StepIn, plan: Plan, moves: seq<Event>,
          a: Machine<S>, q: Machine<S>, b: Machine<S>)
    requires GoodConfig(c) && GoodSetup(u) && c.bs == u.bs && GoodRank(u, l) && LastFollows(u, l, st, l')
    requires Inv(c, a) && LastDriven(l, a) && LastStep(c, st, plan, moves, a, q, b)
    ensures Inv(c, b) && LastDriven(l', b) && GoodRank(u, l')
  {
    hide Inv, LastDriven, LastStep, StepLast, RowsOwned, GoodRank;
    LastStepSafe(c, u, l, l', st, plan, moves, a, q, b);
  }

  lemma StartLast<S>(c: Config<S>, u: Setup, l: Rank, m: Machine<S>)
    requires GoodConfig(c) && GoodSetup(u) && LastStart(c, l, m)
    ensures Inv(c, m) && LastDriven(l, m) && GoodRank(u, l)
  {
    forall i | 0 <= i < |l.slots|
      ensures SlotDriven(l, m.slots[i], i) && m.slots[i].occ.Vacant?
    {
      assert l.slots[i] in l.slots && m.slots[i] in m.slots;
    }
  }

  /** The last rank of every shaped run of a pair takes such steps, so of every legal run too. */
  lemma ShapedLast(u: Setup, ls: seq<Rank>, ns: seq<Rank>, sts: seq<StepIn>, t: nat)
    requires GoodSetup(u) && RelayRuns.IsShapedRun(u, ls, ns, sts) && t < |sts|
    ensures LastFollows(u, ls[t], sts[t], ls[t + 1]) && GoodRank(u, ls[t])
  {
    hide LegalChanges, Owned, Settles, StepLast, StepOther;
    RelayRuns.RunInStep(u, ls, ns, sts, t);
    InStepSizes(u, ls[t], ns[t]);
    assert RelayRuns.Steps(u, ls[t], ns[t], sts[t], ls[t + 1], ns[t + 1]);
  }
}
