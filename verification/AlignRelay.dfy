/** The relay's register updates are the align kernels': a slot that a rank schedules, fills and
    settles goes through Preprocess, Precopy, Forward, Fill and Post of the align machine. */
module AlignRelay {
  import Arith
  import opened AlignMachine
  import opened AlignSafety
  import opened AlignRuns
  import opened Options
  import opened Relay
  import opened RelayAgreement
  import RelayRuns

  // ---- Event lists -------------------------------------------------------------------------------

  /** The events are enabled one after the other and lead from m to n. */
  ghost predicate Reaches<S>(c: Config<S>, m: Machine<S>, es: seq<Event>, n: Machine<S>)
    requires GoodConfig(c)
    decreases |es|
  {
    if es == [] then n == m
    else Enabled(c, m, es[0]) && Defined(c, m, es[0]) && Reaches(c, Apply(c, m, es[0]), es[1..], n)
  }

  lemma ReachNone<S>(c: Config<S>, m: Machine<S>)
    requires GoodConfig(c)
    ensures Reaches(c, m, [], m)
  {}

  lemma ReachOne<S>(c: Config<S>, m: Machine<S>, e: Event)
    requires GoodConfig(c) && Enabled(c, m, e) && Defined(c, m, e)
    ensures Reaches(c, m, [e], Apply(c, m, e))
  {
    assert [e][1..] == [];
  }

  lemma {:induction false} ReachJoin<S>(c: Config<S>, m: Machine<S>, es: seq<Event>, k: Machine<S>, fs: seq<Event>,
          n: Machine<S>)
    requires GoodConfig(c) && Reaches(c, m, es, k) && Reaches(c, k, fs, n)
    ensures Reaches(c, m, es + fs, n)
    decreases |es|
  {
    hide Enabled, Defined, Apply;
    if es == [] {
      assert es + fs == fs;
    } else {
      ReachJoin(c, Apply(c, m, es[0]), es[1..], k, fs, n);
      assert (es + fs)[1..] == es[1..] + fs;
    }
  }

  lemma {:induction false} ReachKeeps<S>(c: Config<S>, m: Machine<S>, es: seq<Event>, n: Machine<S>)
    requires GoodConfig(c) && Inv(c, m) && Reaches(c, m, es, n)
    ensures Inv(c, n)
    decreases |es|
  {
    hide Inv, Enabled, Defined, Apply;
    if es != [] {
      StepSafe(c, m, es[0]);
      ReachKeeps(c, Apply(c, m, es[0]), es[1..], n);
    }
  }

  // ---- One slot ----------------------------------------------------------------------------------

  /** A rank's variables for a slot against the machine's slot: between steps the counts are equal;
      while a result is pending the rank already counts every scheduled token. */
  ghost predicate Tracks(v: SlotVars, s: Slot) {
    && s.occ.Occupied? && v.regs == s.regs
    && match s.occ.phase
       case Idle => v.computed == |s.occ.hist|
       case Computed(toks, drafts) => v.computed == |s.occ.hist| + |toks|
       case _ => false
  }

  /** The sampler rejects the drafts it did not accept; a chunk without a sample has no drafts. */
  predicate SampleOf(s: Sample, drafts: nat) {
    if s.numSampled == 0 then drafts == 0 && s.numRejected == 0
    else s.numRejected == drafts + 1 - s.numSampled
  }

  ghost predicate OnlySlot<S>(m: Machine<S>, n: Machine<S>, i: nat) {
    |n.slots| == |m.slots| && forall k | 0 <= k < |m.slots| && k != i :: n.slots[k] == m.slots[k]
  }

  function StepEvents(i: nat, toks: seq<int>, drafts: nat): seq<Event> {
    [Preprocess(i, toks, drafts), Precopy(i), Forward(i)]
  }

  /** Scheduling an idle slot: the three kernels of the step are enabled one after the other, and the
      registers become what every rank computes for the row. */
  lemma ScheduleTracks<S>(c: Config<S>, u: Setup, m: Machine<S>, i: nat, v: SlotVars, row: BatchRow, toks: seq<int>,
                          drafts: nat)
    returns (n: Machine<S>)
    requires GoodConfig(c) && GoodSetup(u) && c.bs == u.bs && Inv(c, m)
    requires Enabled(c, m, Preprocess(i, toks, drafts)) && Tracks(v, m.slots[i]) && row.scheduled == |toks|
    ensures Reaches(c, m, StepEvents(i, toks, drafts), n) && Inv(c, n) && OnlySlot(m, n, i) && Live(n, i)
    ensures n.slots[i].occ == m.slots[i].occ.(phase := Phase.Computed(toks, drafts))
    ensures Tracks(OtherRow(u, v, row, false), n.slots[i])
  {
    hide Inv, RunningColumn, WriteTemporal, WriteConv, CopyTemporal, CopyConv;
    StepSafe(c, m, Preprocess(i, toks, drafts));
    var a := Apply(c, m, Preprocess(i, toks, drafts));
    StepSafe(c, a, Precopy(i));
    var b := Apply(c, a, Precopy(i));
    StepSafe(c, b, Forward(i));
    n := Apply(c, b, Forward(i));
    ReachThree(c, m, Preprocess(i, toks, drafts), Precopy(i), Forward(i));
  }

  lemma ReachThree<S>(c: Config<S>, m: Machine<S>, e: Event, f: Event, g: Event)
    requires GoodConfig(c) && Enabled(c, m, e) && Defined(c, m, e)
    requires var a := Apply(c, m, e); Enabled(c, a, f) && Defined(c, a, f)
    requires var b := Apply(c, Apply(c, m, e), f); Enabled(c, b, g) && Defined(c, b, g)
    ensures Reaches(c, m, [e, f, g], Apply(c, Apply(c, Apply(c, m, e), f), g))
  {
    hide Enabled, Defined, Apply;
    var a := Apply(c, m, e);
    var b := Apply(c, a, f);
    ReachOne(c, m, e);
    ReachOne(c, a, f);
    ReachOne(c, b, g);
    ReachJoin(c, m, [e], a, [f], b);
    assert [e] + [f] == [e, f];
    ReachJoin(c, m, [e, f], b, [g], Apply(c, b, g));
    assert [e, f] + [g] == [e, f, g];
  }

  /** Filling the count of a slot with a pending result. */
  lemma FillTracks<S>(c: Config<S>, u: Setup, m: Machine<S>, i: nat, v: SlotVars, row: BatchRow)
    requires GoodConfig(c) && GoodSetup(u) && Live(m, i) && m.slots[i].occ.phase.Computed?
    requires Tracks(OtherRow(u, v, row, false), m.slots[i])
    ensures Enabled(c, m, Fill(i)) && Tracks(OtherRow(u, v, row, true), Apply(c, m, Fill(i)).slots[i])
    ensures OnlySlot(m, Apply(c, m, Fill(i)), i) && Apply(c, m, Fill(i)).slots[i].occ == m.slots[i].occ
  {
    hide RunningColumn;
  }

  /** Settling a pending result, at once or ppSize steps later, is one enabled Post event. */
  lemma SettleTracks<S>(c: Config<S>, u: Setup, m: Machine<S>, i: nat, v: SlotVars, s: Sample)
    requires GoodConfig(c) && GoodSetup(u) && c.bs == u.bs && Inv(c, m) && s.numSampled <= |s.tokens|
    requires Live(m, i) && m.slots[i].occ.phase.Computed? && Tracks(v, m.slots[i])
    requires SampleOf(s, m.slots[i].occ.phase.drafts)
    ensures Enabled(c, m, Post(i, s.numSampled)) && Defined(c, m, Post(i, s.numSampled))
    ensures var n := Apply(c, m, Post(i, s.numSampled));
            && Inv(c, n) && OnlySlot(m, n, i) && n.slots[i].occ.Occupied? && n.slots[i].occ.phase.Idle?
            && n.slots[i].occ.req == m.slots[i].occ.req && Tracks(Settle(u, v, s, 0), n.slots[i])
  {
    hide Inv, Aligned, RunningColumn, ApplyPost, PostAccess;
    DraftsBelow(c, m, i);
    StepSafe(c, m, Post(i, s.numSampled));
    PostedSlots(c, m, i, s.numSampled);
  }

  /** The slots after a Post event, checkpoint or not. */
  lemma PostedSlots<S>(c: Config<S>, m: Machine<S>, i: nat, sampled: nat)
    requires GoodConfig(c) && CanPost(m, i, sampled) && PostAccess(c, m, i, sampled)
    ensures var o := m.slots[i].occ;
            ApplyPost(c, m, i, sampled).slots == m.slots[i :=
              Slot(m.slots[i].regs.(accepted := if SlotPost(c, m.slots[i], sampled).reset then 1
                  else AcceptedCount(sampled)),
                   o.(hist := o.hist + Kept(o.phase.toks, o.phase.drafts, sampled), phase := Idle))]
  {
    hide Aligned, CopyTemporal, CopyConv, SlotPost, Kept, Checkpoints;
  }

  lemma DraftsBelow<S>(c: Config<S>, m: Machine<S>, i: nat)
    requires GoodConfig(c) && Inv(c, m) && Live(m, i) && m.slots[i].occ.phase.Computed?
    ensures m.slots[i].occ.phase.drafts < |m.slots[i].occ.phase.toks|
  {
    assert SlotInv(c, m, m.slots[i]);
  }

  /** On the last rank a row is the three kernels and the Post event, and ends with its variables. */
  lemma LastRankTracks<S>(c: Config<S>, u: Setup, m: Machine<S>, i: nat, v: SlotVars, row: BatchRow, toks: seq<int>,
                          drafts: nat, s: Sample)
    returns (n: Machine<S>)
    requires GoodConfig(c) && GoodSetup(u) && c.bs == u.bs && Inv(c, m) && s.numSampled <= |s.tokens|
    requires Enabled(c, m, Preprocess(i, toks, drafts)) && Tracks(v, m.slots[i]) && row.scheduled == |toks|
    requires SampleOf(s, drafts)
    ensures Reaches(c, m, StepEvents(i, toks, drafts) + [Post(i, s.numSampled)], n) && Inv(c, n)
    ensures OnlySlot(m, n, i) && Live(n, i) && n.slots[i].occ.phase.Idle? && n.slots[i].occ.req == m.slots[i].occ.req
    ensures Tracks(LastRow(u, v, row, s), n.slots[i])
  {
    hide Inv, Enabled, Defined, Apply, Aligned, RunningColumn;
    var k := ScheduleTracks(c, u, m, i, v, row, toks, drafts);
    var moved := OtherRow(u, v, row, false);
    SettleTracks(c, u, k, i, moved, s);
    n := Apply(c, k, Post(i, s.numSampled));
    ReachOne(c, k, Post(i, s.numSampled));
    ReachJoin(c, m, StepEvents(i, toks, drafts), k, [Post(i, s.numSampled)], n);
    SettleLater(u, v, row, s);
  }

  /** Settling at once is advancing optimistically and settling later. */
  lemma SettleLater(u: Setup, v: SlotVars, row: BatchRow, s: Sample)
    requires GoodSetup(u) && s.numSampled <= |s.tokens|
    ensures LastRow(u, v, row, s).regs == Settle(u, OtherRow(u, v, row, false), s, 0).regs
    ensures LastRow(u, v, row, s).computed == Settle(u, OtherRow(u, v, row, false), s, 0).computed
  {
    hide Aligned, RunningColumn;
  }

  /** A chunk that returns no sample is never settled on the other ranks.  Its Post event would copy
      no block and leave exactly the registers that the fill leaves. */
  lemma UnsampledNeedsNoPost<S>(c: Config<S>, u: Setup, m: Machine<S>, i: nat, v: SlotVars, row: BatchRow)
    requires GoodConfig(c) && GoodSetup(u) && c.bs == u.bs && Inv(c, m)
    requires Live(m, i) && m.slots[i].occ.phase.Computed? && m.slots[i].occ.phase.drafts == 0
    requires Tracks(OtherRow(u, v, row, false), m.slots[i])
    ensures CanPost(m, i, 0) && PostAccess(c, m, i, 0)
    ensures var n := ApplyPost(c, m, i, 0);
            && n.pool == m.pool && n.conv == m.conv && OnlySlot(m, n, i) && Inv(c, n)
            && n.slots[i].occ.Occupied? && n.slots[i].occ.req == m.slots[i].occ.req && n.slots[i].occ.phase.Idle?
            && Tracks(OtherRow(u, v, row, true), n.slots[i])
  {
    hide Inv, RunningColumn, Aligned, Holds, ColumnEnd, CopyTemporal, CopyConv;
    DraftsBelow(c, m, i);
    StepSafe(c, m, Post(i, 0));
    UnsampledDecision(c, m, i);
  }

  lemma UnsampledDecision<S>(c: Config<S>, m: Machine<S>, i: nat)
    requires GoodConfig(c) && Inv(c, m) && CanPost(m, i, 0) && m.slots[i].occ.phase.drafts < |m.slots[i].occ.phase.toks|
    ensures !SlotPost(c, m.slots[i], 0).copy
  {
    hide Aligned, RunningColumn, ColumnEnd, Holds;
    var s := m.slots[i];
    assert SlotInv(c, m, s);
    var n := |s.occ.hist| + |s.occ.phase.toks|;
    assert |Kept(s.occ.phase.toks, 0, 0)| == |s.occ.phase.toks|;
    AlignedBounds(n, c.bs);
    if Aligned(n, c.bs) >= n {
      EndColumn(n, c.bs);
    }
  }

  /** A count at a boundary: its checkpoint column is the running column. */
  lemma EndColumn(n: nat, bs: nat)
    requires bs > 0 && n > 0 && Aligned(n, bs) == n
    ensures n / bs - 1 == RunningColumn(n, bs)
  {
    Arith.DivUnique(n + bs - 1, bs, n / bs);
  }

  // ---- At most one pending result -------------------------------------------------------------------

  /** A parked result that is still valid belongs to the slot's present owner, which the step that
      posted it scheduled and whose sample is needed. */
  lemma ParkedRow(u: Setup, ls: seq<Rank>, ns: seq<Rank>, sts: seq<StepIn>, t: nat, k: nat, a: nat)
    requires GoodSetup(u) && RelayRuns.IsShapedRun(u, ls, ns, sts) && t <= |sts|
    requires k < |ns[t].queue| && ns[t].queue[k].Some? && a < |ns[t].queue[k].value|
    requires ns[t].queue[k].value[a].slot < |ns[t].gen| && !Excluded(ns[t].queue[k].value[a], ns[t].gen)
    ensures |ns[t].queue| == u.ppSize && 0 <= t - u.ppSize + k < |sts| && a < |sts[t - u.ppSize + k].batch|
    ensures var row, slot := sts[t - u.ppSize + k].batch[a], ns[t].queue[k].value[a].slot;
            && NeedsSampled(row) && slot == row.slot < |ns[t].slots| && ns[t].slots[slot].owner == row.req
    ensures |ns| == |sts| + 1 && GoodBatch(sts[t - u.ppSize + k].batch, |ns[t - u.ppSize + k + 1].gen|)
  {
    RelayRuns.RunInStep(u, ls, ns, sts, t);
    hide NeedsSampled, Settle, Same, Drain;
    assert RowOwned(ns[t].queue[k].value[a], ns[t].gen, ns[t].slots);
    assert RelayRuns.QueueSlot(u, ns, sts, t - u.ppSize + k, ns[t].queue[k]);
  }

  /** In every run at most one parked result of a slot is still valid, so a slot is settled once for
      each time it was scheduled. */
  lemma OneParked(u: Setup, ls: seq<Rank>, ns: seq<Rank>, sts: seq<StepIn>, t: nat, k: nat, a: nat, l: nat, b: nat)
    requires GoodSetup(u) && RelayRuns.IsShapedRun(u, ls, ns, sts) && RelayRuns.Spaced(u, sts) && t <= |sts|
    requires k <= l < |ns[t].queue| && ns[t].queue[k].Some? && ns[t].queue[l].Some?
    requires a < |ns[t].queue[k].value| && b < |ns[t].queue[l].value|
    requires ns[t].queue[k].value[a].slot == ns[t].queue[l].value[b].slot < |ns[t].gen|
    requires !Excluded(ns[t].queue[k].value[a], ns[t].gen) && !Excluded(ns[t].queue[l].value[b], ns[t].gen)
    ensures k == l && a == b
  {
    ParkedRow(u, ls, ns, sts, t, k, a);
    ParkedRow(u, ls, ns, sts, t, l, b);
    var x, y := t - u.ppSize + k, t - u.ppSize + l;
    SpacedApart(u, sts, x, a, y, b);
  }

  lemma SpacedApart(u: Setup, sts: seq<StepIn>, x: nat, a: nat, y: nat, b: nat)
    requires RelayRuns.Spaced(u, sts) && x <= y < |sts| && y - x < u.ppSize
    requires a < |sts[x].batch| && b < |sts[y].batch| && NeedsSampled(sts[x].batch[a])
    requires sts[x].batch[a].slot == sts[y].batch[b].slot && sts[x].batch[a].req == sts[y].batch[b].req
    ensures x == y
  {
    hide NeedsSampled;
    assert RelayRuns.SlotAndReq(sts[x].batch[a]) == RelayRuns.SlotAndReq(sts[y].batch[b]);
  }
}
