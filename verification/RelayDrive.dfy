/** A rank that is not the last, driven by the relay over a whole run: every kernel it launches is an
    enabled event of the align machine, so it works on the state of the right request. */
module RelayDrive {
  import opened AlignMachine
  import opened AlignSafety
  import opened AlignRuns
  import opened Options
  import opened Relay
  import opened RelayAgreement
  import opened AlignRelay
  import opened Recurrence
  import AlignBatch
  import RelayRuns

  // ---- The rank's view and the machine ---------------------------------------------------------------

  /** Row a of queue entry k concerns slot i and would still be settled. */
  ghost predicate ParkedAt(n: Rank, k: nat, a: nat, i: nat) {
    && k < |n.queue| && n.queue[k].Some? && a < |n.queue[k].value|
    && n.queue[k].value[a].slot == i < |n.gen| && !Excluded(n.queue[k].value[a], n.gen)
  }

  /** Slot i of the machine is what the rank believes: vacant, idle, or waiting for the one parked result
      that fits the step it was scheduled for. */
  ghost predicate SlotDriven(n: Rank, s: Slot, i: nat)
    requires i < |n.slots|
  {
    var v := n.slots[i];
    if v.owner < 0 then s.occ.Vacant? && s.regs == v.regs && forall k: nat, a: nat :: !ParkedAt(n, k, a, i)
    else
      && Tracks(v, s) && s.occ.req == v.owner
      && (forall k: nat, a: nat | ParkedAt(n, k, a, i) ::
            s.occ.phase.Computed? && SampleOf(n.queue[k].value[a].sample, s.occ.phase.drafts))
      && (s.occ.phase.Computed? ==> Finished(v) || exists k: nat, a: nat :: ParkedAt(n, k, a, i))
  }

  ghost predicate Driven<S>(n: Rank, m: Machine<S>) {
    |m.slots| == |n.slots| == |n.gen| && forall i | 0 <= i < |n.slots| :: SlotDriven(n, m.slots[i], i)
  }

  ghost predicate ParkedOnce(n: Rank) {
    forall i: nat, k: nat, a: nat, l: nat, b: nat | ParkedAt(n, k, a, i) && ParkedAt(n, l, b, i) :: k == l && a == b
  }

  // ---- Settling the oldest entry ---------------------------------------------------------------------

  predicate Settleable(r: PendingRow, gen: seq<nat>) {
    r.slot < |gen| && !Excluded(r, gen)
  }

  /** The deferred postprocess of the first k rows of an entry. */
  function PostsOf(p: Pending, gen: seq<nat>, k: nat): seq<Event>
    requires k <= |p|
  {
    if k == 0 then []
    else
      PostsOf(p, gen, k - 1)
      + if Settleable(p[k - 1], gen) then [Post(p[k - 1].slot, p[k - 1].sample.numSampled)] else []
  }

  function PostEvents(n: Rank): seq<Event> {
    if n.queue == [] || n.queue[0].None? then [] else PostsOf(n.queue[0].value, n.gen, |n.queue[0].value|)
  }

  /** Slot i after the first k rows: settled by its row, or untouched. */
  ghost predicate PostedSlot(u: Setup, n: Rank, k: nat, i: nat, was: Slot, now: Slot)
    requires GoodSetup(u) && i < |n.slots| && n.queue != [] && n.queue[0].Some? && k <= |n.queue[0].value|
  {
    var p := n.queue[0].value;
    && (forall a | 0 <= a < k && p[a].slot == i && Settleable(p[a], n.gen) ::
          && was.occ.Occupied? && now.occ.Occupied? && now.occ.phase.Idle? && now.occ.req == was.occ.req
          && p[a].sample.numSampled <= |p[a].sample.tokens| && Tracks(Settle(u, n.slots[i], p[a].sample, 0), now))
    && ((forall a | 0 <= a < k && p[a].slot == i :: !Settleable(p[a], n.gen)) ==> now == was)
  }

  lemma ParkedDriven(n: Rank, s: Slot, i: nat, k: nat, a: nat)
    requires i < |n.slots| && SlotDriven(n, s, i) && ParkedAt(n, k, a, i)
    ensures s.occ.Occupied? && Tracks(n.slots[i], s) && s.occ.phase.Computed? && s.occ.req == n.slots[i].owner
    ensures SampleOf(n.queue[k].value[a].sample, s.occ.phase.drafts)
  {
    hide SampleOf, Excluded;
  }

  lemma {:induction false} PostsReach<S>(c: Config<S>, u: Setup, n: Rank, m: Machine<S>, k: nat) returns (r: Machine<S>)
    requires GoodConfig(c) && GoodSetup(u) && c.bs == u.bs && Inv(c, m) && Driven(n, m)
    requires n.queue != [] && n.queue[0].Some? && GoodPending(u, n.queue[0].value, |n.slots|) && k <= |n.queue[0].value|
    ensures Reaches(c, m, PostsOf(n.queue[0].value, n.gen, k), r) && Inv(c, r) && |r.slots| == |m.slots|
    ensures forall i | 0 <= i < |n.slots| :: PostedSlot(u, n, k, i, m.slots[i], r.slots[i])
  {
    hide Inv, Settle, Tracks, SampleOf, Excluded, Reaches;
    var p := n.queue[0].value;
    if k == 0 {
      r := m;
      ReachNone(c, m);
    } else {
      var q := PostsReach(c, u, n, m, k - 1);
      var row := p[k - 1];
      var i := row.slot;
      if Settleable(row, n.gen) {
        ParkedDriven(n, m.slots[i], i, 0, k - 1);
        assert PostedSlot(u, n, k - 1, i, m.slots[i], q.slots[i]);
        assert q.slots[i] == m.slots[i];
        r := PostOne(c, u, n, q, i, row.sample);
        ReachJoin(c, m, PostsOf(p, n.gen, k - 1), q, [Post(i, row.sample.numSampled)], r);
      } else {
        r := q;
        assert PostsOf(p, n.gen, k) == PostsOf(p, n.gen, k - 1);
      }
      PostedNext(u, n, k, m, q, r);
    }
  }

  lemma PostedNext<S>(u: Setup, n: Rank, k: nat, m: Machine<S>, q: Machine<S>, r: Machine<S>)
    requires GoodSetup(u) && n.queue != [] && n.queue[0].Some? && 0 < k <= |n.queue[0].value|
    requires GoodPending(u, n.queue[0].value, |n.slots|) && |m.slots| == |q.slots| == |r.slots| == |n.slots|
    requires forall x | 0 <= x < |n.slots| :: PostedSlot(u, n, k - 1, x, m.slots[x], q.slots[x])
    requires var row := n.queue[0].value[k - 1];
             if Settleable(row, n.gen)
             then OnlySlot(q, r, row.slot) && m.slots[row.slot].occ.Occupied?
                 && SlotSettled(u, n.slots[row.slot], row.sample, m.slots[row.slot], r.slots[row.slot])
             else r == q
    ensures forall x | 0 <= x < |n.slots| :: PostedSlot(u, n, k, x, m.slots[x], r.slots[x])
  {
    hide Settle, Tracks, Excluded;
    forall x | 0 <= x < |n.slots|
      ensures PostedSlot(u, n, k, x, m.slots[x], r.slots[x])
    {
      assert PostedSlot(u, n, k - 1, x, m.slots[x], q.slots[x]);
    }
  }

  ghost predicate SlotSettled(u: Setup, v: SlotVars, s: Sample, was: Slot, now: Slot)
    requires GoodSetup(u) && was.occ.Occupied?
  {
    && now.occ.Occupied? && now.occ.phase.Idle? && now.occ.req == was.occ.req
    && s.numSampled <= |s.tokens| && Tracks(Settle(u, v, s, 0), now)
  }

  lemma PostOne<S>(c: Config<S>, u: Setup, n: Rank, m: Machine<S>, i: nat, s: Sample) returns (r: Machine<S>)
    requires GoodConfig(c) && GoodSetup(u) && c.bs == u.bs && Inv(c, m) && s.numSampled <= |s.tokens|
    requires i < |n.slots| && Live(m, i) && m.slots[i].occ.phase.Computed? && Tracks(n.slots[i], m.slots[i])
    requires SampleOf(s, m.slots[i].occ.phase.drafts)
    ensures Reaches(c, m, [Post(i, s.numSampled)], r) && Inv(c, r) && OnlySlot(m, r, i)
    ensures r.slots[i].occ.Occupied? && r.slots[i].occ.phase.Idle? && r.slots[i].occ.req == m.slots[i].occ.req
    ensures Tracks(Settle(u, n.slots[i], s, 0), r.slots[i])
  {
    hide Inv, Enabled, Defined, Apply, Tracks, Settle, SampleOf;
    SettleTracks(c, u, m, i, n.slots[i], s);
    r := Apply(c, m, Post(i, s.numSampled));
    ReachOne(c, m, Post(i, s.numSampled));
  }

  /** After the deferred posts the machine is what the rank believes after consuming the entry. */
  lemma ConsumeDriven<S>(u: Setup, n: Rank, m: Machine<S>, r: Machine<S>)
    requires GoodSetup(u) && GoodRank(u, n) && Driven(n, m) && ParkedOnce(n) && n.queue != [] && |r.slots| == |m.slots|
    requires if n.queue[0].None? then r == m
             else forall i | 0 <= i < |n.slots| :: PostedSlot(u, n, |n.queue[0].value|, i, m.slots[i], r.slots[i])
    ensures Driven(ConsumeOldest(u, n), r)
  {
    hide Settle, SampleOf;
    var x := ConsumeOldest(u, n);
    forall i | 0 <= i < |n.slots|
      ensures SlotDriven(x, r.slots[i], i)
    {
      assert SlotDriven(n, m.slots[i], i);
      assert forall k: nat, a: nat :: ParkedAt(x, k, a, i) ==> ParkedAt(n, k + 1, a, i);
      ConsumeSlotDriven(u, n, x, m.slots[i], r.slots[i], i);
    }
  }

  lemma ConsumeSlotDriven(u: Setup, n: Rank, x: Rank, was: Slot, now: Slot, i: nat)
    requires GoodSetup(u) && GoodRank(u, n) && ParkedOnce(n) && n.queue != [] && x == ConsumeOldest(u, n)
    requires i < |n.slots| && SlotDriven(n, was, i)
    requires if n.queue[0].None? then now == was else PostedSlot(u, n, |n.queue[0].value|, i, was, now)
    ensures SlotDriven(x, now, i)
  {
    hide Settle, SampleOf, Tracks;
    forall k: nat, a: nat | ParkedAt(x, k, a, i)
      ensures k + 1 < |n.queue| && ParkedAt(n, k + 1, a, i) && x.queue[k] == n.queue[k + 1]
    {}
    forall k: nat, a: nat | ParkedAt(n, k, a, i) && k > 0
      ensures ParkedAt(x, k - 1, a, i)
    {}
    var row := if n.queue[0].Some? then RowFor(n.queue[0].value, i) else None;
    if row.Some? && Settleable(n.queue[0].value[row.value], n.gen) {
      var a := row.value;
      assert ParkedAt(n, 0, a, i);
      ParkedDriven(n, was, i, 0, a);
      var settled := Settle(u, n.slots[i], n.queue[0].value[a].sample, 0);
      assert Tracks(settled, now);
      SettleOwner(u, n.slots[i], n.queue[0].value[a].sample);
      assert x.slots[i] == settled || x.slots[i] == settled.(drafts := n.queue[0].value[a].sample.drafts);
      TracksDrafts(settled, n.queue[0].value[a].sample.drafts, now);
    } else {
      assert x.slots[i] == n.slots[i];
      assert now == was;
    }
  }

  lemma TracksDrafts(v: SlotVars, drafts: seq<int>, s: Slot)
    ensures Tracks(v.(drafts := drafts), s) <==> Tracks(v, s)
    ensures Tracks(v, s) ==> s.occ.Occupied?
  {}

  lemma SettleOwner(u: Setup, v: SlotVars, s: Sample)
    requires GoodSetup(u) && s.numSampled <= |s.tokens|
    ensures Settle(u, v, s, 0).owner == v.owner
  {
    hide Aligned, AcceptedCount;
  }

  // ---- Scheduler and allocator moves -----------------------------------------------------------------

  /** The moves between two batches: the step's changes in order, mixed with allocator moves. */
  ghost predicate Allocates(es: seq<Event>, chs: seq<Change>)
    decreases |es|
  {
    if es == [] then chs == []
    else match es[0]
         case Extend(_, _) => Allocates(es[1..], chs)
         case Evict(_) => Allocates(es[1..], chs)
         case Release(i) => chs != [] && chs[0] == Free(i) && Allocates(es[1..], chs[1..])
         case Admit(i, req, row, hist) =>
           && chs != [] && chs[0].Admit? && chs[0].slot == i && chs[0].req == req && chs[0].computed == |hist|
           && Allocates(es[1..], chs[1..])
         case _ => false
  }

  lemma {:induction false} ApplyChangesFront(u: Setup, r: Rank, chs: seq<Change>)
    requires GoodSetup(u) && |r.gen| == |r.slots| && ChangesInRange(chs, |r.slots|) && chs != []
    ensures |ApplyChange(u, r, chs[0]).gen| == |ApplyChange(u, r, chs[0]).slots| == |r.slots|
    ensures ApplyChanges(u, r, chs) == ApplyChanges(u, ApplyChange(u, r, chs[0]), chs[1..])
    decreases |chs|
  {
    if |chs| == 1 {
      assert chs[..0] == [] && chs[1..] == [];
    } else {
      var n := |chs| - 1;
      ApplyChangesFront(u, r, chs[..n]);
      assert chs[..n][1..] == chs[1..][..n - 1];
    }
  }

  /** One change of the scheduler, as the rank and the machine see it. */
  lemma ChangeDriven<S>(c: Config<S>, u: Setup, n: Rank, m: Machine<S>, e: Event, ch: Change)
    requires GoodConfig(c) && GoodSetup(u) && c.bs == u.bs && Inv(c, m) && Driven(n, m) && Owned(n)
    requires Enabled(c, m, e) && Defined(c, m, e) && ch.slot < |n.slots|
    requires if e.Release? then ch == Free(e.i)
             else e.Admit? && ch.Admit? && ch.slot == e.i && ch.req == e.req && ch.computed == |e.hist|
    ensures Driven(ApplyChange(u, n, ch), Apply(c, m, e)) && Owned(ApplyChange(u, n, ch))
  {
    hide Inv, SampleOf, Injective, Unused, Settled;
    var x, r := ApplyChange(u, n, ch), Apply(c, m, e);
    forall k, a | 0 <= k < |x.queue| && x.queue[k].Some? && 0 <= a < |x.queue[k].value|
      ensures RowOwned(x.queue[k].value[a], x.gen, x.slots)
    {
      assert RowOwned(n.queue[k].value[a], n.gen, n.slots);
      assert SlotDriven(n, m.slots[ch.slot], ch.slot);
    }
    forall i | 0 <= i < |x.slots|
      ensures SlotDriven(x, r.slots[i], i)
    {
      assert SlotDriven(n, m.slots[i], i);
      ParkedAfterChange(u, n, ch, i);
    }
  }

  /** A change leaves no parked result on its own slot and all of them on the others. */
  lemma ParkedAfterChange(u: Setup, n: Rank, ch: Change, i: nat)
    requires GoodSetup(u) && |n.gen| == |n.slots| && ch.slot < |n.slots| && i < |n.slots| && Owned(n)
    requires ch.Admit? ==> n.slots[ch.slot].owner < 0
    ensures i == ch.slot ==> forall k: nat, a: nat :: !ParkedAt(ApplyChange(u, n, ch), k, a, i)
    ensures i != ch.slot ==> forall k: nat, a: nat :: ParkedAt(ApplyChange(u, n, ch), k, a, i) <==> ParkedAt(n, k, a, i)
  {
    var x := ApplyChange(u, n, ch);
    assert x.queue == n.queue;
    forall k: nat, a: nat | k < |n.queue| && n.queue[k].Some? && a < |n.queue[k].value|
      ensures RowOwned(n.queue[k].value[a], n.gen, n.slots)
    {}
  }

  /** An allocator move changes no slot but its row. */
  lemma MoveDriven<S>(c: Config<S>, n: Rank, m: Machine<S>, e: Event)
    requires GoodConfig(c) && Driven(n, m) && (e.Extend? || e.Evict?) && Enabled(c, m, e) && Defined(c, m, e)
    ensures Driven(n, Apply(c, m, e))
  {
    hide SampleOf, Excluded, Unused;
    forall i | 0 <= i < |n.slots|
      ensures SlotDriven(n, Apply(c, m, e).slots[i], i)
    {
      assert SlotDriven(n, m.slots[i], i);
    }
  }

  lemma {:induction false} AllocDriven<S>(c: Config<S>, u: Setup, n: Rank, m: Machine<S>, es: seq<Event>,
          chs: seq<Change>, r: Machine<S>)
    requires GoodConfig(c) && GoodSetup(u) && c.bs == u.bs && Inv(c, m) && Driven(n, m) && Owned(n)
    requires Reaches(c, m, es, r) && Allocates(es, chs) && ChangesInRange(chs, |n.slots|)
    ensures Driven(ApplyChanges(u, n, chs), r) && Inv(c, r)
    decreases |es|
  {
    hide Inv, Enabled, Defined, Apply, Driven, Owned, ApplyChange;
    DrivenSizes(n, m);
    if es != [] {
      StepSafe(c, m, es[0]);
      var x := Apply(c, m, es[0]);
      if es[0].Extend? || es[0].Evict? {
        MoveDriven(c, n, m, es[0]);
        AllocDriven(c, u, n, x, es[1..], chs, r);
      } else {
        ChangeDriven(c, u, n, m, es[0], chs[0]);
        ApplyChangesFront(u, n, chs);
        AllocDriven(c, u, ApplyChange(u, n, chs[0]), x, es[1..], chs[1..], r);
      }
    }
  }

  lemma DrivenSizes<S>(n: Rank, m: Machine<S>)
    requires Driven(n, m)
    ensures |m.slots| == |n.slots| == |n.gen|
  {}

  // ---- The batch ---------------------------------------------------------------------------------------

  /** What the scheduler sends for each row: its tokens, the last ones drafts. */
  datatype Plan = Plan(toks: seq<seq<int>>, drafts: seq<nat>)

  /** The events of one row on a rank that is not the last.  For a chunk without a sample the Post event
      stands for doing nothing: see UnsampledNeedsNoPost. */
  function RowEvents(i: nat, toks: seq<int>, drafts: nat, s: Sample, fill: bool): seq<Event> {
    StepEvents(i, toks, drafts) + if s.numSampled == 0 then [Post(i, 0)] else if fill then [Fill(i)] else []
  }

  function BatchEvents(st: StepIn, plan: Plan, k: nat): seq<Event>
    requires k <= |st.batch| == |st.samples| && |plan.toks| == |plan.drafts| == |st.batch|
  {
    if k == 0 then []
    else BatchEvents(st, plan, k - 1)
         + RowEvents(st.batch[k - 1].slot, plan.toks[k - 1], plan.drafts[k - 1], st.samples[k - 1],
             FillsCounts(st.batch))
  }

  /** The row's tokens and drafts fit its counts and its blocks. */
  ghost predicate RoomFor<S>(c: Config<S>, s: Slot, row: BatchRow, toks: seq<int>, drafts: nat, sample: Sample)
    requires GoodConfig(c)
  {
    && |toks| == row.scheduled && drafts <= c.spec && drafts < |toks| && SampleOf(sample, drafts)
    && (s.occ.Occupied? ==> RunningColumn(|s.occ.hist| + |toks|, c.bs) + drafts < |s.occ.row|)
  }

  ghost predicate Room<S>(c: Config<S>, m: Machine<S>, st: StepIn, plan: Plan)
    requires GoodConfig(c)
  {
    && |plan.toks| == |plan.drafts| == |st.batch| == |st.samples|
    && forall b | 0 <= b < |st.batch| :: st.batch[b].slot < |m.slots| &&
         RoomFor(c, m.slots[st.batch[b].slot], st.batch[b], plan.toks[b], plan.drafts[b], st.samples[b])
  }

  /** Slot after its row: waiting for its sample, or settled when there is none. */
  ghost predicate RowDone(u: Setup, v: SlotVars, row: BatchRow, toks: seq<int>, drafts: nat, sample: Sample,
                          fill: bool, was: Slot, now: Slot)
    requires GoodSetup(u)
  {
    && was.occ.Occupied? && now.occ.Occupied? && now.occ.req == was.occ.req && Tracks(OtherRow(u, v, row, fill), now)
    && now.occ.phase == if sample.numSampled == 0 then Phase.Idle else Phase.Computed(toks, drafts)
  }

  lemma RowReach<S>(c: Config<S>, u: Setup, m: Machine<S>, i: nat, v: SlotVars, row: BatchRow, toks: seq<int>,
                    drafts: nat, s: Sample, fill: bool)
    returns (r: Machine<S>)
    requires GoodConfig(c) && GoodSetup(u) && c.bs == u.bs && Inv(c, m) && i < |m.slots|
    requires m.slots[i].occ.Occupied? && m.slots[i].occ.phase.Idle? && Tracks(v, m.slots[i])
    requires RoomFor(c, m.slots[i], row, toks, drafts, s) && (s.numSampled == 0 ==> fill)
    ensures Reaches(c, m, RowEvents(i, toks, drafts, s, fill), r) && Inv(c, r) && OnlySlot(m, r, i)
    ensures RowDone(u, v, row, toks, drafts, s, fill, m.slots[i], r.slots[i])
  {
    hide Inv, Tracks, Apply, Defined, OtherRow, RunningColumn;
    var q := ScheduleTracks(c, u, m, i, v, row, toks, drafts);
    if s.numSampled == 0 {
      UnsampledNeedsNoPost(c, u, q, i, v, row);
      r := PostZero(c, q, i);
      ReachJoin(c, m, StepEvents(i, toks, drafts), q, [Post(i, 0)], r);
    } else if fill {
      FillTracks(c, u, q, i, v, row);
      r := FillOne(c, q, i);
      ReachJoin(c, m, StepEvents(i, toks, drafts), q, [Fill(i)], r);
    } else {
      r := q;
      assert RowEvents(i, toks, drafts, s, fill) == StepEvents(i, toks, drafts);
    }
  }

  lemma PostZero<S>(c: Config<S>, m: Machine<S>, i: nat) returns (r: Machine<S>)
    requires GoodConfig(c) && CanPost(m, i, 0) && PostAccess(c, m, i, 0)
    ensures Reaches(c, m, [Post(i, 0)], r) && r == ApplyPost(c, m, i, 0)
  {
    hide ApplyPost, PostAccess;
    ReachOne(c, m, Post(i, 0));
    r := Apply(c, m, Post(i, 0));
  }

  lemma FillOne<S>(c: Config<S>, m: Machine<S>, i: nat) returns (r: Machine<S>)
    requires GoodConfig(c) && Inv(c, m) && Enabled(c, m, Fill(i))
    ensures Reaches(c, m, [Fill(i)], r) && r == Apply(c, m, Fill(i)) && Inv(c, r)
  {
    hide Inv;
    ReachOne(c, m, Fill(i));
    StepSafe(c, m, Fill(i));
    r := Apply(c, m, Fill(i));
  }

  /** Every scheduled slot is idle and tracked. */
  ghost predicate RowsReady<S>(n: Rank, m: Machine<S>, st: StepIn) {
    && |m.slots| == |n.slots| == |n.gen| && GoodBatch(st.batch, |n.slots|) && |st.samples| == |st.batch|
    && forall b | 0 <= b < |st.batch| ::
         var i := st.batch[b].slot;
         m.slots[i].occ.Occupied? && m.slots[i].occ.phase.Idle? && Tracks(n.slots[i], m.slots[i])
  }

  /** And a row without a sample waits for none. */
  ghost predicate BatchReady<S>(n: Rank, m: Machine<S>, st: StepIn) {
    && RowsReady(n, m, st)
    && forall b | 0 <= b < |st.batch| :: st.samples[b].numSampled == 0 ==> !NeedsSampled(st.batch[b])
  }

  ghost predicate RowsDone<S>(u: Setup, n: Rank, m: Machine<S>, st: StepIn, plan: Plan, k: nat, r: Machine<S>)
    requires GoodSetup(u) && k <= |st.batch| == |st.samples| && |plan.toks| == |plan.drafts| == |st.batch|
  {
    && |r.slots| == |m.slots| == |n.slots|
    && (forall b | 0 <= b < k :: st.batch[b].slot < |m.slots| &&
          RowDone(u, n.slots[st.batch[b].slot], st.batch[b], plan.toks[b], plan.drafts[b], st.samples[b],
              FillsCounts(st.batch),
                  m.slots[st.batch[b].slot], r.slots[st.batch[b].slot]))
    && (forall i | 0 <= i < |m.slots| && (forall b | 0 <= b < k :: st.batch[b].slot != i) :: r.slots[i] == m.slots[i])
  }

  lemma {:induction false} RowsReach<S>(c: Config<S>, u: Setup, n: Rank, m: Machine<S>, st: StepIn, plan: Plan,
          k: nat) returns (r: Machine<S>)
    requires GoodConfig(c) && GoodSetup(u) && c.bs == u.bs && Inv(c, m)
    requires BatchReady(n, m, st) && Room(c, m, st, plan) && k <= |st.batch|
    ensures Reaches(c, m, BatchEvents(st, plan, k), r) && Inv(c, r) && RowsDone(u, n, m, st, plan, k, r)
  {
    hide Inv, Tracks, OtherRow, RoomFor, NeedsSampled, RowDone, Reaches, RowEvents;
    if k == 0 {
      r := m;
      ReachNone(c, m);
    } else {
      var q := RowsReach(c, u, n, m, st, plan, k - 1);
      var row := st.batch[k - 1];
      var i := row.slot;
      assert q.slots[i] == m.slots[i];
      assert RoomFor(c, m.slots[i], row, plan.toks[k - 1], plan.drafts[k - 1], st.samples[k - 1]);
      r := RowReach(c, u, q, i, n.slots[i], row, plan.toks[k - 1], plan.drafts[k - 1], st.samples[k - 1],
          FillsCounts(st.batch));
      ReachJoin(c, m, BatchEvents(st, plan, k - 1), q,
                RowEvents(i, plan.toks[k - 1], plan.drafts[k - 1], st.samples[k - 1], FillsCounts(st.batch)), r);
      RowsNext(u, n, m, st, plan, k, q, r);
    }
  }

  lemma RowsNext<S>(u: Setup, n: Rank, m: Machine<S>, st: StepIn, plan: Plan, k: nat, q: Machine<S>, r: Machine<S>)
    requires GoodSetup(u) && 0 < k <= |st.batch| == |st.samples| && |plan.toks| == |plan.drafts| == |st.batch|
    requires GoodBatch(st.batch, |n.slots|) && RowsDone(u, n, m, st, plan, k - 1, q)
    requires var i := st.batch[k - 1].slot;
             && OnlySlot(q, r, i)
             && RowDone(u, n.slots[i], st.batch[k - 1], plan.toks[k - 1], plan.drafts[k - 1], st.samples[k - 1],
                  FillsCounts(st.batch), m.slots[i], r.slots[i])
    ensures RowsDone(u, n, m, st, plan, k, r)
  {
    hide RowDone;
  }

  /** A row that the mask drops takes the slot to its limit. */
  predicate DropsAtLimit(v: SlotVars, row: BatchRow) {
    Dropped(row) ==> Finished(v.(computed := v.computed + row.scheduled))
  }

  lemma LegalDrops(c: Setup, l: SlotVars, v: SlotVars, row: BatchRow, s: Sample)
    requires LegalRow(c, l, row, s) && Same(c, v, l)
    ensures DropsAtLimit(v, row) && !Finished(v) && v.owner == row.req && GoodSample(c, row, s)
  {}

  /** A slot the batch schedules, after the batch and the post of its entry. */
  lemma RowSlotDriven(c: Setup, n: Rank, st: StepIn, b: nat, toks: seq<int>, drafts: nat, was: Slot, now: Slot)
    requires GoodSetup(c) && GoodRank(c, n) && |n.queue| > 0 && GoodStep(c, |n.slots|, st) && b < |st.batch|
    requires BatchRowFor(st.batch, st.batch[b].slot) == Some(b)
    requires NoValid(n.queue, n.gen, st.batch[b].slot) && n.slots[st.batch[b].slot].owner >= 0
    requires SlotDriven(n, was, st.batch[b].slot) && SampleOf(st.samples[b], drafts)
    requires GoodSample(c, st.batch[b], st.samples[b]) && DropsAtLimit(n.slots[st.batch[b].slot], st.batch[b])
    requires RowDone(c, n.slots[st.batch[b].slot], st.batch[b], toks, drafts, st.samples[b], FillsCounts(st.batch),
        was, now)
    ensures SlotDriven(OtherBatch(c, n, st), now, st.batch[b].slot)
  {
    hide Aligned, RunningColumn, NotFinishing, Settles;
    var i, y := st.batch[b].slot, OtherBatch(c, n, st);
    RowVars(c, n.slots[i], st.batch[b], FillsCounts(st.batch));
    PostedParked(c, n, st, b);
  }

  lemma RowVars(c: Setup, v: SlotVars, row: BatchRow, fill: bool)
    requires GoodSetup(c)
    ensures OtherRow(c, v, row, fill).owner == v.owner
    ensures DropsAtLimit(v, row) && Dropped(row) ==> Finished(OtherRow(c, v, row, fill))
  {}

  /** After the post, slot i waits exactly for the row just posted, if that is needed. */
  lemma PostedParked(c: Setup, n: Rank, st: StepIn, b: nat)
    requires GoodSetup(c) && GoodRank(c, n) && |n.queue| > 0 && GoodStep(c, |n.slots|, st) && b < |st.batch|
    requires NoValid(n.queue, n.gen, st.batch[b].slot)
    ensures forall k: nat, a: nat | ParkedAt(OtherBatch(c, n, st), k, a, st.batch[b].slot) ::
              && a == b && NeedsSampled(st.batch[b])
              && OtherBatch(c, n, st).queue[k].value[a].sample.numSampled == st.samples[b].numSampled
              && OtherBatch(c, n, st).queue[k].value[a].sample.numRejected == st.samples[b].numRejected
    ensures NeedsSampled(st.batch[b]) ==> ParkedAt(OtherBatch(c, n, st), |n.queue| - 1, b, st.batch[b].slot)
  {
    hide ProducesSample, NotFinishing, Settle, OtherRow;
    var y := OtherBatch(c, n, st);
    var e := PostedEntry(c, n.gen, st);
    if e.Some? {
      assert forall a | 0 <= a < |e.value| :: e.value[a].slot == st.batch[a].slot;
    }
    forall k: nat, a: nat | ParkedAt(y, k, a, st.batch[b].slot)
      ensures k == |n.queue| - 1
    {}
  }

  /** A slot the batch leaves alone. */
  lemma IdleSlotDriven(c: Setup, n: Rank, st: StepIn, i: nat, s: Slot)
    requires GoodSetup(c) && GoodRank(c, n) && |n.queue| > 0 && n.queue[|n.queue| - 1].None?
        && GoodStep(c, |n.slots|, st)
    requires i < |n.slots| && BatchRowFor(st.batch, i).None? && SlotDriven(n, s, i)
    ensures SlotDriven(OtherBatch(c, n, st), s, i)
  {
    hide NeedsSampled, Settle, OtherRow, SampleOf;
    var y := OtherBatch(c, n, st);
    var e := PostedEntry(c, n.gen, st);
    if e.Some? {
      assert forall a | 0 <= a < |e.value| :: e.value[a].slot == st.batch[a].slot;
    }
    forall k: nat, a: nat
      ensures ParkedAt(y, k, a, i) <==> ParkedAt(n, k, a, i)
    {}
  }

  lemma BatchDriven<S>(c: Config<S>, u: Setup, n: Rank, m: Machine<S>, st: StepIn, plan: Plan) returns (r: Machine<S>)
    requires GoodConfig(c) && GoodSetup(u) && c.bs == u.bs && Inv(c, m) && Driven(n, m) && Room(c, m, st, plan)
    requires GoodRank(u, n) && |n.queue| > 0 && n.queue[|n.queue| - 1].None? && GoodStep(u, |n.slots|, st)
    requires forall b | 0 <= b < |st.batch| :: ReadyRow(u, n, st.batch[b], st.samples[b])
    ensures Reaches(c, m, BatchEvents(st, plan, |st.batch|), r) && Inv(c, r) && Driven(OtherBatch(u, n, st), r)
    ensures BatchReady(n, m, st)
  {
    hide Inv, Tracks, OtherRow, RoomFor, GoodSample, NeedsSampled, SampleOf, Settle, NoValid, RowDone, Reaches,
         BatchEvents;
    forall b | 0 <= b < |st.batch|
      ensures m.slots[st.batch[b].slot].occ.Occupied? && m.slots[st.batch[b].slot].occ.phase.Idle?
      ensures Tracks(n.slots[st.batch[b].slot], m.slots[st.batch[b].slot])
      ensures st.samples[b].numSampled == 0 ==> !NeedsSampled(st.batch[b])
    {
      assert SlotDriven(n, m.slots[st.batch[b].slot], st.batch[b].slot);
      ReadyIdle(u, n, m.slots[st.batch[b].slot], st.batch[b], st.samples[b]);
    }
    r := RowsReach(c, u, n, m, st, plan, |st.batch|);
    forall i | 0 <= i < |n.slots|
      ensures SlotDriven(OtherBatch(u, n, st), r.slots[i], i)
    {
      assert SlotDriven(n, m.slots[i], i);
      if BatchRowFor(st.batch, i).None? {
        IdleSlotDriven(u, n, st, i, m.slots[i]);
      } else {
        var b := BatchRowFor(st.batch, i).value;
        RoomSample(c, m.slots[i], st.batch[b], plan.toks[b], plan.drafts[b], st.samples[b]);
        assert ReadyRow(u, n, st.batch[b], st.samples[b]);
        RowSlotDriven(u, n, st, b, plan.toks[b], plan.drafts[b], m.slots[i], r.slots[i]);
      }
    }
  }

  /** What the relay guarantees of a row when it is scheduled. */
  ghost predicate ReadyRow(u: Setup, n: Rank, row: BatchRow, s: Sample) {
    && row.slot < |n.gen| && row.slot < |n.slots| && NoValid(n.queue, n.gen, row.slot)
    && n.slots[row.slot].owner == row.req && !Finished(n.slots[row.slot]) && DropsAtLimit(n.slots[row.slot], row)
    && GoodSample(u, row, s)
  }

  lemma ReadyIdle(u: Setup, n: Rank, s: Slot, row: BatchRow, sample: Sample)
    requires ReadyRow(u, n, row, sample) && SlotDriven(n, s, row.slot)
    ensures s.occ.Occupied? && s.occ.phase.Idle? && Tracks(n.slots[row.slot], s) && s.occ.req == row.req
    ensures sample.numSampled == 0 ==> !NeedsSampled(row)
  {
    hide SampleOf;
  }

  lemma RoomSample<S>(c: Config<S>, s: Slot, row: BatchRow, toks: seq<int>, drafts: nat, sample: Sample)
    requires GoodConfig(c) && RoomFor(c, s, row, toks, drafts, sample)
    ensures SampleOf(sample, drafts)
  {}

  // ---- Whole runs ------------------------------------------------------------------------------------------

  /** Launching the events: each leads to its result if it is enabled and stays inside its blocks. */
  ghost predicate Launches<S>(c: Config<S>, m: Machine<S>, es: seq<Event>, n: Machine<S>)
    requires GoodConfig(c)
    decreases |es|
  {
    if es == [] then n == m
    else Enabled(c, m, es[0]) && Defined(c, m, es[0]) ==> Launches(c, Apply(c, m, es[0]), es[1..], n)
  }

  lemma {:induction false} LaunchesReach<S>(c: Config<S>, m: Machine<S>, es: seq<Event>, n: Machine<S>, x: Machine<S>)
    requires GoodConfig(c) && Launches(c, m, es, n) && Reaches(c, m, es, x)
    ensures n == x
    decreases |es|
  {
    hide Enabled, Defined, Apply;
    if es != [] {
      LaunchesReach(c, Apply(c, m, es[0]), es[1..], n, x);
    }
  }

  /** A step of the rank's device: deferred posts, scheduler and allocator moves, the batch. */
  ghost predicate DeviceStep<S>(c: Config<S>, n: Rank, st: StepIn, plan: Plan, moves: seq<Event>, a: Machine<S>,
                                p: Machine<S>, q: Machine<S>, b: Machine<S>)
    requires GoodConfig(c)
  {
    && Launches(c, a, PostEvents(n), p)
    && Reaches(c, p, moves, q) && Allocates(moves, st.changes)
    && Room(c, q, st, plan) && Launches(c, q, BatchEvents(st, plan, |st.batch|), b)
  }

  /** The machines of a rank that is not the last along a run of the relay. */
  ghost predicate DeviceRun<S>(c: Config<S>, u: Setup, ls: seq<Rank>, ns: seq<Rank>, sts: seq<StepIn>,
                               plans: seq<Plan>, moves: seq<seq<Event>>,
                               starts: seq<Machine<S>>, posted: seq<Machine<S>>, moved: seq<Machine<S>>)
    requires GoodConfig(c) && GoodSetup(u)
  {
    && c.bs == u.bs && RelayRuns.IsRun(u, ls, ns, sts)
    && |starts| == |sts| + 1 && |plans| == |moves| == |posted| == |moved| == |sts|
    && Initial(c, starts[0]) && |starts[0].slots| == |ns[0].slots|
    && (forall i | 0 <= i < |ns[0].slots| :: starts[0].slots[i].regs == ns[0].slots[i].regs)
    && forall t | 0 <= t < |sts| :: DeviceStep(c, ns[t], sts[t], plans[t], moves[t], starts[t], posted[t], moved[t],
         starts[t + 1])
  }

  lemma StartDriven<S>(c: Config<S>, u: Setup, l: Rank, n: Rank, m: Machine<S>)
    requires GoodConfig(c) && GoodSetup(u) && RelayRuns.Initial(u, l, n) && Initial(c, m) && |m.slots| == |n.slots|
    requires forall i | 0 <= i < |n.slots| :: m.slots[i].regs == n.slots[i].regs
    ensures Inv(c, m) && Driven(n, m)
  {
    forall i | 0 <= i < |n.slots|
      ensures SlotDriven(n, m.slots[i], i)
    {
      assert l.slots[i] in l.slots && m.slots[i] in m.slots;
    }
  }

  lemma RunParkedOnce(u: Setup, ls: seq<Rank>, ns: seq<Rank>, sts: seq<StepIn>, t: nat)
    requires GoodSetup(u) && RelayRuns.IsRun(u, ls, ns, sts) && t <= |sts|
    ensures ParkedOnce(ns[t])
  {
    hide Excluded;
    forall i: nat, k: nat, a: nat, l: nat, b: nat | ParkedAt(ns[t], k, a, i) && ParkedAt(ns[t], l, b, i)
      ensures k == l && a == b
    {
      if k <= l {
        OneParked(u, ls, ns, sts, t, k, a, l, b);
      } else {
        OneParked(u, ls, ns, sts, t, l, b, k, a);
      }
    }
  }

  /** What one step of the device does, when it starts as the relay believes. */
  ghost predicate StepDone<S>(c: Config<S>, u: Setup, n: Rank, n': Rank, st: StepIn, plan: Plan, a: Machine<S>,
                              p: Machine<S>, q: Machine<S>, b: Machine<S>)
    requires GoodConfig(c) && GoodSetup(u) && GoodRank(u, n) && |n.queue| > 0 && GoodStep(u, |n.slots|, st)
  {
    && |plan.toks| == |plan.drafts| == |st.batch| == |st.samples|
    && Reaches(c, a, PostEvents(n), p) && Inv(c, p) && Driven(ConsumeOldest(u, n), p)
    && Inv(c, q) && Driven(ApplyChanges(u, ConsumeOldest(u, n), st.changes), q)
    && BatchReady(ApplyChanges(u, ConsumeOldest(u, n), st.changes), q, st)
    && Reaches(c, q, BatchEvents(st, plan, |st.batch|), b) && Inv(c, b) && Driven(n', b)
  }

  lemma PostsDriven<S>(c: Config<S>, u: Setup, n: Rank, a: Machine<S>, p: Machine<S>)
    requires GoodConfig(c) && GoodSetup(u) && c.bs == u.bs && Inv(c, a) && Driven(n, a) && ParkedOnce(n)
    requires GoodRank(u, n) && |n.queue| > 0 && Launches(c, a, PostEvents(n), p)
    ensures Reaches(c, a, PostEvents(n), p) && Inv(c, p) && Driven(ConsumeOldest(u, n), p)
  {
    hide Inv, Driven, ParkedOnce, ConsumeOldest, PostedSlot;
    DrivenSizes(n, a);
    if n.queue[0].Some? {
      var r := PostsReach(c, u, n, a, |n.queue[0].value|);
      LaunchesReach(c, a, PostEvents(n), p, r);
    }
    ConsumeDriven(u, n, a, p);
  }

  lemma ReadyRows(u: Setup, l: Rank, n: Rank, st: StepIn)
    requires GoodSetup(u) && Agree(u, l, n) && GoodStep(u, |l.slots|, st) && |n.gen| == |l.slots|
    requires LegalBatch(u, l, n, st)
    ensures forall b | 0 <= b < |st.batch| :: ReadyRow(u, n, st.batch[b], st.samples[b])
  {
    hide GoodSample, NoValid, Same, Drain, Settles, Owned;
    forall b | 0 <= b < |st.batch|
      ensures ReadyRow(u, n, st.batch[b], st.samples[b])
    {
      var i := st.batch[b].slot;
      assert LegalRow(u, l.slots[i], st.batch[b], st.samples[b]);
      ScheduledAgree(u, l, n, i);
      LegalDrops(u, l.slots[i], n.slots[i], st.batch[b], st.samples[b]);
    }
  }

  lemma AgreeParts(u: Setup, l: Rank, n: Rank)
    requires GoodSetup(u) && Agree(u, l, n)
    ensures GoodRank(u, n) && |n.queue| == u.ppSize > 0 && Owned(n) && |n.slots| == |n.gen| == |l.slots|
  {}

  lemma DeviceStepDone<S>(c: Config<S>, u: Setup, ls: seq<Rank>, ns: seq<Rank>, sts: seq<StepIn>, t: nat, plan: Plan,
                          moves: seq<Event>,
                          a: Machine<S>, p: Machine<S>, q: Machine<S>, b: Machine<S>)
    requires GoodConfig(c) && GoodSetup(u) && c.bs == u.bs && RelayRuns.IsRun(u, ls, ns, sts) && t < |sts|
    requires Inv(c, a) && Driven(ns[t], a) && DeviceStep(c, ns[t], sts[t], plan, moves, a, p, q, b)
    ensures GoodRank(u, ns[t]) && |ns[t].queue| > 0 && GoodStep(u, |ns[t].slots|, sts[t])
    ensures StepDone(c, u, ns[t], ns[t + 1], sts[t], plan, a, p, q, b)
  {
    hide Inv, Driven, ParkedOnce, Launches, Reaches, Allocates, Agree, LegalBatch, StepLast, RelayRuns.Timeline,
         RelayRuns.StepLegal, Owned, BatchReady;
    RelayRuns.RunAgrees(u, ls, ns, sts, t);
    RelayRuns.MidStep(u, ls, ns, sts, t);
    assert RelayRuns.Follows(u, ls[t], ns[t], sts[t], ls[t + 1], ns[t + 1]);
    AgreeParts(u, ls[t], ns[t]);
    RunParkedOnce(u, ls, ns, sts, t);
    PostsDriven(c, u, ns[t], a, p);
    ConsumeAgrees(u, ls[t], ns[t]);
    AgreeParts(u, ls[t], ConsumeOldest(u, ns[t]));
    AllocDriven(c, u, ConsumeOldest(u, ns[t]), p, moves, sts[t].changes, q);
    var l1, n1 := ApplyChanges(u, ls[t], sts[t].changes), ApplyChanges(u, ConsumeOldest(u, ns[t]), sts[t].changes);
    AgreeParts(u, l1, n1);
    ReadyRows(u, l1, n1, sts[t]);
    var r := BatchDriven(c, u, n1, q, sts[t], plan);
    LaunchesReach(c, q, BatchEvents(sts[t], plan, |sts[t].batch|), b, r);
    RelayRuns.StepOtherParts(u, ns[t], sts[t]);
  }

  /** In every run, each deferred post, pre-copy, forward and fill of a rank that is not the last is
      enabled and stays inside the blocks of its own request, and the rank's variables keep describing
      the machine. */
  lemma {:induction false} DeviceRunSafe<S>(c: Config<S>, u: Setup, ls: seq<Rank>, ns: seq<Rank>, sts: seq<StepIn>,
          plans: seq<Plan>, moves: seq<seq<Event>>,
                                            starts: seq<Machine<S>>, posted: seq<Machine<S>>, moved: seq<Machine<S>>,
                                                t: nat)
    requires GoodConfig(c) && GoodSetup(u) && DeviceRun(c, u, ls, ns, sts, plans, moves, starts, posted, moved)
    requires t <= |sts|
    ensures Inv(c, starts[t]) && Driven(ns[t], starts[t])
    ensures t < |sts| ==> GoodRank(u, ns[t]) && |ns[t].queue| > 0 && GoodStep(u, |ns[t].slots|, sts[t])
                          && StepDone(c, u, ns[t], ns[t + 1], sts[t], plans[t], starts[t], posted[t], moved[t],
                               starts[t + 1])
  {
    hide Inv, Driven, DeviceStep, StepDone, Initial, RelayRuns.Initial;
    if t == 0 {
      StartDriven(c, u, ls[0], ns[0], starts[0]);
    } else {
      DeviceRunSafe(c, u, ls, ns, sts, plans, moves, starts, posted, moved, t - 1);
      StepDoneKeeps(c, u, ns[t - 1], ns[t], sts[t - 1], plans[t - 1], starts[t - 1], posted[t - 1], moved[t - 1],
          starts[t]);
    }
    if t < |sts| {
      DeviceStepDone(c, u, ls, ns, sts, t, plans[t], moves[t], starts[t], posted[t], moved[t], starts[t + 1]);
    }
  }

  lemma StepDoneKeeps<S>(c: Config<S>, u: Setup, n: Rank, n': Rank, st: StepIn, plan: Plan, a: Machine<S>,
                         p: Machine<S>, q: Machine<S>, b: Machine<S>)
    requires GoodConfig(c) && GoodSetup(u) && GoodRank(u, n) && |n.queue| > 0 && GoodStep(u, |n.slots|, st)
    requires StepDone(c, u, n, n', st, plan, a, p, q, b)
    ensures Inv(c, b) && Driven(n', b)
  {}

  // ---- What follows for the requests ---------------------------------------------------------------------

  /** Whenever a request is scheduled, the device of every other rank holds its recurrent state after
      exactly the last rank's computed count, at the column the last rank's registers name. */
  lemma ScheduledStateFound<S>(c: Config<S>, u: Setup, ls: seq<Rank>, ns: seq<Rank>, sts: seq<StepIn>,
                               plans: seq<Plan>, moves: seq<seq<Event>>,
                               starts: seq<Machine<S>>, posted: seq<Machine<S>>, moved: seq<Machine<S>>, t: nat, b: nat)
    requires GoodConfig(c) && GoodSetup(u) && DeviceRun(c, u, ls, ns, sts, plans, moves, starts, posted, moved)
    requires t < |sts| && b < |sts[t].batch|
    ensures RelayRuns.Shaped(u, ls[t], ns[t]) && RelayRuns.StepLegal(u, ls[t], sts[t])
    ensures var i, m := sts[t].batch[b].slot, moved[t];
            var l := ApplyChanges(u, ls[t], sts[t].changes).slots[i];
            && i < |m.slots| && m.slots[i].occ.Occupied? && m.slots[i].occ.req == sts[t].batch[b].req
            && |m.slots[i].occ.hist| == l.computed
            && (m.slots[i].occ.hist != [] ==> HoldsRunning(c, m, m.slots[i].occ.row, l.regs.stateIdx, l.regs.accepted,
                 m.slots[i].occ.hist))
  {
    hide Inv, Driven, BatchReady, DeviceStep, Reaches, RelayRuns.StepLegal, RelayRuns.IsRun, RelayRuns.Shaped,
         ApplyChange, HoldsRunning, GoodRank;
    RunSizes(u, ls, ns, sts);
    DeviceRunSafe(c, u, ls, ns, sts, plans, moves, starts, posted, moved, t);
    RelayRuns.ScheduledAlike(u, ls, ns, sts, t, b);
    ShapedSizes(u, ls[t], ns[t]);
    LegalOwner(u, ls[t], sts[t], b);
    var n1, i := ApplyChanges(u, ConsumeOldest(u, ns[t]), sts[t].changes), sts[t].batch[b].slot;
    RowTracked(n1, moved[t], sts[t], b);
    if moved[t].slots[i].occ.hist != [] {
      IdleState(c, moved[t], i);
    }
  }

  lemma RunSizes(u: Setup, ls: seq<Rank>, ns: seq<Rank>, sts: seq<StepIn>)
    requires GoodSetup(u) && RelayRuns.IsRun(u, ls, ns, sts)
    ensures |ls| == |ns| == |sts| + 1
  {}

  lemma ShapedSizes(u: Setup, l: Rank, n: Rank)
    requires RelayRuns.Shaped(u, l, n)
    ensures |l.gen| == |l.slots| == |n.slots| == |n.gen| && GoodRank(u, n) && |n.queue| > 0
  {}

  lemma RowTracked<S>(n: Rank, m: Machine<S>, st: StepIn, b: nat)
    requires BatchReady(n, m, st) && Driven(n, m) && b < |st.batch| && st.batch[b].slot < |n.slots|
    requires n.slots[st.batch[b].slot].owner >= 0
    ensures var i := st.batch[b].slot;
            && i < |m.slots| && m.slots[i].occ.Occupied? && m.slots[i].occ.phase.Idle?
                 && m.slots[i].occ.req == n.slots[i].owner
            && m.slots[i].regs == n.slots[i].regs && |m.slots[i].occ.hist| == n.slots[i].computed
  {
    hide SampleOf, Excluded, NeedsSampled;
    assert SlotDriven(n, m.slots[st.batch[b].slot], st.batch[b].slot);
  }

  lemma LegalOwner(u: Setup, l: Rank, st: StepIn, b: nat)
    requires GoodSetup(u) && |l.gen| == |l.slots| && RelayRuns.StepLegal(u, l, st) && b < |st.batch|
    ensures st.batch[b].slot < |l.slots|
    ensures ApplyChanges(u, l, st.changes).slots[st.batch[b].slot].owner == st.batch[b].req
  {
    assert LegalRow(u, ApplyChanges(u, l, st.changes).slots[st.batch[b].slot], st.batch[b], st.samples[b]);
  }

  ghost predicate HoldsRunning<S>(c: Config<S>, m: Machine<S>, row: seq<nat>, stateIdx: int, accepted: int,
                                  hist: seq<int>) {
    && 0 <= stateIdx && 1 <= accepted && stateIdx + accepted - 1 < |row|
    && row[stateIdx + accepted - 1] < |m.pool| && row[stateIdx] < |m.conv|
         && accepted - 1 + c.width <= |m.conv[row[stateIdx]]|
    && m.pool[row[stateIdx + accepted - 1]] == Fold(c.step, c.init, hist)
    && m.conv[row[stateIdx]][accepted - 1..accepted - 1 + c.width] == Window(c.width, hist)
  }

  lemma IdleState<S>(c: Config<S>, m: Machine<S>, i: nat)
    requires GoodConfig(c) && Inv(c, m) && Live(m, i) && m.slots[i].occ.phase.Idle? && m.slots[i].occ.hist != []
    ensures HoldsRunning(c, m, m.slots[i].occ.row, m.slots[i].regs.stateIdx, m.slots[i].regs.accepted,
        m.slots[i].occ.hist)
  {
    assert SlotInv(c, m, m.slots[i]);
  }

  lemma {:induction false} ReachesOnce<S>(c: Config<S>, m: Machine<S>, es: seq<Event>, x: Machine<S>, y: Machine<S>)
    requires GoodConfig(c) && Reaches(c, m, es, x) && Reaches(c, m, es, y)
    ensures x == y
    decreases |es|
  {
    hide Enabled, Defined, Apply;
    if es != [] {
      ReachesOnce(c, Apply(c, m, es[0]), es[1..], x, y);
    }
  }

  /** The blocks of slot x are as they were. */
  ghost predicate BlocksKept<S>(m: Machine<S>, r: Machine<S>, x: nat)
    requires Live(m, x)
  {
    && x < |r.slots| && r.slots[x] == m.slots[x] && |r.pool| == |m.pool| && |r.conv| == |m.conv|
    && forall b | 0 <= b < |m.pool| && b < |m.conv| && b in m.slots[x].occ.row ::
         r.pool[b] == m.pool[b] && r.conv[b] == m.conv[b]
  }

  /** The deferred posts leave every block of a request they do not settle. */
  lemma {:induction false} PostsPrivate<S>(c: Config<S>, u: Setup, n: Rank, m: Machine<S>, k: nat,
          x: nat) returns (r: Machine<S>)
    requires GoodConfig(c) && GoodSetup(u) && c.bs == u.bs && Inv(c, m) && Driven(n, m) && Live(m, x)
    requires n.queue != [] && n.queue[0].Some? && GoodPending(u, n.queue[0].value, |n.slots|) && k <= |n.queue[0].value|
    requires forall a | 0 <= a < k && n.queue[0].value[a].slot == x :: !Settleable(n.queue[0].value[a], n.gen)
    ensures Reaches(c, m, PostsOf(n.queue[0].value, n.gen, k), r) && BlocksKept(m, r, x)
  {
    hide Inv, Settle, Tracks, SampleOf, Excluded, Reaches, CanPost, PostAccess, ApplyPost;
    var p := n.queue[0].value;
    r := PostsReach(c, u, n, m, k);
    if k == 0 {
      NothingReached(c, m, r);
    } else {
      var q := PostsPrivate(c, u, n, m, k - 1, x);
      var q' := PostsReach(c, u, n, m, k - 1);
      ReachesOnce(c, m, PostsOf(p, n.gen, k - 1), q, q');
      if Settleable(p[k - 1], n.gen) {
        PostStepPrivate(c, m, PostsOf(p, n.gen, k - 1), q, p[k - 1].slot, p[k - 1].sample.numSampled, r, x);
      } else {
        assert PostsOf(p, n.gen, k) == PostsOf(p, n.gen, k - 1);
        ReachesOnce(c, m, PostsOf(p, n.gen, k - 1), q, r);
      }
    }
  }

  lemma NothingReached<S>(c: Config<S>, m: Machine<S>, r: Machine<S>)
    requires GoodConfig(c) && Reaches(c, m, [], r)
    ensures r == m
  {}

  lemma {:induction false} ReachLast<S>(c: Config<S>, m: Machine<S>, es: seq<Event>, q: Machine<S>, e: Event,
          r: Machine<S>)
    requires GoodConfig(c) && Reaches(c, m, es, q) && Reaches(c, m, es + [e], r)
    ensures Enabled(c, q, e) && Defined(c, q, e) && r == Apply(c, q, e)
    decreases |es|
  {
    hide Enabled, Defined, Apply;
    if es == [] {
      assert es + [e] == [e] && [e][1..] == [];
    } else {
      assert (es + [e])[1..] == es[1..] + [e];
      ReachLast(c, Apply(c, m, es[0]), es[1..], q, e, r);
    }
  }

  lemma PostStepPrivate<S>(c: Config<S>, m: Machine<S>, es: seq<Event>, q: Machine<S>, i: nat, sampled: nat,
                           r: Machine<S>, x: nat)
    requires GoodConfig(c) && Live(m, x) && Inv(c, q) && BlocksKept(m, q, x) && i != x
    requires Reaches(c, m, es, q) && Reaches(c, m, es + [Post(i, sampled)], r)
    ensures BlocksKept(m, r, x)
  {
    hide Inv, Reaches, PostAccess, CanPost, ApplyPost;
    ReachLast(c, m, es, q, Post(i, sampled), r);
    PostSizes(c, q, i, sampled);
    AlignBatch.PostPrivate(c, q, i, x, sampled);
  }

  lemma PostSizes<S>(c: Config<S>, m: Machine<S>, i: nat, sampled: nat)
    requires GoodConfig(c) && CanPost(m, i, sampled) && PostAccess(c, m, i, sampled)
    ensures var n := ApplyPost(c, m, i, sampled);
            |n.pool| == |m.pool| && |n.conv| == |m.conv| && OnlySlot(m, n, i)
  {
    hide Aligned, Kept;
  }

  /** In every run a deferred post acts on the row of the request whose result it carries. */
  lemma DeferredPostRequest<S>(c: Config<S>, u: Setup, ls: seq<Rank>, ns: seq<Rank>, sts: seq<StepIn>,
                               plans: seq<Plan>, moves: seq<seq<Event>>,
                               starts: seq<Machine<S>>, posted: seq<Machine<S>>, moved: seq<Machine<S>>, t: nat, a: nat)
    requires GoodConfig(c) && GoodSetup(u) && DeviceRun(c, u, ls, ns, sts, plans, moves, starts, posted, moved)
    requires t < |sts|
    requires |ns[t].queue| > 0 && ns[t].queue[0].Some? && a < |ns[t].queue[0].value|
    requires Settleable(ns[t].queue[0].value[a], ns[t].gen)
    ensures t >= u.ppSize && a < |sts[t - u.ppSize].batch|
    ensures var row := sts[t - u.ppSize].batch[a];
            && ns[t].queue[0].value[a].slot == row.slot < |starts[t].slots|
            && starts[t].slots[row.slot].occ.Occupied? && starts[t].slots[row.slot].occ.req == row.req
  {
    hide Inv, DeviceStep, Reaches, RelayRuns.IsRun, Excluded, Tracks, SampleOf, StepDone;
    RunSizes(u, ls, ns, sts);
    DeviceRunSafe(c, u, ls, ns, sts, plans, moves, starts, posted, moved, t);
    RelayRuns.RunShaped(u, ls, ns, sts);
    RelayRuns.DeferredPostOwner(u, ls, ns, sts, t, a);
    var i := ns[t].queue[0].value[a].slot;
    assert SlotDriven(ns[t], starts[t].slots[i], i);
    ParkedDriven(ns[t], starts[t].slots[i], i, 0, a);
  }

  /** In every run the deferred posts of a step leave the blocks of every live request they do not
      settle as they were, whatever slot or batch row it has by then. */
  lemma DeferredPostsPrivate<S>(c: Config<S>, u: Setup, ls: seq<Rank>, ns: seq<Rank>, sts: seq<StepIn>,
                                plans: seq<Plan>, moves: seq<seq<Event>>,
                                starts: seq<Machine<S>>, posted: seq<Machine<S>>, moved: seq<Machine<S>>, t: nat,
                                    x: nat)
    requires GoodConfig(c) && GoodSetup(u) && DeviceRun(c, u, ls, ns, sts, plans, moves, starts, posted, moved)
    requires t < |sts|
    requires Live(starts[t], x)
    requires |ns[t].queue| > 0 && ns[t].queue[0].Some?
    requires forall a | 0 <= a < |ns[t].queue[0].value| && ns[t].queue[0].value[a].slot == x ::
        !Settleable(ns[t].queue[0].value[a], ns[t].gen)
    ensures BlocksKept(starts[t], posted[t], x)
  {
    hide Inv, Driven, DeviceStep, Reaches, RelayRuns.IsRun, Excluded, BatchReady;
    RunSizes(u, ls, ns, sts);
    DeviceRunSafe(c, u, ls, ns, sts, plans, moves, starts, posted, moved, t);
    var r := PostsPrivate(c, u, ns[t], starts[t], |ns[t].queue[0].value|, x);
    ReachesOnce(c, starts[t], PostEvents(ns[t]), r, posted[t]);
  }
}
