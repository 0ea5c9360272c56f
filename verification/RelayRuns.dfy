/** Whole runs of a last rank and another rank under the same scheduler. */
module RelayRuns {
  import opened AlignMachine
  import opened Options
  import opened Relay
  import opened RelayAgreement

  /** The shape of a step: changes of occupied and free slots, rows of the slots' own occupants, and draft
      buffers of the relayed width.  Nothing is said of counts, limits, tokens or rejections. */
  ghost predicate StepShaped(c: Setup, l: Rank, st: StepIn)
    requires GoodSetup(c) && |l.gen| == |l.slots|
  {
    && GoodStep(c, |l.slots|, st) && LegalChanges(c, l, st.changes)
    && (c.relay ==> forall b | 0 <= b < |st.samples| :: |st.samples[b].drafts| == c.width - 1)
    && var changed := ApplyChanges(c, l, st.changes);
       forall b | 0 <= b < |st.batch| :: changed.slots[st.batch[b].slot].owner == st.batch[b].req
  }

  /** What the scheduler may ask for, judged by the last rank's state. */
  ghost predicate StepLegal(c: Setup, l: Rank, st: StepIn)
    requires GoodSetup(c) && |l.gen| == |l.slots|
  {
    && StepShaped(c, l, st)
    && var changed := ApplyChanges(c, l, st.changes);
       forall b | 0 <= b < |st.batch| :: LegalRow(c, changed.slots[st.batch[b].slot], st.batch[b], st.samples[b])
  }

  /** A request whose result is needed is scheduled again no sooner than ppSize steps later. */
  ghost predicate Spaced(c: Setup, sts: seq<StepIn>) {
    forall u, t, a, b | 0 <= u < t < |sts| && t - u < c.ppSize
      && 0 <= a < |sts[u].batch| && 0 <= b < |sts[t].batch| && NeedsSampled(sts[u].batch[a]) ::
      SlotAndReq(sts[u].batch[a]) != SlotAndReq(sts[t].batch[b])
  }

  function SlotAndReq(r: BatchRow): (nat, nat) {
    (r.slot, r.req)
  }

  ghost predicate Shaped(c: Setup, l: Rank, n: Rank) {
    && GoodRank(c, l) && GoodRank(c, n) && |n.slots| == |l.slots| && |n.queue| > 0
  }

  /** Both ranks take a step of the right shape. */
  ghost predicate Steps(c: Setup, l: Rank, n: Rank, st: StepIn, l': Rank, n': Rank)
    requires GoodSetup(c)
  {
    Shaped(c, l, n) ==> StepShaped(c, l, st) && l' == StepLast(c, l, st) && n' == StepOther(c, n, st)
  }

  ghost predicate Follows(c: Setup, l: Rank, n: Rank, st: StepIn, l': Rank, n': Rank)
    requires GoodSetup(c)
  {
    Shaped(c, l, n) ==> StepLegal(c, l, st) && l' == StepLast(c, l, st) && n' == StepOther(c, n, st)
  }

  ghost predicate Initial(c: Setup, l: Rank, n: Rank) {
    && l.slots == n.slots && (forall v <- l.slots :: v.owner == -1 && !v.sampled)
    && |l.gen| == |l.slots| && n.gen == l.gen && l.queue == []
    && n.queue == seq(c.ppSize, _ => None) && l.wire == n.wire == []
  }

  /** A run of steps of the right shape, with any reported counts, samples and rejections. */
  ghost predicate IsShapedRun(c: Setup, ls: seq<Rank>, ns: seq<Rank>, sts: seq<StepIn>)
    requires GoodSetup(c)
  {
    && |ls| == |ns| == |sts| + 1 && Initial(c, ls[0], ns[0])
    && forall t | 0 <= t < |sts| :: Steps(c, ls[t], ns[t], sts[t], ls[t + 1], ns[t + 1])
  }

  ghost predicate IsRun(c: Setup, ls: seq<Rank>, ns: seq<Rank>, sts: seq<StepIn>)
    requires GoodSetup(c)
  {
    && |ls| == |ns| == |sts| + 1 && Initial(c, ls[0], ns[0]) && Spaced(c, sts)
    && forall t | 0 <= t < |sts| :: Follows(c, ls[t], ns[t], sts[t], ls[t + 1], ns[t + 1])
  }

  /** Position k of the FIFO after t steps holds what step t - ppSize + k posted. */
  ghost predicate Timeline(c: Setup, ns: seq<Rank>, sts: seq<StepIn>, t: nat)
    requires t <= |sts| && |ns| == |sts| + 1
  {
    |ns[t].queue| == c.ppSize && forall k | 0 <= k < c.ppSize :: QueueSlot(c, ns, sts, t - c.ppSize + k, ns[t].queue[k])
  }

  ghost predicate QueueSlot(c: Setup, ns: seq<Rank>, sts: seq<StepIn>, u: int, e: Option<Pending>)
    requires |ns| == |sts| + 1
  {
    if u < 0 then e.None?
    else
      && u < |sts| && SamplesFit(c, sts[u].batch, sts[u].samples) && GoodBatch(sts[u].batch, |ns[u + 1].gen|)
      && e == PostedEntry(c, ns[u + 1].gen, sts[u])
  }

  lemma RunShaped(c: Setup, ls: seq<Rank>, ns: seq<Rank>, sts: seq<StepIn>)
    requires GoodSetup(c) && IsRun(c, ls, ns, sts)
    ensures IsShapedRun(c, ls, ns, sts)
  {
    forall t | 0 <= t < |sts| ensures Steps(c, ls[t], ns[t], sts[t], ls[t + 1], ns[t + 1]) {
      assert Follows(c, ls[t], ns[t], sts[t], ls[t + 1], ns[t + 1]);
    }
  }

  // ---- One step of the pair -------------------------------------------------------------

  lemma StepLastParts(c: Setup, l: Rank, st: StepIn)
    requires GoodSetup(c) && GoodRank(c, l) && GoodStep(c, |l.slots|, st)
    ensures GoodRank(c, ApplyChanges(c, l, st.changes))
    ensures StepLast(c, l, st) == LastBatch(c, ApplyChanges(c, l, st.changes), st)
  {
    var changed := ApplyChanges(c, l, st.changes);
    assert ApplyChanges(c, changed, []) == changed;
  }

  lemma StepOtherParts(c: Setup, n: Rank, st: StepIn)
    requires GoodSetup(c) && GoodRank(c, n) && |n.queue| > 0 && GoodStep(c, |n.slots|, st)
    ensures GoodRank(c, ApplyChanges(c, ConsumeOldest(c, n), st.changes))
    ensures StepOther(c, n, st) == OtherBatch(c, ApplyChanges(c, ConsumeOldest(c, n), st.changes), st)
  {}

  /** Both ranks between the changes and the batch of step t. */
  lemma MidInStep(c: Setup, ls: seq<Rank>, ns: seq<Rank>, sts: seq<StepIn>, t: nat)
    requires GoodSetup(c) && IsShapedRun(c, ls, ns, sts) && t < |sts| && InStep(c, ls[t], ns[t])
    ensures Shaped(c, ls[t], ns[t]) && StepShaped(c, ls[t], sts[t])
    ensures var l1, n1 := ApplyChanges(c, ls[t], sts[t].changes),
                          ApplyChanges(c, ConsumeOldest(c, ns[t]), sts[t].changes);
            && InStep(c, l1, n1) && GoodStep(c, |l1.slots|, sts[t]) && n1.queue == ns[t].queue[1..] + [None]
            && l1.wire == ls[t].wire && n1.wire == ns[t].wire
  {
    hide LegalChanges, Owned, Settles;
    InStepSizes(c, ls[t], ns[t]);
    assert Steps(c, ls[t], ns[t], sts[t], ls[t + 1], ns[t + 1]);
    ConsumeInStep(c, ls[t], ns[t]);
    ChangesInStep(c, ls[t], ConsumeOldest(c, ns[t]), sts[t].changes);
  }

  /** One step of the pair, whatever is reported and sampled: the wires stay equal and the FIFO shifts. */
  lemma StepInStep(c: Setup, ls: seq<Rank>, ns: seq<Rank>, sts: seq<StepIn>, t: nat)
    requires GoodSetup(c) && IsShapedRun(c, ls, ns, sts) && t < |sts| && InStep(c, ls[t], ns[t])
    requires ls[t].wire == ns[t].wire
    ensures InStep(c, ls[t + 1], ns[t + 1]) && ls[t + 1].wire == ns[t + 1].wire
    ensures GoodStep(c, |ns[t + 1].gen|, sts[t])
    ensures ns[t + 1].queue == ns[t].queue[1..] + [PostedEntry(c, ns[t + 1].gen, sts[t])]
  {
    hide InStep, LegalChanges, SendOps, RecvOps, OtherRow, LastRow, ApplyChange, ConsumeSlot, PostedEntry;
    MidInStep(c, ls, ns, sts, t);
    var st := sts[t];
    var l1, n1 := ApplyChanges(c, ls[t], st.changes), ApplyChanges(c, ConsumeOldest(c, ns[t]), st.changes);
    assert Steps(c, ls[t], ns[t], st, ls[t + 1], ns[t + 1]);
    StepLastParts(c, ls[t], st);
    StepOtherParts(c, ns[t], st);
    InStepSizes(c, l1, n1);
    BatchInStep(c, l1, n1, st);
    OpsMatch(c, st.batch, st.samples);
  }

  /** Along every run of shaped steps the ranks stay in step, the FIFO keeps its timeline and the
      collectives are the same. */
  lemma {:induction false} RunInStep(c: Setup, ls: seq<Rank>, ns: seq<Rank>, sts: seq<StepIn>, t: nat)
    requires GoodSetup(c) && IsShapedRun(c, ls, ns, sts) && t <= |sts|
    ensures InStep(c, ls[t], ns[t]) && Timeline(c, ns, sts, t) && ls[t].wire == ns[t].wire
  {
    hide InStep, Steps;
    if t == 0 {
      StartInStep(c, ls[0], ns[0]);
    } else {
      RunInStep(c, ls, ns, sts, t - 1);
      StepInStep(c, ls, ns, sts, t - 1);
      TimelineStep(c, ns, sts, t - 1);
    }
  }

  lemma StartInStep(c: Setup, l: Rank, n: Rank)
    requires GoodSetup(c) && Initial(c, l, n)
    ensures InStep(c, l, n) && |n.queue| == c.ppSize && forall k | 0 <= k < c.ppSize :: n.queue[k].None?
  {}

  lemma TimelineStep(c: Setup, ns: seq<Rank>, sts: seq<StepIn>, t: nat)
    requires GoodSetup(c) && |ns| == |sts| + 1 && t < |sts| && Timeline(c, ns, sts, t)
    requires GoodStep(c, |ns[t + 1].gen|, sts[t])
    requires ns[t + 1].queue == ns[t].queue[1..] + [PostedEntry(c, ns[t + 1].gen, sts[t])]
    ensures Timeline(c, ns, sts, t + 1)
  {
    var queue := ns[t + 1].queue;
    forall k | 0 <= k < |queue| ensures QueueSlot(c, ns, sts, t + 1 - c.ppSize + k, queue[k]) {
      if k < c.ppSize - 1 {
        assert QueueSlot(c, ns, sts, t - c.ppSize + (k + 1), ns[t].queue[k + 1]);
      }
    }
  }

  /** After the changes of step t, no scheduled slot has a parked result left. */
  lemma NothingParked(c: Setup, ns: seq<Rank>, sts: seq<StepIn>, t: nat, mid: Rank, b: nat)
    requires GoodSetup(c) && |ns| == |sts| + 1 && Spaced(c, sts) && t < |sts| && Timeline(c, ns, sts, t)
    requires mid.queue == ns[t].queue[1..] + [None] && Owned(mid)
    requires b < |sts[t].batch| && sts[t].batch[b].slot < |mid.gen| && sts[t].batch[b].slot < |mid.slots|
    requires mid.slots[sts[t].batch[b].slot].owner == sts[t].batch[b].req
    ensures NoValid(mid.queue, mid.gen, sts[t].batch[b].slot)
  {
    var i := sts[t].batch[b].slot;
    forall k, a | 0 <= k < |mid.queue| && mid.queue[k].Some? && 0 <= a < |mid.queue[k].value|
                  && mid.queue[k].value[a].slot == i
      ensures Excluded(mid.queue[k].value[a], mid.gen)
    {
      var u := t - c.ppSize + k + 1;
      assert QueueSlot(c, ns, sts, t - c.ppSize + (k + 1), ns[t].queue[k + 1]);
      assert RowOwned(mid.queue[k].value[a], mid.gen, mid.slots);
      if NeedsSampled(sts[u].batch[a]) {
        assert SlotAndReq(sts[u].batch[a]) != SlotAndReq(sts[t].batch[b]);
      }
    }
  }

  // ---- Agreement of the variables ---------------------------------------------------------

  /** Both ranks between the scheduler's changes and the batch of step t. */
  lemma MidStep(c: Setup, ls: seq<Rank>, ns: seq<Rank>, sts: seq<StepIn>, t: nat)
    requires GoodSetup(c) && IsRun(c, ls, ns, sts) && t < |sts|
    requires Agree(c, ls[t], ns[t]) && Timeline(c, ns, sts, t)
    ensures Shaped(c, ls[t], ns[t]) && StepLegal(c, ls[t], sts[t])
    ensures var l1, n1 := ApplyChanges(c, ls[t], sts[t].changes),
                          ApplyChanges(c, ConsumeOldest(c, ns[t]), sts[t].changes);
            && Agree(c, l1, n1) && GoodStep(c, |l1.slots|, sts[t]) && |n1.gen| == |l1.slots|
            && LegalBatch(c, l1, n1, sts[t]) && n1.queue == ns[t].queue[1..] + [None]
  {
    hide Same, LegalRow, LegalChanges, Settles;
    assert Follows(c, ls[t], ns[t], sts[t], ls[t + 1], ns[t + 1]);
    ConsumeAgrees(c, ls[t], ns[t]);
    ChangesAgree(c, ls[t], ConsumeOldest(c, ns[t]), sts[t].changes);
    var l1, n1 := ApplyChanges(c, ls[t], sts[t].changes), ApplyChanges(c, ConsumeOldest(c, ns[t]), sts[t].changes);
    forall b | 0 <= b < |sts[t].batch|
      ensures LegalRow(c, l1.slots[sts[t].batch[b].slot], sts[t].batch[b], sts[t].samples[b])
      ensures NoValid(n1.queue, n1.gen, sts[t].batch[b].slot)
    {
      NothingParked(c, ns, sts, t, n1, b);
    }
  }

  lemma {:induction false} RunAgrees(c: Setup, ls: seq<Rank>, ns: seq<Rank>, sts: seq<StepIn>, t: nat)
    requires GoodSetup(c) && IsRun(c, ls, ns, sts) && t <= |sts|
    ensures Agree(c, ls[t], ns[t]) && Timeline(c, ns, sts, t) && ls[t].wire == ns[t].wire
  {
    hide Agree, Timeline, Initial, LegalBatch, LegalChanges, Spaced, InStep;
    RunShaped(c, ls, ns, sts);
    RunInStep(c, ls, ns, sts, t);
    if t == 0 {
      StartAgrees(c, ls[0], ns[0]);
    } else {
      RunAgrees(c, ls, ns, sts, t - 1);
      MidStep(c, ls, ns, sts, t - 1);
      assert Follows(c, ls[t - 1], ns[t - 1], sts[t - 1], ls[t], ns[t]);
      StepPair(c, ls[t - 1], ns[t - 1], sts[t - 1], ls[t], ns[t]);
    }
  }

  lemma StartAgrees(c: Setup, l: Rank, n: Rank)
    requires GoodSetup(c) && Initial(c, l, n)
    ensures Agree(c, l, n)
  {
    hide Same, Settle;
    forall i | 0 <= i < |l.slots| ensures SlotAgree(c, l.slots[i], n.queue, n.gen, n.slots[i], i) {
      assert l.slots[i] in l.slots;
    }
  }

  lemma StepPair(c: Setup, l: Rank, n: Rank, st: StepIn, l': Rank, n': Rank)
    requires GoodSetup(c) && Agree(c, l, n) && Shaped(c, l, n) && StepLegal(c, l, st)
    requires var l1, n1 := ApplyChanges(c, l, st.changes), ApplyChanges(c, ConsumeOldest(c, n), st.changes);
             && Agree(c, l1, n1) && GoodStep(c, |l1.slots|, st) && |n1.gen| == |l1.slots|
             && LegalBatch(c, l1, n1, st) && n1.queue == n.queue[1..] + [None]
    requires l' == StepLast(c, l, st) && n' == StepOther(c, n, st)
    ensures Agree(c, l', n')
  {
    hide Agree, LegalChanges, Same, SendOps, RecvOps, OtherRow, LastRow, ApplyChange, ConsumeSlot, PostedEntry;
    StepLastParts(c, l, st);
    StepOtherParts(c, n, st);
    BatchAgrees(c, ApplyChanges(c, l, st.changes), ApplyChanges(c, ConsumeOldest(c, n), st.changes), st);
  }

  // ---- What the runs guarantee -----------------------------------------------------------

  /** Whenever a request is scheduled, the other rank holds the last rank's computed count,
      accepted count, state column, last token and drafts for it. */
  lemma ScheduledAlike(c: Setup, ls: seq<Rank>, ns: seq<Rank>, sts: seq<StepIn>, t: nat, b: nat)
    requires GoodSetup(c) && IsRun(c, ls, ns, sts) && t < |sts|
    ensures Shaped(c, ls[t], ns[t]) && StepLegal(c, ls[t], sts[t])
    ensures b < |sts[t].batch| ==>
              var i := sts[t].batch[b].slot;
              Same(c, ApplyChanges(c, ConsumeOldest(c, ns[t]), sts[t].changes).slots[i],
                   ApplyChanges(c, ls[t], sts[t].changes).slots[i])
  {
    RunAgrees(c, ls, ns, sts, t);
    MidStep(c, ls, ns, sts, t);
    if b < |sts[t].batch| {
      var l1, n1 := ApplyChanges(c, ls[t], sts[t].changes), ApplyChanges(c, ConsumeOldest(c, ns[t]), sts[t].changes);
      assert LegalRow(c, l1.slots[sts[t].batch[b].slot], sts[t].batch[b], sts[t].samples[b]);
      ScheduledAgree(c, l1, n1, sts[t].batch[b].slot);
    }
  }

  /** The entry posted by step t - ppSize is consumed exactly at step t. */
  lemma ConsumedExactly(c: Setup, ls: seq<Rank>, ns: seq<Rank>, sts: seq<StepIn>, t: nat)
    requires GoodSetup(c) && IsShapedRun(c, ls, ns, sts) && t <= |sts|
    ensures |ns[t].queue| == c.ppSize && QueueSlot(c, ns, sts, t - c.ppSize, ns[t].queue[0])
  {
    RunInStep(c, ls, ns, sts, t);
    assert QueueSlot(c, ns, sts, t - c.ppSize + 0, ns[t].queue[0]);
  }

  /** A result that is not filtered at step t settles the very admission that produced it at step
      t - ppSize, whatever happened to its slot meanwhile; with spaced steps nothing rescheduled it in
      between. */
  lemma DeferredPostOwner(c: Setup, ls: seq<Rank>, ns: seq<Rank>, sts: seq<StepIn>, t: nat, b: nat)
    requires GoodSetup(c) && IsShapedRun(c, ls, ns, sts) && t < |sts|
    requires |ns[t].queue| > 0 && ns[t].queue[0].Some? && b < |ns[t].queue[0].value|
    requires ns[t].queue[0].value[b].slot < |ns[t].gen| && !Excluded(ns[t].queue[0].value[b], ns[t].gen)
    ensures t >= c.ppSize && b < |sts[t - c.ppSize].batch| && b < |sts[t - c.ppSize].samples|
    ensures var row, p := sts[t - c.ppSize].batch[b], ns[t].queue[0].value[b];
            && p.slot == row.slot < |ns[t].slots| && ns[t].slots[row.slot].owner == row.req
            && sts[t - c.ppSize].samples[b].tokens <= p.sample.tokens
            && p.sample.numSampled == sts[t - c.ppSize].samples[b].numSampled
            && (Spaced(c, sts) ==> forall u, a | t - c.ppSize < u < t && 0 <= a < |sts[u].batch| ::
                  SlotAndReq(sts[u].batch[a]) != SlotAndReq(row))
  {
    RunInStep(c, ls, ns, sts, t);
    ConsumedExactly(c, ls, ns, sts, t);
    assert RowOwned(ns[t].queue[0].value[b], ns[t].gen, ns[t].slots);
  }

  /** Over every run the broadcasts and the posted receives agree in number, order and size. */
  lemma WiresMatch(c: Setup, ls: seq<Rank>, ns: seq<Rank>, sts: seq<StepIn>, t: nat)
    requires GoodSetup(c) && IsShapedRun(c, ls, ns, sts) && t <= |sts|
    ensures ls[t].wire == ns[t].wire
  {
    RunInStep(c, ls, ns, sts, t);
  }
}
