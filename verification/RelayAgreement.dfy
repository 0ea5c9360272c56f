/** Every rank holds the last rank's view of a request whenever that request is scheduled. */
module RelayAgreement {
  import opened AlignMachine
  import opened Options
  import opened Relay

  // ---- The settled view of another rank ---------------------------------------------------

  ghost predicate Settles(q: seq<Option<Pending>>) {
    forall k, b | 0 <= k < |q| && q[k].Some? && 0 <= b < |q[k].value| ::
      q[k].value[b].sample.numSampled <= |q[k].value[b].sample.tokens|
  }

  /** Slot i once every parked result that is still valid has been settled, oldest first. */
  ghost function Drain(c: Setup, q: seq<Option<Pending>>, gen: seq<nat>, i: nat, v: SlotVars): SlotVars
    requires GoodSetup(c) && i < |gen| && Settles(q)
  {
    if q == [] then v else Drain(c, q[1..], gen, i, ConsumeSlot(c, q[0], gen, i, v))
  }

  lemma {:induction false} DrainAppend(c: Setup, q: seq<Option<Pending>>, e: Option<Pending>, gen: seq<nat>, i: nat,
          v: SlotVars)
    requires GoodSetup(c) && i < |gen| && Settles(q + [e])
    ensures Settles(q) && (e.Some? ==> forall b | 0 <= b < |e.value| ::
                             e.value[b].sample.numSampled <= |e.value[b].sample.tokens|)
    ensures Drain(c, q + [e], gen, i, v) == ConsumeSlot(c, e, gen, i, Drain(c, q, gen, i, v))
    decreases |q|
  {
    assert (q + [e])[|q|] == e;
    assert forall k | 0 <= k < |q| :: (q + [e])[k] == q[k];
    if q == [] {
      assert [e][1..] == [];
      assert q + [e] == [e];
    } else {
      assert (q + [e])[1..] == q[1..] + [e];
      DrainAppend(c, q[1..], e, gen, i, ConsumeSlot(c, q[0], gen, i, v));
    }
  }

  /** No parked result would still be settled on slot i. */
  ghost predicate NoValid(q: seq<Option<Pending>>, gen: seq<nat>, i: nat)
    requires i < |gen|
  {
    forall k, b | 0 <= k < |q| && q[k].Some? && 0 <= b < |q[k].value| && q[k].value[b].slot == i ::
      Excluded(q[k].value[b], gen)
  }

  lemma {:induction false} DrainNothing(c: Setup, q: seq<Option<Pending>>, gen: seq<nat>, i: nat, v: SlotVars)
    requires GoodSetup(c) && i < |gen| && Settles(q) && NoValid(q, gen, i)
    ensures Drain(c, q, gen, i, v) == v
    decreases |q|
  {
    if q != [] {
      assert ConsumeSlot(c, q[0], gen, i, v) == v;
      DrainNothing(c, q[1..], gen, i, v);
    }
  }

  /** Only slot i's own generation matters to slot i. */
  lemma {:induction false} DrainGen(c: Setup, q: seq<Option<Pending>>, gen: seq<nat>, gen': seq<nat>, i: nat,
          v: SlotVars)
    requires GoodSetup(c) && i < |gen| == |gen'| && Settles(q) && gen[i] == gen'[i]
    ensures Drain(c, q, gen, i, v) == Drain(c, q, gen', i, v)
    decreases |q|
  {
    if q != [] {
      assert ConsumeSlot(c, q[0], gen, i, v) == ConsumeSlot(c, q[0], gen', i, v);
      DrainGen(c, q[1..], gen, gen', i, ConsumeSlot(c, q[0], gen, i, v));
    }
  }

  // ---- Agreement ------------------------------------------------------------------------

  /** Equal in everything the next step of the request reads. */
  predicate Same(c: Setup, a: SlotVars, b: SlotVars) {
    && a.owner == b.owner && a.prefillLen == b.prefillLen && a.maxSeqLen == b.maxSeqLen && a.computed == b.computed
    && a.regs.stateIdx == b.regs.stateIdx && a.regs.accepted == b.regs.accepted
    && a.sampled == b.sampled && (a.sampled ==> a.last == b.last)
    && (a.sampled && c.relay ==> a.drafts == b.drafts)
  }

  ghost predicate SlotAgree(c: Setup, l: SlotVars, q: seq<Option<Pending>>, gen: seq<nat>, n: SlotVars, i: nat)
    requires GoodSetup(c) && i < |gen| && Settles(q)
  {
    && (l.owner >= 0 && !Finished(l) ==> Same(c, Drain(c, q, gen, i, n), l))
    && (l.sampled ==> l.computed >= l.prefillLen)
  }

  /** A parked row whose slot still has its generation belongs to the slot's present owner. */
  ghost predicate RowOwned(p: PendingRow, gen: seq<nat>, slots: seq<SlotVars>) {
    && p.slot < |gen| && p.slot < |slots| && p.genAt <= gen[p.slot]
    && (p.genAt == gen[p.slot] ==> slots[p.slot].owner == p.req)
  }

  ghost predicate Owned(r: Rank) {
    forall k, b | 0 <= k < |r.queue| && r.queue[k].Some? && 0 <= b < |r.queue[k].value| ::
      RowOwned(r.queue[k].value[b], r.gen, r.slots)
  }

  /** The same slots with the same generations and owners, and parked rows that belong to them: what holds
      whatever the counts, samples and limits are. */
  ghost predicate InStep(c: Setup, l: Rank, n: Rank) {
    && GoodRank(c, l) && GoodRank(c, n) && Settles(n.queue) && Owned(n)
    && |n.queue| == c.ppSize && |l.slots| == |n.slots| && l.gen == n.gen
    && forall i | 0 <= i < |l.slots| :: l.slots[i].owner == n.slots[i].owner
  }

  ghost predicate Agree(c: Setup, l: Rank, n: Rank)
    requires GoodSetup(c)
  {
    InStep(c, l, n) && forall i | 0 <= i < |l.slots| :: SlotAgree(c, l.slots[i], n.queue, n.gen, n.slots[i], i)
  }

  lemma InStepSizes(c: Setup, l: Rank, n: Rank)
    requires InStep(c, l, n)
    ensures |l.gen| == |l.slots| == |n.slots| == |n.gen| && |n.queue| == c.ppSize && GoodRank(c, l) && GoodRank(c, n)
  {}

  // ---- Consuming the oldest entry ------------------------------------------------------

  lemma ConsumeKeepsOwner(c: Setup, e: Option<Pending>, gen: seq<nat>, i: nat, v: SlotVars)
    requires GoodSetup(c) && i < |gen|
    requires e.Some? ==> forall b | 0 <= b < |e.value| :: e.value[b].sample.numSampled <= |e.value[b].sample.tokens|
    ensures ConsumeSlot(c, e, gen, i, v).owner == v.owner
  {
    hide Aligned, AcceptedCount;
  }

  lemma ConsumeInStep(c: Setup, l: Rank, n: Rank)
    requires GoodSetup(c) && InStep(c, l, n)
    ensures InStep(c, l, ConsumeOldest(c, n))
  {
    hide Settle;
    var m := ConsumeOldest(c, n);
    assert forall k | 0 <= k < |m.queue| - 1 :: m.queue[k] == n.queue[k + 1];
    forall i | 0 <= i < |l.slots| ensures m.slots[i].owner == n.slots[i].owner {
      ConsumeKeepsOwner(c, n.queue[0], n.gen, i, n.slots[i]);
    }
  }

  lemma ConsumeAgrees(c: Setup, l: Rank, n: Rank)
    requires GoodSetup(c) && Agree(c, l, n)
    ensures Agree(c, l, ConsumeOldest(c, n))
  {
    hide Same, Settle;
    var m := ConsumeOldest(c, n);
    ConsumeInStep(c, l, n);
    forall i | 0 <= i < |l.slots| ensures SlotAgree(c, l.slots[i], m.queue, m.gen, m.slots[i], i) {
      assert SlotAgree(c, l.slots[i], n.queue, n.gen, n.slots[i], i);
      DrainAppend(c, n.queue[1..], None, n.gen, i, m.slots[i]);
    }
  }

  // ---- Finishes, preemptions, admissions ---------------------------------------------

  /** Only an occupied slot is freed, only a free slot is filled. */
  predicate LegalChange(r: Rank, ch: Change) {
    && ch.slot < |r.slots|
    && match ch
       case Free(i) => r.slots[i].owner >= 0
       case Admit(i, _, _, _, _) => r.slots[i].owner == -1
  }

  lemma ChangeInStep(c: Setup, l: Rank, n: Rank, ch: Change)
    requires GoodSetup(c) && InStep(c, l, n) && LegalChange(l, ch)
    ensures InStep(c, ApplyChange(c, l, ch), ApplyChange(c, n, ch))
  {
    hide Settles;
    var x, y := ApplyChange(c, l, ch), ApplyChange(c, n, ch);
    forall k, b | 0 <= k < |y.queue| && y.queue[k].Some? && 0 <= b < |y.queue[k].value|
      ensures RowOwned(y.queue[k].value[b], y.gen, y.slots)
    {
      assert RowOwned(n.queue[k].value[b], n.gen, n.slots);
    }
  }

  lemma ChangeAgrees(c: Setup, l: Rank, n: Rank, ch: Change)
    requires GoodSetup(c) && Agree(c, l, n) && LegalChange(l, ch)
    ensures Agree(c, ApplyChange(c, l, ch), ApplyChange(c, n, ch))
  {
    hide Settle, Drain, ConsumeSlot;
    var x, y := ApplyChange(c, l, ch), ApplyChange(c, n, ch);
    ChangeInStep(c, l, n, ch);
    assert SlotAgree(c, l.slots[ch.slot], n.queue, n.gen, n.slots[ch.slot], ch.slot);
    forall i | 0 <= i < |x.slots| ensures SlotAgree(c, x.slots[i], y.queue, y.gen, y.slots[i], i) {
      assert SlotAgree(c, l.slots[i], n.queue, n.gen, n.slots[i], i);
      if i != ch.slot {
        DrainGen(c, n.queue, n.gen, y.gen, i, n.slots[i]);
      } else if ch.Admit? {
        AdmitStale(n, i);
        DrainNothing(c, n.queue, n.gen, i, y.slots[i]);
      }
    }
  }

  lemma AdmitStale(n: Rank, i: nat)
    requires Owned(n) && i < |n.gen| && i < |n.slots| && n.slots[i].owner == -1
    ensures NoValid(n.queue, n.gen, i)
  {
    forall k, b | 0 <= k < |n.queue| && n.queue[k].Some? && 0 <= b < |n.queue[k].value| && n.queue[k].value[b].slot == i
      ensures Excluded(n.queue[k].value[b], n.gen)
    {
      assert RowOwned(n.queue[k].value[b], n.gen, n.slots);
    }
  }

  ghost predicate LegalChanges(c: Setup, r: Rank, chs: seq<Change>)
    requires GoodSetup(c) && |r.gen| == |r.slots| && ChangesInRange(chs, |r.slots|)
  {
    forall k | 0 <= k < |chs| :: LegalChange(ApplyChanges(c, r, chs[..k]), chs[k])
  }

  lemma LegalInit(c: Setup, r: Rank, chs: seq<Change>)
    requires GoodSetup(c) && |r.gen| == |r.slots| && ChangesInRange(chs, |r.slots|) && LegalChanges(c, r, chs)
    requires chs != []
    ensures LegalChanges(c, r, chs[..|chs| - 1])
    ensures LegalChange(ApplyChanges(c, r, chs[..|chs| - 1]), chs[|chs| - 1])
  {
    var init := chs[..|chs| - 1];
    forall k | 0 <= k < |init| ensures LegalChange(ApplyChanges(c, r, init[..k]), init[k]) {
      assert init[..k] == chs[..k];
    }
  }

  lemma {:induction false} ChangesInStep(c: Setup, l: Rank, n: Rank, chs: seq<Change>)
    requires GoodSetup(c) && InStep(c, l, n) && ChangesInRange(chs, |l.slots|) && LegalChanges(c, l, chs)
    ensures InStep(c, ApplyChanges(c, l, chs), ApplyChanges(c, n, chs))
  {
    hide InStep, ApplyChange, LegalChanges;
    InStepSizes(c, l, n);
    if chs != [] {
      var init := chs[..|chs| - 1];
      LegalInit(c, l, chs);
      ChangesInStep(c, l, n, init);
      ChangeInStep(c, ApplyChanges(c, l, init), ApplyChanges(c, n, init), chs[|chs| - 1]);
    }
  }

  lemma {:induction false} ChangesAgree(c: Setup, l: Rank, n: Rank, chs: seq<Change>)
    requires GoodSetup(c) && Agree(c, l, n) && ChangesInRange(chs, |l.slots|) && LegalChanges(c, l, chs)
    ensures Agree(c, ApplyChanges(c, l, chs), ApplyChanges(c, n, chs))
  {
    hide Agree, ApplyChange, LegalChanges;
    AgreeSizes(c, l, n);
    if chs != [] {
      var init := chs[..|chs| - 1];
      LegalInit(c, l, chs);
      ChangesAgree(c, l, n, init);
      ChangeAgrees(c, ApplyChanges(c, l, init), ApplyChanges(c, n, init), chs[|chs| - 1]);
    }
  }

  lemma AgreeSizes(c: Setup, l: Rank, n: Rank)
    requires GoodSetup(c) && Agree(c, l, n)
    ensures |l.gen| == |l.slots| == |n.slots| == |n.gen|
  {}

  // ---- One batch row on both ranks -----------------------------------------------------

  /** The scheduler knows the owner, its prompt and its limit, does not schedule it at its limit, and
      reports its exact computed count until the first sample and at least that count afterwards; the
      sampler obeys its contract and never rejects prompt tokens. */
  predicate Scheduled(c: Setup, v: SlotVars, row: BatchRow, s: Sample) {
    && v.owner == row.req && row.prefillLen == v.prefillLen && row.maxSeqLen == v.maxSeqLen && !Finished(v)
    && row.oldComputed >= v.computed && (!v.sampled ==> row.oldComputed == v.computed)
    && GoodSample(c, row, s)
    && (row.oldComputed + row.scheduled >= row.prefillLen ==>
          v.computed + row.scheduled - s.numRejected >= v.prefillLen)
  }

  /** And one more token takes the request of a row that the mask drops to its limit: see MaskSafeAtCall. */
  predicate LegalRow(c: Setup, v: SlotVars, row: BatchRow, s: Sample) {
    Scheduled(c, v, row, s) && (Dropped(row) && v.sampled ==> v.computed + 2 >= v.maxSeqLen)
  }

  /** Scheduling a request that has no parked result: settling later equals settling at once. */
  lemma RowAgrees(c: Setup, l: SlotVars, n: SlotVars, row: BatchRow, s: Sample, fill: bool)
    requires GoodSetup(c) && Same(c, n, l) && LegalRow(c, l, row, s)
    requires !NeedsSampled(row) ==> fill
    requires l.sampled ==> l.computed >= l.prefillLen
    ensures var l', n' := LastRow(c, l, row, s), OtherRow(c, n, row, fill);
            var padded := s.(tokens := Pad(s.tokens, c.width));
            && l'.owner == n'.owner && (l'.sampled ==> l'.computed >= l'.prefillLen)
            && (!Finished(l') && NeedsSampled(row) ==>
                  Same(c, (if c.relay then Settle(c, n', padded, 0).(drafts := s.drafts)
                      else Settle(c, n', padded, 0)), l'))
            && (!Finished(l') && !NeedsSampled(row) ==> Same(c, n', l'))
  {
    hide Aligned, RunningColumn;
    if Dropped(row) {
      DropsOnlyFinished(c, l, row, s);
    }
  }

  // ---- What the mask drops --------------------------------------------------------------------

  /** Whatever the batch row and the sampler's answer, a row that the mask drops at that reported count is
      its request's last. */
  ghost predicate MaskSafe(c: Setup, v: SlotVars, reported: nat)
    requires GoodSetup(c)
  {
    forall row: BatchRow, s: Sample | Scheduled(c, v, row, s) && row.oldComputed == reported && Dropped(row) ::
      Finished(LastRow(c, v, row, s))
  }

  /** For every limit of the request. */
  ghost predicate MaskSafeEver(c: Setup, v: SlotVars, reported: nat)
    requires GoodSetup(c)
  {
    forall limit: nat :: MaskSafe(c, v.(maxSeqLen := limit), reported)
  }

  lemma DropsOnlyFinished(c: Setup, v: SlotVars, row: BatchRow, s: Sample)
    requires GoodSetup(c) && LegalRow(c, v, row, s) && Dropped(row)
    ensures Finished(LastRow(c, v, row, s))
    ensures Finished(OtherRow(c, v, row, true)) && Finished(OtherRow(c, v, row, false))
  {
    hide Aligned, RunningColumn;
  }

  /** With two tokens to go and a report at the limit, a result that the request still needs can be dropped. */
  lemma DropsRunning(c: Setup, v: SlotVars, reported: nat) returns (row: BatchRow, s: Sample)
    requires GoodSetup(c) && v.sampled && v.computed >= v.prefillLen && v.owner >= 0
    requires v.computed + 2 < v.maxSeqLen <= reported + 1
    ensures Scheduled(c, v, row, s) && row.oldComputed == reported && Dropped(row)
    ensures !Finished(LastRow(c, v, row, s)) && !Same(c, OtherRow(c, v, row, true), LastRow(c, v, row, s))
  {
    hide Aligned, RunningColumn;
    row := BatchRow(0, v.owner, reported, 1, v.prefillLen, v.maxSeqLen);
    s := Sample([v.last + 1], 1, 0, seq(c.width - 1, _ => 0));
  }

  /** Before the call: compute_need_sampled_mask drops only results that no later step needs if and only if
      it keeps the row of every request that has sampled and has more than one token to go. */
  lemma MaskSafeAtCall(c: Setup, v: SlotVars, reported: nat)
    requires GoodSetup(c) && (v.sampled ==> v.computed >= v.prefillLen) && v.owner >= 0 && reported >= v.computed
    ensures MaskSafe(c, v, reported)
      <==> (v.sampled && v.computed + 2 < v.maxSeqLen ==> reported + 1 < v.maxSeqLen)
  {
    hide LastRow, OtherRow;
    if v.sampled && v.computed + 2 < v.maxSeqLen && reported + 1 >= v.maxSeqLen {
      var row, s := DropsRunning(c, v, reported);
    } else {
      forall row: BatchRow, s: Sample | Scheduled(c, v, row, s) && row.oldComputed == reported && Dropped(row)
        ensures Finished(LastRow(c, v, row, s))
      {
        DropsOnlyFinished(c, v, row, s);
      }
    }
  }

  /** So for requests of any limit it is safe if and only if the reported count of a request that has
      sampled is at most one ahead of its computed one. */
  lemma MaskSafeExactly(c: Setup, v: SlotVars, reported: nat)
    requires GoodSetup(c) && (v.sampled ==> v.computed >= v.prefillLen) && v.owner >= 0 && reported >= v.computed
    ensures MaskSafeEver(c, v, reported) <==> (v.sampled ==> reported <= v.computed + 1)
  {
    hide MaskSafe;
    forall limit: nat
      ensures MaskSafe(c, v.(maxSeqLen := limit), reported)
         <==> (v.sampled && v.computed + 2 < limit ==> reported + 1 < limit)
    {
      MaskSafeAtCall(c, v.(maxSeqLen := limit), reported);
    }
    if v.sampled && reported >= v.computed + 2 {
      assert !MaskSafe(c, v.(maxSeqLen := v.computed + 3), reported);
    }
  }

  /** What dropping a result costs: the other rank counts the rejected tokens, and keeps the last token
      and the drafts of the step before. */
  lemma DroppedResult(c: Setup, l: SlotVars, n: SlotVars, row: BatchRow, s: Sample, fill: bool, gen: seq<nat>)
    requires GoodSetup(c) && Same(c, n, l) && Scheduled(c, l, row, s) && Dropped(row) && row.slot < |gen|
    ensures NeedMask([row]).None?
    ensures Excluded(PostedRow(c, gen, row, s), gen)
    ensures var l', n' := LastRow(c, l, row, s), OtherRow(c, n, row, fill);
            && n'.computed == l'.computed + s.numRejected
            && n'.last == n.last && l'.last == s.tokens[s.numSampled - 1]
            && n'.drafts == n.drafts && (c.relay ==> l'.drafts == s.drafts)
            && (Same(c, n', l') ==>
                  s.numRejected == 0 && s.tokens[s.numSampled - 1] == n.last && (c.relay ==> s.drafts == n.drafts))
  {
    hide Aligned, RunningColumn;
  }

  /** Drafts rejected two tokens before the limit: the mask drops the row, the request goes on, and the
      ranks count differently. */
  lemma OvershootDiverges(c: Setup, v: SlotVars, row: BatchRow, s: Sample)
    requires GoodSetup(c) && c.width == 4 && |s.drafts| == 3 && |s.tokens| == 1 && v.owner >= 0
    requires v.sampled && v.computed == 10 && v.prefillLen == 5 && v.maxSeqLen == 13
    requires row == BatchRow(row.slot, v.owner, 12, 4, 5, 13) && s == Sample(s.tokens, 1, 3, s.drafts)
    ensures Scheduled(c, v, row, s) && Dropped(row) && !Finished(LastRow(c, v, row, s))
    ensures LastRow(c, v, row, s).computed == 11 && OtherRow(c, v, row, true).computed == 14
  {
    hide Aligned, RunningColumn;
  }

  // ---- A whole step -----------------------------------------------------------------------

  /** The batch is legal for the last rank, and no scheduled request still has a parked result. */
  ghost predicate LegalBatch(c: Setup, l: Rank, n: Rank, st: StepIn)
    requires |n.gen| == |l.slots| && GoodStep(c, |l.slots|, st)
  {
    forall b | 0 <= b < |st.batch| ::
      && LegalRow(c, l.slots[st.batch[b].slot], st.batch[b], st.samples[b])
      && NoValid(n.queue, n.gen, st.batch[b].slot)
  }

  /** The two ranks after the batch, given their states after the scheduler's changes. */
  ghost function LastBatch(c: Setup, r: Rank, st: StepIn): Rank
    requires GoodSetup(c) && GoodRank(c, r) && GoodStep(c, |r.slots|, st)
  {
    StepLast(c, r, st.(changes := []))
  }

  ghost function OtherBatch(c: Setup, r: Rank, st: StepIn): Rank
    requires GoodSetup(c) && GoodRank(c, r) && |r.queue| > 0 && GoodStep(c, |r.slots|, st)
  {
    r.(slots := seq(|r.slots|, i requires 0 <= i < |r.slots| =>
         var row := BatchRowFor(st.batch, i);
         if row.None? then r.slots[i] else OtherRow(c, r.slots[i], st.batch[row.value], FillsCounts(st.batch))),
       queue := r.queue[|r.queue| - 1 := PostedEntry(c, r.gen, st)],
       wire := r.wire + RecvOps(c, st.batch))
  }

  lemma EntryRow(c: Setup, gen: seq<nat>, st: StepIn, i: nat)
    requires SamplesFit(c, st.batch, st.samples) && GoodBatch(st.batch, |gen|) && i < |gen|
    requires NeedMask(st.batch).Some?
    ensures var e := PostedEntry(c, gen, st).value;
            && |e| == |st.batch|
            && (BatchRowFor(st.batch, i).None? <==> RowFor(e, i).None?)
            && (RowFor(e, i).Some? ==> RowFor(e, i) == BatchRowFor(st.batch, i))
  {
    var e := PostedEntry(c, gen, st).value;
    assert forall b | 0 <= b < |e| :: e[b].slot == st.batch[b].slot;
    if RowFor(e, i).Some? {
      assert st.batch[RowFor(e, i).value].slot == i;
    }
  }

  /** A request without parked results has the last rank's values. */
  lemma ScheduledAgree(c: Setup, l: Rank, n: Rank, i: nat)
    requires GoodSetup(c) && Agree(c, l, n) && i < |l.slots| && NoValid(n.queue, n.gen, i)
    requires l.slots[i].owner >= 0 && !Finished(l.slots[i])
    ensures Same(c, n.slots[i], l.slots[i])
  {
    hide Same, Settle;
    assert SlotAgree(c, l.slots[i], n.queue, n.gen, n.slots[i], i);
    DrainNothing(c, n.queue, n.gen, i, n.slots[i]);
  }

  /** Posting the step's entry adds one settlement at the end. */
  lemma DrainPosted(c: Setup, n: Rank, st: StepIn, i: nat, v: SlotVars)
    requires GoodSetup(c) && GoodRank(c, n) && Settles(n.queue) && i < |n.slots| && GoodStep(c, |n.slots|, st)
    requires |n.queue| > 0 && n.queue[|n.queue| - 1].None?
    ensures var y, e := OtherBatch(c, n, st), PostedEntry(c, n.gen, st);
            && Settles(y.queue)
            && (e.Some? ==> forall b | 0 <= b < |e.value| :: e.value[b].sample.numSampled <= |e.value[b].sample.tokens|)
            && Drain(c, y.queue, n.gen, i, v) == ConsumeSlot(c, e, n.gen, i, Drain(c, n.queue, n.gen, i, v))
  {
    hide Settle, ConsumeSlot, Drain, PostedEntry;
    var y, e := OtherBatch(c, n, st), PostedEntry(c, n.gen, st);
    var older := n.queue[..|n.queue| - 1];
    SettlesLast(c, n, st);
    assert n.queue == older + [None] && y.queue == older + [e];
    DrainAppend(c, older, e, n.gen, i, v);
    DrainAppend(c, older, None, n.gen, i, v);
    ConsumeNone(c, n.gen, i, Drain(c, older, n.gen, i, v));
  }

  lemma ConsumeNone(c: Setup, gen: seq<nat>, i: nat, v: SlotVars)
    requires GoodSetup(c) && i < |gen|
    ensures ConsumeSlot(c, None, gen, i, v) == v
  {}

  /** Slot i after the batch, when the batch schedules it. */
  lemma BatchSlotScheduled(c: Setup, l: Rank, n: Rank, st: StepIn, i: nat)
    requires GoodSetup(c) && Agree(c, l, n) && GoodStep(c, |l.slots|, st) && LegalBatch(c, l, n, st)
    requires |n.queue| > 0 && n.queue[|n.queue| - 1].None? && i < |l.slots| && BatchRowFor(st.batch, i).Some?
    ensures Settles(OtherBatch(c, n, st).queue)
    ensures SlotAgree(c, LastBatch(c, l, st).slots[i], OtherBatch(c, n, st).queue, n.gen,
        OtherBatch(c, n, st).slots[i], i)
  {
    hide Same, Settle, LastRow, OtherRow, GoodSample, Drain, ConsumeSlot, PostedEntry, SendOps, RecvOps;
    var y := OtherBatch(c, n, st);
    var b := BatchRowFor(st.batch, i).value;
    assert LegalRow(c, l.slots[i], st.batch[b], st.samples[b]) && NoValid(n.queue, n.gen, i);
    DrainPosted(c, n, st, i, y.slots[i]);
    DrainNothing(c, n.queue, n.gen, i, y.slots[i]);
    ScheduledAgree(c, l, n, i);
    assert SlotAgree(c, l.slots[i], n.queue, n.gen, n.slots[i], i);
    ScheduledSlot(c, l, n, st, i, b);
  }

  /** Slot i after the batch, when the batch leaves it alone. */
  lemma BatchSlotIdle(c: Setup, l: Rank, n: Rank, st: StepIn, i: nat)
    requires GoodSetup(c) && Agree(c, l, n) && GoodStep(c, |l.slots|, st)
    requires |n.queue| > 0 && n.queue[|n.queue| - 1].None? && i < |l.slots| && BatchRowFor(st.batch, i).None?
    ensures Settles(OtherBatch(c, n, st).queue)
    ensures SlotAgree(c, LastBatch(c, l, st).slots[i], OtherBatch(c, n, st).queue, n.gen,
        OtherBatch(c, n, st).slots[i], i)
  {
    hide Same, Settle, LastRow, OtherRow, Drain;
    var e := PostedEntry(c, n.gen, st);
    DrainPosted(c, n, st, i, n.slots[i]);
    if e.Some? { EntryRow(c, n.gen, st, i); }
    assert SlotAgree(c, l.slots[i], n.queue, n.gen, n.slots[i], i);
  }

  lemma SettlesLast(c: Setup, n: Rank, st: StepIn)
    requires GoodSetup(c) && GoodRank(c, n) && |n.queue| > 0 && GoodStep(c, |n.slots|, st)
    ensures Settles(OtherBatch(c, n, st).queue) && GoodRank(c, OtherBatch(c, n, st))
  {
    var e, y := PostedEntry(c, n.gen, st), OtherBatch(c, n, st);
    if e.Some? {
      assert forall b | 0 <= b < |e.value| ::
          e.value[b].slot == st.batch[b].slot && e.value[b].sample.numSampled == st.samples[b].numSampled;
    }
  }

  /** A scheduled slot: the entry just posted is the only one that will settle it. */
  lemma ScheduledSlot(c: Setup, l: Rank, n: Rank, st: StepIn, i: nat, b: nat)
    requires GoodSetup(c) && |n.gen| == |n.slots| == |l.slots| && GoodStep(c, |l.slots|, st)
    requires b < |st.batch| && BatchRowFor(st.batch, i) == Some(b) && i < |l.slots|
    requires Same(c, n.slots[i], l.slots[i]) && LegalRow(c, l.slots[i], st.batch[b], st.samples[b])
    requires l.slots[i].sampled ==> l.slots[i].computed >= l.slots[i].prefillLen
    ensures var e := PostedEntry(c, n.gen, st);
            var l', n' := LastRow(c, l.slots[i], st.batch[b], st.samples[b]),
                          OtherRow(c, n.slots[i], st.batch[b], FillsCounts(st.batch));
            && (e.Some? ==> forall b | 0 <= b < |e.value| :: e.value[b].sample.numSampled <= |e.value[b].sample.tokens|)
            && l'.owner == n'.owner && (l'.sampled ==> l'.computed >= l'.prefillLen)
            && (l'.owner >= 0 && !Finished(l') ==> Same(c, ConsumeSlot(c, e, n.gen, i, n'), l'))
  {
    hide Same, Settle, LastRow, OtherRow, LegalRow;
    var row, s := st.batch[b], st.samples[b];
    RowAgrees(c, l.slots[i], n.slots[i], row, s, FillsCounts(st.batch));
    var e := PostedEntry(c, n.gen, st);
    if e.Some? { EntryRow(c, n.gen, st, i); }
  }

  lemma BatchAgrees(c: Setup, l: Rank, n: Rank, st: StepIn)
    requires GoodSetup(c) && Agree(c, l, n) && GoodStep(c, |l.slots|, st) && LegalBatch(c, l, n, st)
    requires |n.queue| > 0 && n.queue[|n.queue| - 1].None?
    ensures Agree(c, LastBatch(c, l, st), OtherBatch(c, n, st))
  {
    hide Same, Settle, LastRow, OtherRow, Drain, SlotAgree;
    var x, y := LastBatch(c, l, st), OtherBatch(c, n, st);
    SettlesLast(c, n, st);
    forall i | 0 <= i < |l.slots| ensures SlotAgree(c, x.slots[i], y.queue, y.gen, y.slots[i], i) {
      if BatchRowFor(st.batch, i).Some? { BatchSlotScheduled(c, l, n, st, i); } else { BatchSlotIdle(c, l, n, st, i); }
    }
    forall b | 0 <= b < |st.batch| ensures l.slots[st.batch[b].slot].owner == st.batch[b].req {
      assert LegalRow(c, l.slots[st.batch[b].slot], st.batch[b], st.samples[b]);
    }
    BatchInStep(c, l, n, st);
  }

  /** Scheduling rows of the slots' own occupants, whatever is reported, sampled or rejected. */
  lemma BatchInStep(c: Setup, l: Rank, n: Rank, st: StepIn)
    requires GoodSetup(c) && InStep(c, l, n) && GoodStep(c, |l.slots|, st) && |n.queue| > 0
    requires forall b | 0 <= b < |st.batch| :: l.slots[st.batch[b].slot].owner == st.batch[b].req
    ensures InStep(c, LastBatch(c, l, st), OtherBatch(c, n, st))
  {
    hide LastRow, OtherRow, SendOps, RecvOps, Owned, Settles;
    var x, y := LastBatch(c, l, st), OtherBatch(c, n, st);
    SettlesLast(c, n, st);
    BatchOwned(c, l, n, st);
    forall i | 0 <= i < |l.slots| ensures x.slots[i].owner == y.slots[i].owner {
      var row := BatchRowFor(st.batch, i);
      if row.Some? {
        RowKeepsOwner(c, l.slots[i], n.slots[i], st.batch[row.value], st.samples[row.value], FillsCounts(st.batch));
      }
    }
  }

  lemma RowKeepsOwner(c: Setup, l: SlotVars, n: SlotVars, row: BatchRow, s: Sample, fill: bool)
    requires GoodSetup(c) && s.numSampled <= |s.tokens|
    ensures LastRow(c, l, row, s).owner == l.owner && OtherRow(c, n, row, fill).owner == n.owner
  {
    hide Aligned, RunningColumn;
  }

  lemma BatchOwned(c: Setup, l: Rank, n: Rank, st: StepIn)
    requires GoodSetup(c) && InStep(c, l, n) && GoodStep(c, |l.slots|, st) && |n.queue| > 0
    requires forall b | 0 <= b < |st.batch| :: l.slots[st.batch[b].slot].owner == st.batch[b].req
    ensures Owned(OtherBatch(c, n, st))
  {
    hide Settle;
    var y := OtherBatch(c, n, st);
    forall k, b | 0 <= k < |y.queue| && y.queue[k].Some? && 0 <= b < |y.queue[k].value|
      ensures RowOwned(y.queue[k].value[b], y.gen, y.slots)
    {
      if k < |y.queue| - 1 {
        assert RowOwned(n.queue[k].value[b], n.gen, n.slots);
      } else {
        assert l.slots[st.batch[b].slot].owner == st.batch[b].req;
      }
    }
  }

  // ---- Broadcasts and receives ----------------------------------------------------------

  lemma {:induction false} TotalLenUniform(rows: seq<seq<int>>, width: nat)
    requires forall b | 0 <= b < |rows| :: |rows[b]| == width
    ensures TotalLen(rows) == |rows| * width
  {
    if rows != [] {
      TotalLenUniform(rows[..|rows| - 1], width);
    }
  }

  /** Every step issues and posts the same collectives: number, order and element count. */
  lemma OpsMatch(c: Setup, batch: seq<BatchRow>, samples: seq<Sample>)
    requires GoodSetup(c) && SamplesFit(c, batch, samples)
    requires c.relay ==> forall b | 0 <= b < |samples| :: |samples[b].drafts| == c.width - 1
    ensures SendOps(c, batch, samples) == RecvOps(c, batch)
  {
    TotalLenUniform(seq(|samples|, b requires 0 <= b < |samples| => Pad(samples[b].tokens, c.width)), c.width);
    if c.relay {
      TotalLenUniform(seq(|samples|, b requires 0 <= b < |samples| => samples[b].drafts), c.width - 1);
    }
  }
}
