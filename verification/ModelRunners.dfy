/** The per-step methods of a rank, over its per-slot arrays and its relay endpoint, proved to be the
    steps of the relay model. */
module ModelRunners {
  import opened AlignMachine
  import opened Options
  import opened Relay
  import opened PPHandlers

  predicate Mapping(idx: seq<int>, slots: nat) {
    && (forall b | 0 <= b < |idx| :: idx[b] < slots)
    && (forall a, b | 0 <= a < b < |idx| && idx[a] >= 0 :: idx[a] != idx[b])
  }

  /** Slot i after a kernel that updates the slots of its rows. */
  function Launched(idx: seq<int>, f: Kernel, i: nat, v: SlotVars): SlotVars {
    var r := RowOf(idx, i);
    if r.None? then v else f(r.value, v)
  }

  // ---- What each kernel does to one slot -------------------------------------------------------------

  function SettleRow(c: Setup, rows: Pending, b: nat, v: SlotVars): SlotVars
    requires GoodSetup(c)
  {
    if b < |rows| && rows[b].sample.numSampled <= |rows[b].sample.tokens| then Settle(c, v, rows[b].sample, 0) else v
  }

  function DraftRow(rows: Pending, b: nat, v: SlotVars): SlotVars {
    if b < |rows| then v.(drafts := rows[b].sample.drafts) else v
  }

  function AdvanceRow(c: Setup, batch: seq<BatchRow>, b: nat, v: SlotVars): SlotVars
    requires GoodSetup(c)
  {
    if b < |batch| then Advance(c, v, batch[b]) else v
  }

  function CountRow(batch: seq<BatchRow>, b: nat, v: SlotVars): SlotVars {
    if b < |batch| then v.(computed := v.computed + batch[b].scheduled) else v
  }

  function FillRow(b: nat, v: SlotVars): SlotVars {
    v.(regs := v.regs.(accepted := 1))
  }

  function SampledRow(c: Setup, batch: seq<BatchRow>, samples: seq<Sample>, b: nat, v: SlotVars): SlotVars
    requires GoodSetup(c)
  {
    if b < |batch| && b < |samples| && samples[b].numSampled <= |samples[b].tokens|
    then Settle(c, v, samples[b], batch[b].scheduled)
    else v
  }

  function ProposeRow(samples: seq<Sample>, b: nat, v: SlotVars): SlotVars {
    if b < |samples| then v.(drafts := samples[b].drafts) else v
  }

  type Kernel = (nat, SlotVars) -> SlotVars

  function SettleKernel(c: Setup, rows: Pending): Kernel
    requires GoodSetup(c)
  {
    (b: nat, v: SlotVars) => SettleRow(c, rows, b, v)
  }

  function DraftKernel(rows: Pending): Kernel {
    (b: nat, v: SlotVars) => DraftRow(rows, b, v)
  }

  function AdvanceKernel(c: Setup, batch: seq<BatchRow>): Kernel
    requires GoodSetup(c)
  {
    (b: nat, v: SlotVars) => AdvanceRow(c, batch, b, v)
  }

  function CountKernel(batch: seq<BatchRow>): Kernel {
    (b: nat, v: SlotVars) => CountRow(batch, b, v)
  }

  function FillKernel(): Kernel {
    (b: nat, v: SlotVars) => FillRow(b, v)
  }

  function SampledKernel(c: Setup, batch: seq<BatchRow>, samples: seq<Sample>): Kernel
    requires GoodSetup(c)
  {
    (b: nat, v: SlotVars) => SampledRow(c, batch, samples, b, v)
  }

  function ProposeKernel(samples: seq<Sample>): Kernel {
    (b: nat, v: SlotVars) => ProposeRow(samples, b, v)
  }

  // ---- The kernels of a step, one after the other, on one slot ------------------------------------------

  function ConsumeLaunches(c: Setup, rows: Pending, idx: seq<int>, i: nat, v: SlotVars): SlotVars
    requires GoodSetup(c)
  {
    var settled := Launched(idx, SettleKernel(c, rows), i, v);
    if c.relay then Launched(idx, DraftKernel(rows), i, settled) else settled
  }

  function OtherLaunches(c: Setup, batch: seq<BatchRow>, fill: bool, i: nat, v: SlotVars): SlotVars
    requires GoodSetup(c)
  {
    var counted := Launched(Slots(batch), CountKernel(batch), i, Launched(Slots(batch), AdvanceKernel(c, batch), i, v));
    if fill then Launched(Slots(batch), FillKernel(), i, counted) else counted
  }

  function LastLaunches(c: Setup, batch: seq<BatchRow>, samples: seq<Sample>, i: nat, v: SlotVars): SlotVars
    requires GoodSetup(c)
  {
    var sampled := Launched(Slots(batch), SampledKernel(c, batch, samples), i,
        Launched(Slots(batch), AdvanceKernel(c, batch), i, v));
    if c.relay then Launched(Slots(batch), ProposeKernel(samples), i, sampled) else sampled
  }

  /** The filtered mapping finds the row that concerns slot i, unless it is excluded. */
  lemma ConsumedRow(c: Setup, rows: Pending, gen: seq<nat>, idx: seq<int>, i: nat)
    requires |idx| == |rows| && i < |gen| && GoodPending(c, rows, |gen|)
    requires forall b | 0 <= b < |rows| :: idx[b] == if Excluded(rows[b], gen) then -1 else rows[b].slot
    ensures RowOf(idx, i) == if RowFor(rows, i).Some? && !Excluded(rows[RowFor(rows, i).value], gen)
        then RowFor(rows, i) else None
  {
    var s := RowOf(idx, i);
    if s.Some? {
      assert rows[s.value].slot == i;
    }
  }

  lemma ConsumeLaunched(c: Setup, rows: Pending, gen: seq<nat>, idx: seq<int>, i: nat, v: SlotVars)
    requires GoodSetup(c) && |idx| == |rows| && i < |gen| && GoodPending(c, rows, |gen|)
    requires forall b | 0 <= b < |rows| :: idx[b] == if Excluded(rows[b], gen) then -1 else rows[b].slot
    ensures ConsumeLaunches(c, rows, idx, i, v) == ConsumeSlot(c, Some(rows), gen, i, v)
  {
    hide Settle;
    ConsumedRow(c, rows, gen, idx, i);
  }

  lemma ConsumeNothing(c: Setup, e: Option<Pending>, gen: seq<nat>, i: nat, v: SlotVars)
    requires GoodSetup(c) && i < |gen| && (e.Some? ==> GoodPending(c, e.value, |gen|))
    requires e.Some? ==> forall b | 0 <= b < |e.value| :: Excluded(e.value[b], gen)
    ensures ConsumeSlot(c, e, gen, i, v) == v
  {
    hide Settle;
  }

  lemma OtherLaunched(c: Setup, batch: seq<BatchRow>, fill: bool, i: nat, v: SlotVars)
    requires GoodSetup(c)
    ensures OtherLaunches(c, batch, fill, i, v)
         == var row := BatchRowFor(batch, i); if row.None? then v else OtherRow(c, v, batch[row.value], fill)
  {
    hide Advance;
  }

  lemma LastLaunched(c: Setup, batch: seq<BatchRow>, samples: seq<Sample>, i: nat, v: SlotVars)
    requires GoodSetup(c) && SamplesFit(c, batch, samples)
    ensures LastLaunches(c, batch, samples, i, v)
         == var row := BatchRowFor(batch, i);
            if row.None? then v else LastRow(c, v, batch[row.value], samples[row.value])
  {
    hide Advance, Settle;
  }

  class ModelRunner {
    const c: Setup
    const handler: PPHandler
    const slots: array<SlotVars>

    constructor (c: Setup, handler: PPHandler, slots: array<SlotVars>)
      requires GoodSetup(c) && handler.Valid() && handler.c == c && handler.reqIdxGen.Length == slots.Length
      requires slots as object != handler.reqIdxGen
      ensures Valid() && this.c == c && this.handler == handler && this.slots == slots
    {
      this.c, this.handler, this.slots := c, handler, slots;
    }

    ghost predicate Valid()
      reads handler, handler.reqIdxGen
    {
      && GoodSetup(c) && handler.Valid() && handler.c == c && handler.reqIdxGen.Length == slots.Length
      && slots as object != handler.reqIdxGen
    }

    /** The rank of the relay model that this runner is. */
    ghost function State(): Rank
      reads handler, handler.reqIdxGen, slots
    {
      Rank(slots[..], handler.reqIdxGen[..], handler.queue, handler.wire)
    }

    /** A kernel with one program per row of idx. */
    method Launch(idx: seq<int>, f: Kernel)
      requires Mapping(idx, slots.Length)
      modifies slots
      ensures forall i | 0 <= i < slots.Length :: slots[i] == Launched(idx, f, i, old(slots[i]))
    {
      for b := 0 to |idx|
        invariant forall i | 0 <= i < slots.Length :: slots[i] == Launched(idx[..b], f, i, old(slots[i]))
      {
        var next := idx[..b + 1];
        assert next[..b] == idx[..b];
        if idx[b] >= 0 {
          assert RowOf(idx[..b], idx[b]).None?;
          slots[idx[b]] := f(b, slots[idx[b]]);
        }
      }
      assert idx[..|idx|] == idx;
    }

    /** update_pp_decode_requests on a rank that is not the last. */
    method UpdatePpDecodeRequests()
      requires Valid() && !handler.isLastRank
      modifies handler`queue, slots
      ensures Valid() && State() == ConsumeOldest(c, old(State()))
    {
      hide SettleKernel, DraftKernel, Launched, ConsumeSlot, Excluded;
      ghost var was := State();
      var out := handler.GetPrevSampledOutputs();
      ghost var e := was.queue[0];
      if out.Some? {
        var rows, idx := out.value.rows, out.value.idxMapping;
        MappingFiltered(c, rows, was.gen, idx);
        Launch(idx, SettleKernel(c, rows));
        if c.relay {
          Launch(idx, DraftKernel(rows));
        }
        forall i | 0 <= i < slots.Length
          ensures slots[i] == ConsumeSlot(c, e, was.gen, i, was.slots[i])
        {
          ConsumeLaunched(c, rows, was.gen, idx, i, was.slots[i]);
        }
      } else {
        forall i | 0 <= i < slots.Length
          ensures slots[i] == ConsumeSlot(c, e, was.gen, i, was.slots[i])
        {
          ConsumeNothing(c, e, was.gen, i, was.slots[i]);
        }
      }
      assert slots[..] == ConsumeOldest(c, was).slots;
    }

    /** _remove_request: the slot is vacated and its generation bumped. */
    method RemoveRequest(i: nat)
      requires Valid() && i < slots.Length
      modifies handler.reqIdxGen, slots
      ensures Valid() && State() == ApplyChange(c, old(State()), Free(i))
    {
      slots[i] := slots[i].(owner := -1);
      handler.OnReqIdxFreed(i);
      assert slots[..] == old(slots[..])[i := slots[i]];
    }

    /** add_requests for one request: model_state.add_request seeds its registers. */
    method AddRequest(i: nat, req: nat, prefillLen: nat, maxSeqLen: nat, computed: nat)
      requires Valid() && i < slots.Length
      modifies slots
      ensures Valid() && State() == ApplyChange(c, old(State()), Change.Admit(i, req, prefillLen, maxSeqLen, computed))
    {
      var v := slots[i];
      slots[i] := v.(owner := req, prefillLen := prefillLen, maxSeqLen := maxSeqLen, computed := computed,
                     regs := AdmitRegs(v.regs, computed, c.bs), sampled := false);
      assert slots[..] == old(slots[..])[i := slots[i]];
    }

    /** finish_requests, then add_requests. */
    method UpdateRequests(changes: seq<Change>)
      requires Valid() && ChangesInRange(changes, slots.Length)
      modifies handler.reqIdxGen, slots
      ensures Valid() && State() == ApplyChanges(c, old(State()), changes)
    {
      ghost var was := State();
      for k := 0 to |changes|
        invariant Valid() && State() == ApplyChanges(c, was, changes[..k])
      {
        assert changes[..k + 1][..k] == changes[..k];
        match changes[k]
        case Free(i) => RemoveRequest(i);
        case Admit(i, req, prefillLen, maxSeqLen, computed) => AddRequest(i, req, prefillLen, maxSeqLen, computed);
      }
      assert changes[..|changes|] == changes;
    }

    /** execute_model and sample_tokens of one step on a rank that is not the last. */
    method StepOtherRank(st: StepIn)
      requires Valid() && !handler.isLastRank && GoodStep(c, slots.Length, st)
      modifies handler, handler.reqIdxGen, slots
      ensures Valid() && State() == StepOther(c, old(State()), st)
    {
      hide AdvanceKernel, CountKernel, FillKernel, Launched, NeedsSampled, ApplyChange, OtherRow;
      ghost var start := State();
      UpdatePpDecodeRequests();
      UpdateRequests(st.changes);
      ghost var was := State();
      var idx := Slots(st.batch);
      MappingBatch(st.batch, slots.Length);
      Launch(idx, AdvanceKernel(c, st.batch));
      var all := handler.Receive(st.batch, st.samples);
      Launch(idx, CountKernel(st.batch));
      if !all {
        Launch(idx, FillKernel());
      }
      forall i | 0 <= i < slots.Length
        ensures slots[i] == StepOther(c, start, st).slots[i]
      {
        OtherLaunched(c, st.batch, !all, i, was.slots[i]);
        FillsAll(st.batch, i, all);
      }
      assert slots[..] == StepOther(c, start, st).slots;
    }

    /** execute_model and sample_tokens of one step on the last rank. */
    method StepLastRank(st: StepIn)
      requires Valid() && handler.isLastRank && GoodStep(c, slots.Length, st)
      modifies handler, handler.reqIdxGen, slots
      ensures Valid() && State() == StepLast(c, old(State()), st)
    {
      hide AdvanceKernel, SampledKernel, ProposeKernel, Launched, NeedsSampled, ApplyChange, LastRow;
      ghost var start := State();
      UpdateRequests(st.changes);
      ghost var was := State();
      var idx := Slots(st.batch);
      MappingBatch(st.batch, slots.Length);
      Launch(idx, AdvanceKernel(c, st.batch));
      handler.Broadcast(st.batch, st.samples);
      Launch(idx, SampledKernel(c, st.batch, st.samples));
      if c.relay {
        Launch(idx, ProposeKernel(st.samples));
      }
      handler.BroadcastDraft(st.batch, st.samples);
      forall i | 0 <= i < slots.Length
        ensures slots[i] == StepLast(c, start, st).slots[i]
      {
        LastLaunched(c, st.batch, st.samples, i, was.slots[i]);
      }
      assert slots[..] == StepLast(c, start, st).slots;
    }
  }

  lemma MappingBatch(batch: seq<BatchRow>, slots: nat)
    requires GoodBatch(batch, slots)
    ensures Mapping(Slots(batch), slots)
  {}

  lemma MappingFiltered(c: Setup, rows: Pending, gen: seq<nat>, idx: seq<int>)
    requires |idx| == |rows| && GoodPending(c, rows, |gen|)
    requires forall b | 0 <= b < |rows| :: idx[b] == if Excluded(rows[b], gen) then -1 else rows[b].slot
    ensures Mapping(idx, |gen|)
  {}

  /** Unless every row waits for its result the counts of a scheduled slot are filled. */
  lemma FillsAll(batch: seq<BatchRow>, i: nat, all: bool)
    requires all <==> NeedMask(batch).Some? && !FillsCounts(batch)
    ensures BatchRowFor(batch, i).Some? ==> (!all <==> FillsCounts(batch))
  {}
}
