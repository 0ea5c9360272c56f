/** The sampled-token relay between the last pipeline rank and the others.

    The last rank settles a step at once.  Every other rank advances optimistically, parks the
    broadcast result in a FIFO of ppSize entries and settles it ppSize steps later, unless the
    slot was freed meanwhile. */
module Relay {
  import opened AlignMachine
  import opened Options

  /** Constants of a deployment: pipeline size, sample width, draft relay, mamba block size. */
  datatype Setup = Setup(ppSize: nat, width: nat, relay: bool, bs: nat)

  predicate GoodSetup(c: Setup) {
    c.ppSize > 0 && c.width > 0 && c.bs > 0
  }

  /** One row of an input batch; `req` identifies one admission of a request. */
  datatype BatchRow = BatchRow(slot: nat, req: nat, oldComputed: nat, scheduled: nat, prefillLen: nat, maxSeqLen: nat)

  /** The sampler's and drafter's output for one row. */
  datatype Sample = Sample(tokens: seq<int>, numSampled: nat, numRejected: nat, drafts: seq<int>)

  function Max(a: int, b: int): int {
    if a > b then a else b
  }

  predicate ProducesSample(r: BatchRow) {
    r.oldComputed + r.scheduled >= r.prefillLen
  }

  predicate NotFinishing(r: BatchRow) {
    Max(r.oldComputed, r.prefillLen) + 1 < r.maxSeqLen
  }

  predicate NeedsSampled(r: BatchRow) {
    ProducesSample(r) && NotFinishing(r)
  }

  /** The row's chunk reaches the end of the prompt, so it has a result, and the mask tells the other ranks to
      drop it. */
  predicate Dropped(r: BatchRow) {
    r.oldComputed + r.scheduled >= r.prefillLen && !NeedsSampled(r)
  }

  /** compute_need_sampled_mask: None when no row needs its output. */
  function NeedMask(batch: seq<BatchRow>): (m: Option<seq<bool>>)
    ensures m.None? <==> forall r <- batch :: !NeedsSampled(r)
    ensures m.Some? ==> |m.value| == |batch| && forall b | 0 <= b < |batch| :: m.value[b] == NeedsSampled(batch[b])
  {
    if exists r <- batch :: NeedsSampled(r)
    then Some(seq(|batch|, b requires 0 <= b < |batch| => NeedsSampled(batch[b])))
    else None
  }

  /** The mask keeps a row if and only if its chunk reaches the end of the prompt and its request is more than
      one token short of its limit, both by the reported count and by the prompt. */
  lemma MaskKeepsExactly(batch: seq<BatchRow>, b: nat)
    requires b < |batch|
    ensures NeedMask(batch).Some? ==> |NeedMask(batch).value| == |batch|
    ensures NeedMask(batch).Some? && NeedMask(batch).value[b]
      <==> batch[b].oldComputed + batch[b].scheduled >= batch[b].prefillLen
           && batch[b].oldComputed + 1 < batch[b].maxSeqLen && batch[b].prefillLen + 1 < batch[b].maxSeqLen
  {
    assert batch[b] in batch;
  }

  // ---- Per-slot state of a rank --------------------------------------------------------

  /** `owner` is the admission in the slot or -1; `sampled` records that it has had a settled sample. */
  datatype SlotVars = SlotVars(owner: int, prefillLen: nat, maxSeqLen: nat, computed: int, last: int,
                               drafts: seq<int>, regs: Regs, sampled: bool)

  /** The stop rule: with the token sampled last, a request past its prompt has reached its limit. */
  predicate Finished(v: SlotVars) {
    v.computed >= v.prefillLen && v.computed + 1 >= v.maxSeqLen
  }

  /** Broadcast buffers hold `width` tokens; -1 pads the unused tail. */
  function Pad(tokens: seq<int>, width: nat): (p: seq<int>)
    requires |tokens| <= width
    ensures |p| == width && tokens <= p && forall k | |tokens| <= k < width :: p[k] == -1
  {
    tokens + seq(width - |tokens|, _ => -1)
  }

  /** The sampler's contract: a sample exactly for a chunk that reaches the end of the prompt. */
  predicate GoodSample(c: Setup, r: BatchRow, s: Sample) {
    && |s.tokens| <= c.width && s.numSampled <= |s.tokens| && (c.relay ==> |s.drafts| == c.width - 1)
    && (if r.oldComputed + r.scheduled >= r.prefillLen then s.numSampled > 0 && s.numRejected < r.scheduled
         else s.numSampled == 0 && s.numRejected == 0)
  }

  /** post_update: advance by the scheduled tokens minus the rejected ones, remember the last token. */
  function PostUpdate(v: SlotVars, s: Sample, query: nat): SlotVars
    requires s.numSampled <= |s.tokens|
  {
    v.(computed := v.computed + query - s.numRejected,
       last := if s.numSampled > 0 then s.tokens[s.numSampled - 1] else v.last,
       sampled := v.sampled || s.numSampled > 0)
  }

  /** model_state.postprocess_state: scatter the sampled count, reset it at a block boundary. */
  function ModelPost(v: SlotVars, numSampled: nat, bs: nat): SlotVars
    requires bs > 0
  {
    var a := AcceptedCount(numSampled);
    var d := DecidePost(v.regs.stateIdx, a, v.computed - a + 1, v.computed, bs);
    v.(regs := v.regs.(accepted := if d.reset then 1 else a))
  }

  function Settle(c: Setup, v: SlotVars, s: Sample, query: nat): SlotVars
    requires GoodSetup(c) && s.numSampled <= |s.tokens|
  {
    ModelPost(PostUpdate(v, s, query), s.numSampled, c.bs)
  }

  /** The row of an idx_mapping that names slot i; -1 entries name none. */
  function RowOf(idx: seq<int>, i: nat): (r: Option<nat>)
    ensures r.Some? ==> r.value < |idx| && idx[r.value] == i
    ensures r.None? ==> forall b | 0 <= b < |idx| :: idx[b] != i
  {
    if idx == [] then None else if idx[|idx| - 1] == i then Some(|idx| - 1) else RowOf(idx[..|idx| - 1], i)
  }

  // ---- The FIFO of pending results --------------------------------------------------------

  /** One row of a posted receive: its slot, whether it is needed, the slot's generation then. */
  datatype PendingRow = PendingRow(slot: nat, req: nat, need: bool, genAt: nat, sample: Sample)

  type Pending = seq<PendingRow>

  predicate Excluded(p: PendingRow, gen: seq<nat>)
    requires p.slot < |gen|
  {
    gen[p.slot] != p.genAt || !p.need
  }

  ghost predicate GoodPending(c: Setup, p: Pending, slots: nat) {
    && (forall b | 0 <= b < |p| :: p[b].slot < slots && p[b].sample.numSampled <= |p[b].sample.tokens|)
    && (forall a, b | 0 <= a < b < |p| :: p[a].slot != p[b].slot)
  }

  /** The row of a posted receive that concerns slot i. */
  function RowFor(p: Pending, i: nat): (r: Option<nat>)
    ensures r.Some? ==> r.value < |p| && p[r.value].slot == i
    ensures r.None? ==> forall b | 0 <= b < |p| :: p[b].slot != i
  {
    var idx := seq(|p|, b requires 0 <= b < |p| => p[b].slot);
    assert forall b | 0 <= b < |p| :: idx[b] == p[b].slot;
    RowOf(idx, i)
  }

  /** What consuming entry e does to slot i. */
  function ConsumeSlot(c: Setup, e: Option<Pending>, gen: seq<nat>, i: nat, v: SlotVars): SlotVars
    requires GoodSetup(c) && i < |gen|
    requires e.Some? ==> forall b | 0 <= b < |e.value| :: e.value[b].sample.numSampled <= |e.value[b].sample.tokens|
  {
    if e.None? then v
    else
      var r := RowFor(e.value, i);
      if r.None? || Excluded(e.value[r.value], gen) then v
      else
        var s := e.value[r.value].sample;
        var settled := Settle(c, v, s, 0);
        if c.relay then settled.(drafts := s.drafts) else settled
  }

  // ---- Ranks --------------------------------------------------------------------------------

  /** A collective on the broadcast group: what it carries and how many elements. */
  datatype Op = SampledOp(elems: nat) | CombinedOp(elems: nat) | DraftOp(elems: nat)

  datatype Rank = Rank(slots: seq<SlotVars>, gen: seq<nat>, queue: seq<Option<Pending>>, wire: seq<Op>)

  datatype Change = Free(slot: nat) | Admit(slot: nat, req: nat, prefillLen: nat, maxSeqLen: nat, computed: nat)

  datatype StepIn = StepIn(changes: seq<Change>, batch: seq<BatchRow>, samples: seq<Sample>)

  ghost predicate GoodRank(c: Setup, r: Rank) {
    && |r.gen| == |r.slots|
    && forall k | 0 <= k < |r.queue| && r.queue[k].Some? :: GoodPending(c, r.queue[k].value, |r.slots|)
  }

  /** _remove_request frees the slot and bumps its generation; add_requests seeds it. */
  function ApplyChange(c: Setup, r: Rank, ch: Change): Rank
    requires GoodSetup(c) && ch.slot < |r.slots| == |r.gen|
  {
    match ch
    case Free(i) => r.(slots := r.slots[i := r.slots[i].(owner := -1)], gen := r.gen[i := r.gen[i] + 1])
    case Admit(i, req, prefillLen, maxSeqLen, computed) =>
      var v := r.slots[i];
      r.(slots := r.slots[i := v.(owner := req, prefillLen := prefillLen, maxSeqLen := maxSeqLen, computed := computed,
                                  regs := AdmitRegs(v.regs, computed, c.bs), sampled := false)])
  }

  predicate ChangesInRange(chs: seq<Change>, slots: nat) {
    forall k | 0 <= k < |chs| :: chs[k].slot < slots
  }

  function ApplyChanges(c: Setup, r: Rank, chs: seq<Change>): (s: Rank)
    requires GoodSetup(c) && |r.gen| == |r.slots| && ChangesInRange(chs, |r.slots|)
    ensures |s.slots| == |r.slots| && |s.gen| == |r.gen| && s.queue == r.queue && s.wire == r.wire
  {
    if chs == [] then r
    else ApplyChange(c, ApplyChanges(c, r, chs[..|chs| - 1]), chs[|chs| - 1])
  }

  function Slots(batch: seq<BatchRow>): (idx: seq<int>)
    ensures |idx| == |batch| && forall b | 0 <= b < |batch| :: idx[b] == batch[b].slot
  {
    seq(|batch|, b requires 0 <= b < |batch| => batch[b].slot)
  }

  /** The batch row that schedules slot i. */
  function BatchRowFor(batch: seq<BatchRow>, i: nat): (r: Option<nat>)
    ensures r.Some? ==> r.value < |batch| && batch[r.value].slot == i
    ensures r.None? ==> forall b | 0 <= b < |batch| :: batch[b].slot != i
  {
    RowOf(Slots(batch), i)
  }

  /** Preprocess on both kinds of rank. */
  function Advance(c: Setup, v: SlotVars, row: BatchRow): SlotVars
    requires GoodSetup(c)
  {
    v.(regs := AdvanceRegs(v.regs, v.computed, row.scheduled, c.bs))
  }

  /** Last rank, one row: preprocess, sample, settle, propose drafts. */
  function LastRow(c: Setup, v: SlotVars, row: BatchRow, s: Sample): SlotVars
    requires GoodSetup(c) && s.numSampled <= |s.tokens|
  {
    var settled := Settle(c, Advance(c, v, row), s, row.scheduled);
    if c.relay then settled.(drafts := s.drafts) else settled
  }

  /** Other ranks, one row: preprocess, advance optimistically, fill the count unless the whole
      batch waits for results. */
  function OtherRow(c: Setup, v: SlotVars, row: BatchRow, fill: bool): SlotVars
    requires GoodSetup(c)
  {
    var a := Advance(c, v, row);
    var moved := a.(computed := a.computed + row.scheduled);
    if fill then moved.(regs := moved.regs.(accepted := 1)) else moved
  }

  function TotalLen(rows: seq<seq<int>>): nat {
    if rows == [] then 0 else TotalLen(rows[..|rows| - 1]) + |rows[|rows| - 1]|
  }

  predicate SamplesFit(c: Setup, batch: seq<BatchRow>, samples: seq<Sample>) {
    |samples| == |batch| && forall b | 0 <= b < |samples| ::
      |samples[b].tokens| <= c.width && samples[b].numSampled <= |samples[b].tokens|
  }

  /** The collectives broadcast issues: padded tokens, then the two counts. */
  function SampledOps(c: Setup, batch: seq<BatchRow>, samples: seq<Sample>): seq<Op>
    requires SamplesFit(c, batch, samples)
  {
    if NeedMask(batch).None? then []
    else [SampledOp(TotalLen(seq(|samples|, b requires 0 <= b < |samples| => Pad(samples[b].tokens, c.width)))),
          CombinedOp(2 * |samples|)]
  }

  /** The collective broadcast_draft issues. */
  function DraftOps(c: Setup, batch: seq<BatchRow>, samples: seq<Sample>): seq<Op> {
    if !c.relay || NeedMask(batch).None? then []
    else [DraftOp(TotalLen(seq(|samples|, b requires 0 <= b < |samples| => samples[b].drafts)))]
  }

  function SendOps(c: Setup, batch: seq<BatchRow>, samples: seq<Sample>): seq<Op>
    requires SamplesFit(c, batch, samples)
  {
    SampledOps(c, batch, samples) + DraftOps(c, batch, samples)
  }

  /** The collectives receive posts for the same step. */
  function RecvOps(c: Setup, batch: seq<BatchRow>): seq<Op>
    requires GoodSetup(c)
  {
    if NeedMask(batch).None? then []
    else [SampledOp(|batch| * c.width), CombinedOp(2 * |batch|)]
         + (if c.relay then [DraftOp(|batch| * (c.width - 1))] else [])
  }

  ghost predicate GoodBatch(batch: seq<BatchRow>, slots: nat) {
    && (forall b | 0 <= b < |batch| :: batch[b].slot < slots)
    && (forall a, b | 0 <= a < b < |batch| :: batch[a].slot != batch[b].slot)
  }

  ghost predicate GoodStep(c: Setup, slots: nat, st: StepIn) {
    && ChangesInRange(st.changes, slots) && GoodBatch(st.batch, slots) && SamplesFit(c, st.batch, st.samples)
  }

  /** execute_model and sample_tokens on the last rank. */
  ghost function StepLast(c: Setup, r: Rank, st: StepIn): Rank
    requires GoodSetup(c) && GoodRank(c, r) && GoodStep(c, |r.slots|, st)
  {
    var changed := ApplyChanges(c, r, st.changes);
    changed.(slots := seq(|changed.slots|, i requires 0 <= i < |changed.slots| =>
               var row := BatchRowFor(st.batch, i);
               if row.None? then changed.slots[i]
               else LastRow(c, changed.slots[i], st.batch[row.value], st.samples[row.value])),
             wire := changed.wire + SendOps(c, st.batch, st.samples))
  }

  function PostedRow(c: Setup, gen: seq<nat>, row: BatchRow, s: Sample): PendingRow
    requires |s.tokens| <= c.width && row.slot < |gen|
  {
    PendingRow(row.slot, row.req, NeedsSampled(row), gen[row.slot], s.(tokens := Pad(s.tokens, c.width)))
  }

  /** The entry `receive` leaves for a step: the generations are those after this step's changes. */
  function PostedEntry(c: Setup, gen: seq<nat>, st: StepIn): Option<Pending>
    requires SamplesFit(c, st.batch, st.samples) && forall b | 0 <= b < |st.batch| :: st.batch[b].slot < |gen|
  {
    if NeedMask(st.batch).None? then None
    else Some(seq(|st.batch|, b requires 0 <= b < |st.batch| => PostedRow(c, gen, st.batch[b], st.samples[b])))
  }

  lemma PostedEntryGood(c: Setup, gen: seq<nat>, st: StepIn)
    requires SamplesFit(c, st.batch, st.samples) && GoodBatch(st.batch, |gen|) && NeedMask(st.batch).Some?
    ensures GoodPending(c, PostedEntry(c, gen, st).value, |gen|)
  {
    var e := PostedEntry(c, gen, st).value;
    assert forall b | 0 <= b < |e| :: e[b].slot == st.batch[b].slot;
  }

  /** update_pp_decode_requests: pop the oldest entry, reserve this step's, settle what is still valid. */
  ghost function ConsumeOldest(c: Setup, r: Rank): (s: Rank)
    requires GoodSetup(c) && GoodRank(c, r) && |r.queue| > 0
    ensures |s.slots| == |r.slots| && s.gen == r.gen && s.wire == r.wire && s.queue == r.queue[1..] + [None]
    ensures GoodRank(c, s)
  {
    r.(queue := r.queue[1..] + [None],
       slots := seq(|r.slots|, i requires 0 <= i < |r.slots| => ConsumeSlot(c, r.queue[0], r.gen, i, r.slots[i])))
  }

  /** True when some row of a non-empty batch does not wait for a result. */
  predicate FillsCounts(batch: seq<BatchRow>) {
    exists b | 0 <= b < |batch| :: !NeedsSampled(batch[b])
  }

  /** execute_model and sample_tokens on any other rank. */
  ghost function StepOther(c: Setup, r: Rank, st: StepIn): Rank
    requires GoodSetup(c) && GoodRank(c, r) && |r.queue| > 0 && GoodStep(c, |r.slots|, st)
  {
    var changed := ApplyChanges(c, ConsumeOldest(c, r), st.changes);
    changed.(slots := seq(|changed.slots|, i requires 0 <= i < |changed.slots| =>
               var row := BatchRowFor(st.batch, i);
               if row.None? then changed.slots[i]
               else OtherRow(c, changed.slots[i], st.batch[row.value], FillsCounts(st.batch))),
             queue := changed.queue[|changed.queue| - 1 := PostedEntry(c, changed.gen, st)],
             wire := changed.wire + RecvOps(c, st.batch))
  }
}
