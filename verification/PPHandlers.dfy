/** The relay endpoint of one rank: the FIFO of posted receives and the slot generations. */
module PPHandlers {
  import opened Options
  import opened Relay

  /** What get_prev_sampled_outputs hands to postprocess_sampled; -1 marks a filtered row. */
  datatype Outputs = Outputs(rows: Pending, idxMapping: seq<int>)

  class PPHandler {
    const c: Setup
    const isLastRank: bool
    const reqIdxGen: array<nat>
    var queue: seq<Option<Pending>>
    var wire: seq<Op>  // collectives issued on the broadcast group, oldest first

    ghost predicate Valid()
      reads this, reqIdxGen
    {
      && GoodSetup(c)
      && |queue| == (if isLastRank then 0 else c.ppSize)
      && forall k | 0 <= k < |queue| && queue[k].Some? :: GoodPending(c, queue[k].value, reqIdxGen.Length)
    }

    constructor (c: Setup, isLastRank: bool, maxNumReqs: nat)
      requires GoodSetup(c)
      ensures Valid() && fresh(reqIdxGen) && reqIdxGen.Length == maxNumReqs && this.isLastRank == isLastRank
      ensures this.c == c
      ensures queue == (if isLastRank then [] else seq(c.ppSize, _ => None)) && wire == []
      ensures forall i | 0 <= i < maxNumReqs :: reqIdxGen[i] == 0
    {
      this.c := c;
      this.isLastRank := isLastRank;
      reqIdxGen := new nat[maxNumReqs](_ => 0);
      queue := if isLastRank then [] else seq(c.ppSize, _ => None);
      wire := [];
    }

    method OnReqIdxFreed(i: nat)
      requires Valid() && i < reqIdxGen.Length
      modifies reqIdxGen
      ensures Valid() && reqIdxGen[..] == old(reqIdxGen[..])[i := old(reqIdxGen[i]) + 1]
    {
      reqIdxGen[i] := reqIdxGen[i] + 1;
    }

    /** Pop the entry of ppSize steps ago, reserve this step's, filter rows freed or not needed. */
    method GetPrevSampledOutputs() returns (out: Option<Outputs>)
      requires Valid()
      modifies this`queue
      ensures Valid()
      ensures isLastRank ==> out.None? && queue == old(queue)
      ensures !isLastRank ==>
                && queue == old(queue)[1..] + [None]
                && (out.None? <==> old(queue)[0].None?
                                   || forall b | 0 <= b < |old(queue)[0].value| ::
                                       Excluded(old(queue)[0].value[b], reqIdxGen[..]))
                && (out.Some? ==>
                      && out.value.rows == old(queue)[0].value && |out.value.idxMapping| == |out.value.rows|
                      && forall b | 0 <= b < |out.value.rows| ::
                           out.value.idxMapping[b] == if Excluded(out.value.rows[b], reqIdxGen[..]) then -1
                               else out.value.rows[b].slot)
    {
      if queue == [] {
        return None;
      }
      var slot := queue[0];
      queue := queue[1..] + [None];
      if slot.None? {
        return None;
      }
      var rows, gen := slot.value, reqIdxGen[..];
      var exclude := seq(|rows|, b requires 0 <= b < |rows| && rows[b].slot < |gen| =>
          gen[rows[b].slot] != rows[b].genAt || !rows[b].need);
      assert forall b | 0 <= b < |rows| :: exclude[b] == Excluded(rows[b], gen);
      if forall b | 0 <= b < |rows| :: exclude[b] {
        assert forall b | 0 <= b < |rows| :: Excluded(old(queue)[0].value[b], reqIdxGen[..]);
        return None;
      }
      out := Some(Outputs(rows, seq(|rows|, b requires 0 <= b < |rows| => if exclude[b] then -1 else rows[b].slot)));
    }

    /** Post this step's receives; `samples` is what arrives in the buffers, already padded. */
    method Receive(batch: seq<BatchRow>, samples: seq<Sample>) returns (all: bool)
      requires Valid() && !isLastRank && GoodBatch(batch, reqIdxGen.Length) && SamplesFit(c, batch, samples)
      modifies this
      ensures Valid()
      ensures queue == old(queue)[|old(queue)| - 1 :=
                if NeedMask(batch).None? then old(queue)[|old(queue)| - 1]
                else PostedEntry(c, reqIdxGen[..], StepIn([], batch, samples))]
      ensures wire == old(wire) + RecvOps(c, batch)
      ensures all <==> NeedMask(batch).Some? && !FillsCounts(batch)
    {
      hide NeedsSampled, GoodPending;
      var mask := NeedMask(batch);
      if mask.None? {
        return false;
      }
      var gen := reqIdxGen[..];
      var entry := PostedEntry(c, gen, StepIn([], batch, samples));
      PostedEntryGood(c, gen, StepIn([], batch, samples));
      wire := wire + [SampledOp(|batch| * c.width), CombinedOp(2 * |batch|)]
              + (if c.relay then [DraftOp(|batch| * (c.width - 1))] else []);
      queue := queue[|queue| - 1 := entry];
      all := forall b | 0 <= b < |batch| :: mask.value[b];
    }

    /** Last rank: sampled tokens padded to the receivers' width, then the two counts. */
    method Broadcast(batch: seq<BatchRow>, samples: seq<Sample>)
      requires Valid() && isLastRank && SamplesFit(c, batch, samples)
      modifies this`wire
      ensures Valid()
      ensures wire == old(wire) + SampledOps(c, batch, samples)
    {
      if NeedMask(batch).None? {
        return;
      }
      var padded := seq(|samples|, b requires 0 <= b < |samples| && |samples[b].tokens| <= c.width =>
          Pad(samples[b].tokens, c.width));
      assert padded == seq(|samples|, b requires 0 <= b < |samples| => Pad(samples[b].tokens, c.width));
      wire := wire + [SampledOp(TotalLen(padded)), CombinedOp(2 * |samples|)];
    }

    /** Last rank: the proposed drafts, as the third collective of the step. */
    method BroadcastDraft(batch: seq<BatchRow>, samples: seq<Sample>)
      requires Valid() && isLastRank && SamplesFit(c, batch, samples)
      modifies this`wire
      ensures Valid()
      ensures wire == old(wire) + DraftOps(c, batch, samples)
    {
      if !c.relay {
        return;
      }
      if NeedMask(batch).None? {
        return;
      }
      var drafts := seq(|samples|, b requires 0 <= b < |samples| => samples[b].drafts);
      wire := wire + [DraftOp(TotalLen(drafts))];
    }
  }

  /** One step on the last rank: broadcast, then broadcast_draft, issue exactly the step's collectives. */
  method SendStep(h: PPHandler, batch: seq<BatchRow>, samples: seq<Sample>)
    requires h.Valid() && h.isLastRank && SamplesFit(h.c, batch, samples)
    modifies h
    ensures h.Valid() && h.wire == old(h.wire) + SendOps(h.c, batch, samples)
  {
    h.Broadcast(batch, samples);
    h.BroadcastDraft(batch, samples);
  }
}
