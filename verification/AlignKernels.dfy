/** The three align kernels as the device runs them, on arrays of per-slot registers and state pools:
    the copy kernels over any order of their grid, proved against the decisions of AlignMachine. */
module AlignKernels {
  import Arith
  import opened AlignGrid
  import opened AlignMachine

  /** The per-slot register arrays. */
  datatype Columns = Columns(stateIdx: seq<int>, accepted: seq<int>, srcCol: seq<int>, srcOff: seq<int>) {
    predicate Slots(n: nat) {
      |stateIdx| == |accepted| == |srcCol| == |srcOff| == n
    }

    function At(i: nat): Regs
      requires i < |stateIdx| && i < |accepted| && i < |srcCol| && i < |srcOff|
    {
      Regs(stateIdx[i], accepted[i], srcCol[i], srcOff[i])
    }

    function Put(i: nat, r: Regs): Columns
      requires i < |stateIdx| && i < |accepted| && i < |srcCol| && i < |srcOff|
    {
      Columns(stateIdx[i := r.stateIdx], accepted[i := r.accepted], srcCol[i := r.srcCol], srcOff[i := r.srcOff])
    }
  }

  // ---- Batch semantics ------------------------------------------------------------------

  predicate NeedsPrecopy(r: Regs) {
    !(r.srcCol < 0 || r.srcCol == r.stateIdx)
  }

  function PrecopyMove(r: Regs): Move {
    Move(NeedsPrecopy(r), r.srcCol, r.stateIdx, r.srcOff)
  }

  /** The moves of the pre-copy kernel; -1 rows are skipped. */
  function PrecopyBatch(idx: seq<int>, regs: Columns): (t: Batch)
    requires Mapped(idx, |regs.stateIdx|) && regs.Slots(|regs.stateIdx|)
    ensures t.idx == idx && |t.moves| == |idx|
    ensures forall b | 0 <= b < |idx| && 0 <= idx[b] :: t.moves[b] == PrecopyMove(regs.At(idx[b]))
  {
    Batch(idx, seq(|idx|, b requires 0 <= b < |idx| =>
                 if 0 <= idx[b] then PrecopyMove(regs.At(idx[b])) else Move(false, 0, 0, 0)))
  }

  /** The decision for a slot under V2: the new computed count is already known. */
  function Decision(r: Regs, newComputed: int, bs: nat): PostDecision
    requires bs > 0
  {
    DecidePost(r.stateIdx, r.accepted, newComputed - r.accepted + 1, newComputed, bs)
  }

  // V1 starts from the scheduled and draft counts instead; the arithmetic is the same.
  lemma V1AndV2DecideAlike(r: Regs, computed: int, scheduled: int, drafts: int, bs: nat)
    requires bs > 0
    ensures DecidePost(r.stateIdx, r.accepted, computed + scheduled - drafts,
                       computed + scheduled - drafts + r.accepted - 1, bs)
         == Decision(r, computed + scheduled - (drafts + 1 - r.accepted), bs)
  {}

  function PostMove(d: PostDecision): Move {
    Move(d.copy, d.srcCol, d.dstCol, d.bias)
  }

  /** The moves of the fused postprocess, decided from those counts. */
  function PostBatch(idx: seq<int>, regs: Columns, computed: seq<int>, bs: nat): (t: Batch)
    requires bs > 0 && Mapped(idx, |computed|) && regs.Slots(|computed|)
    ensures t.idx == idx && |t.moves| == |idx|
    ensures forall b | 0 <= b < |idx| && 0 <= idx[b] ::
              t.moves[b] == PostMove(Decision(regs.At(idx[b]), computed[idx[b]], bs))
  {
    Batch(idx, seq(|idx|, b requires 0 <= b < |idx| =>
                 if 0 <= idx[b] then PostMove(Decision(regs.At(idx[b]), computed[idx[b]], bs))
                     else Move(false, 0, 0, 0)))
  }

  /** Only one program of a row resets its count. */
  predicate Resets(p: Program) {
    p.state == 0 && p.tile == 0
  }

  /** The live counts after the programs, all of which decide from the snapshot in regs. */
  function CountsAfter(idx: seq<int>, regs: Columns, computed: seq<int>, bs: nat, order: seq<Program>): (a: seq<int>)
    requires bs > 0 && Mapped(idx, |computed|) && regs.Slots(|computed|)
    ensures |a| == |computed|
  {
    if order == [] then regs.accepted
    else
      var p := order[|order| - 1];
      var before := CountsAfter(idx, regs, computed, bs, order[..|order| - 1]);
      if p.row < |idx| && idx[p.row] >= 0 && Resets(p) && Decision(regs.At(idx[p.row]), computed[idx[p.row]], bs).reset
      then before[idx[p.row] := 1]
      else before
  }

  lemma {:induction false} CountsAnyOrder(idx: seq<int>, regs: Columns, computed: seq<int>, bs: nat,
          order: seq<Program>, i: nat)
    requires bs > 0 && Mapped(idx, |computed|) && regs.Slots(|computed|) && i < |computed|
    ensures CountsAfter(idx, regs, computed, bs, order)[i]
         == if Decision(regs.At(i), computed[i], bs).reset
               && exists j :: 0 <= j < |order| && Resets(order[j]) && order[j].row < |idx| && idx[order[j].row] == i
            then 1 else regs.accepted[i]
  {
    hide Decision;
    if order != [] {
      var n := |order| - 1;
      CountsAnyOrder(idx, regs, computed, bs, order[..n], i);
      assert forall j | 0 <= j < n :: order[..n][j] == order[j];
    }
  }

  /** Every row of idx has a program that may reset. */
  lemma CountsDone(idx: seq<int>, regs: Columns, computed: seq<int>, bs: nat, order: seq<Program>, states: nat,
                   tiles: nat)
    requires bs > 0 && Mapped(idx, |computed|) && regs.Slots(|computed|) && states > 0 && tiles > 0
    requires Enumerates(order, |idx|, states, tiles)
    ensures forall i | 0 <= i < |computed| ::
              CountsAfter(idx, regs, computed, bs, order)[i]
              == if i in idx && Decision(regs.At(i), computed[i], bs).reset then 1 else regs.accepted[i]
  {
    hide Decision;
    forall i | 0 <= i < |computed|
      ensures CountsAfter(idx, regs, computed, bs, order)[i]
           == if i in idx && Decision(regs.At(i), computed[i], bs).reset then 1 else regs.accepted[i]
    {
      CountsAnyOrder(idx, regs, computed, bs, order, i);
      if i in idx {
        var b :| 0 <= b < |idx| && idx[b] == i;
        assert Program(b, 0, 0) in order;
      }
    }
  }

  // ---- All the states of a launch --------------------------------------------------------------

  /** The pools and tables fit each other. */
  ghost predicate Bound(pools: seq<Pool>, views: seq<View>, slots: nat) {
    && |pools| == |views| > 0
    && forall s | 0 <= s < |views| :: Sized(pools[s], views[s].size) && |views[s].table| == slots
  }

  /** The launch's moves fit every state, and its rows keep apart. */
  ghost predicate Ready(views: seq<View>, t: Batch, pools: seq<Pool>) {
    |pools| == |views| && forall s | 0 <= s < |views| :: Fits(views[s], t, |pools[s]|) && Apart(views[s], t, |pools[s]|)
  }

  /** The launch has left in a state's pool what the rows' whole moves leave. */
  ghost predicate RanWhole(v: View, t: Batch, was: Pool, now: Pool) {
    Sized(was, v.size) && Fits(v, t, |was|) && now == MoveRows(v, t, was, |t.idx|)
  }

  ghost predicate PoolsReady(views: seq<View>, t: Batch, was: seq<Pool>) {
    && |was| == |views|
    && forall s | 0 <= s < |views| :: Sized(was[s], views[s].size) && Fits(views[s], t, |was[s]|)
  }

  ghost predicate PoolsAre(views: seq<View>, t: Batch, g: Tiling, was: seq<Pool>, order: seq<Program>, now: seq<Pool>) {
    && PoolsReady(views, t, was) && |now| == |was|
    && forall s | 0 <= s < |views| :: now[s] == RunGrid(views[s], t, g, was[s], s, order)
  }

  lemma PoolsStart(views: seq<View>, t: Batch, g: Tiling, was: seq<Pool>, slots: nat, order: seq<Program>)
    requires Bound(was, views, slots) && order == []
    requires Ready(views, t, was)
    ensures |was| == |views| > 0 && PoolsAre(views, t, g, was, order, was)
  {}

  lemma PoolsNext(views: seq<View>, t: Batch, g: Tiling, was: seq<Pool>, order: seq<Program>, j: nat, now: seq<Pool>)
    requires j < |order| && order[j].state < |views| && PoolsAre(views, t, g, was, order[..j], now)
    ensures var p := order[j];
            && Sized(now[p.state], views[p.state].size) && Fits(views[p.state], t, |now[p.state]|)
            && PoolsAre(views, t, g, was, order[..j + 1],
                        now[p.state := RunProgram(views[p.state], t, g, now[p.state], p.row, p.tile)])
  {
    hide Sized, Fits, RunProgram;
    assert order[..j + 1][..j] == order[..j];
  }

  lemma PoolsDone(views: seq<View>, t: Batch, g: Tiling, was: seq<Pool>, order: seq<Program>, now: seq<Pool>)
    requires PoolsAre(views, t, g, was, order, now) && GoodTiling(g)
    requires Enumerates(order, |t.idx|, |views|, g.tiles)
    requires Ready(views, t, was)
    ensures forall s | 0 <= s < |views| :: RanWhole(views[s], t, was[s], now[s])
  {
    hide Sized, Fits, RunGrid, MoveRows, Apart, Enumerates;
    forall s | 0 <= s < |views|
      ensures RanWhole(views[s], t, was[s], now[s])
    {
      AnyOrder(views[s], t, g, was[s], s, |views|, order);
    }
  }

  // ---- Kernels ----------------------------------------------------------------------------

  /** The device state of one rank: per-slot registers, the state tensors and their block tables. */
  class AlignContext {
    const bs: nat
    const tiling: Tiling
    const stateIdx: array<int>
    const accepted: array<int>
    const srcCol: array<int>
    const srcOff: array<int>
    const acceptedOut: array<int>  // scratch buffer of the postprocess
    const pools: array<Pool>       // one pool per layer and state type
    var views: seq<View>

    /** Bind the context to the state pools and the source block tables, all slots at their defaults. */
    constructor (bs: nat, tiling: Tiling, slots: nat, pools: array<Pool>, views: seq<View>)
      requires bs > 0 && GoodTiling(tiling) && Bound(pools[..], views, slots)
      ensures Valid() && this.bs == bs && this.tiling == tiling && this.views == views && this.pools == pools
      ensures fresh(stateIdx) && fresh(accepted) && fresh(srcCol) && fresh(srcOff) && fresh(acceptedOut)
      ensures Slots() == slots && forall i | 0 <= i < slots :: Regs().At(i) == AlignMachine.Regs(0, 1, -1, 0)
    {
      this.bs, this.tiling, this.pools, this.views := bs, tiling, pools, views;
      stateIdx := new int[slots](_ => 0);
      accepted := new int[slots](_ => 1);
      srcCol := new int[slots](_ => -1);
      srcOff := new int[slots](_ => 0);
      acceptedOut := new int[slots](_ => 0);
    }

    ghost predicate Valid()
      reads this, stateIdx, accepted, srcCol, srcOff, acceptedOut, pools
    {
      && bs > 0 && GoodTiling(tiling)
      && Slots() == accepted.Length == srcCol.Length == srcOff.Length == acceptedOut.Length
      && stateIdx != accepted && stateIdx != srcCol && stateIdx != srcOff && stateIdx != acceptedOut
      && accepted != srcCol && accepted != srcOff && accepted != acceptedOut
      && srcCol != srcOff && srcCol != acceptedOut && srcOff != acceptedOut
      && Bound(pools[..], views, Slots())
    }

    function Slots(): nat {
      stateIdx.Length
    }

    ghost function Regs(): Columns
      reads stateIdx, accepted, srcCol, srcOff
    {
      Columns(stateIdx[..], accepted[..], srcCol[..], srcOff[..])
    }

    /** One row of the preprocess kernel. */
    method AdvanceRow(req: nat, computed: int, query: nat)
      requires Valid() && req < Slots()
      modifies stateIdx, accepted, srcCol, srcOff
      ensures Valid() && views == old(views)
      ensures Regs() == old(Regs()).Put(req, AdvanceRegs(old(Regs()).At(req), computed, query, bs))
    {
      var prev, count := stateIdx[req], accepted[req];
      srcCol[req] := prev;
      srcOff[req] := if count - 1 > 0 then count - 1 else 0;
      var computedAfter := computed + query;
      var next := (computedAfter + bs - 1) / bs - 1;
      stateIdx[req] := next;
      if prev >= 0 && prev != next {
        accepted[req] := 1;
      }
    }

    /** preprocess_mamba_align_fused_kernel: stage the source column, advance the running one. */
    method Preprocess(idx: seq<int>, computed: array<int>, queryLens: seq<nat>)
      requires Valid() && Mapped(idx, Slots()) && |queryLens| == |idx| && (forall b | 0 <= b < |idx| :: 0 <= idx[b])
      requires computed.Length == Slots()
      requires computed != stateIdx && computed != accepted && computed != srcCol && computed != srcOff
      modifies stateIdx, accepted, srcCol, srcOff
      ensures Valid() && views == old(views)
      ensures forall b | 0 <= b < |idx| ::
                Regs().At(idx[b]) == AdvanceRegs(old(Regs()).At(idx[b]), computed[idx[b]], queryLens[b], bs)
      ensures forall i | 0 <= i < Slots() && i !in idx :: Regs().At(i) == old(Regs()).At(i)
    {
      hide AdvanceRegs;
      ghost var was := Regs();
      for b := 0 to |idx|
        invariant Valid() && views == old(views)
        invariant forall a | 0 <= a < b ::
                    Regs().At(idx[a]) == AdvanceRegs(was.At(idx[a]), computed[idx[a]], queryLens[a], bs)
        invariant forall a | b <= a < |idx| :: Regs().At(idx[a]) == was.At(idx[a])
        invariant forall i | 0 <= i < Slots() && i !in idx :: Regs().At(i) == was.At(i)
      {
        AdvanceRow(idx[b], computed[idx[b]], queryLens[b]);
      }
    }

    /** _copy_mamba_state_block for one state and tile: conv states shift inside their block, moved by
        tile 0 alone; a temporal state takes the biased column, each tile its own cells. */
    method CopyTile(s: nat, b: nat, tile: nat, row: seq<nat>, mv: Move)
      requires Valid() && s < pools.Length && MoveFits(views[s], row, mv, |pools[s]|)
      modifies pools
      ensures Valid() && views == old(views)
      ensures pools[..] == old(pools[..])[s := MoveTile(views[s], tiling, old(pools[s]), row, mv, b, tile)]
    {
      var pool, v := pools[s], views[s];
      ghost var moved := MoveTile(v, tiling, pool, row, mv, b, tile);
      var to := pool[row[mv.dst]];
      if v.conv {
        if tile > 0 {
          assert moved[row[mv.dst]] == to;
          assert moved == pool;
          return;
        }
        pools[s] := pool[row[mv.dst] := pool[row[mv.src]][mv.bias..] + to[|to| - mv.bias..]];
      } else {
        var from := pool[row[mv.src + mv.bias]];
        pools[s] := pool[row[mv.dst] :=
          seq(|to|, k requires 0 <= k < |to| => if tiling.owner(b, k) == tile then from[k] else to[k])];
      }
      assert pools[s][row[mv.dst]] == moved[row[mv.dst]];
      assert pools[s] == moved;
    }

    /** One program of the pre-copy grid. */
    method PrecopyProgram(idx: seq<int>, p: Program)
      requires Valid() && Mapped(idx, Slots()) && p.row < |idx| && p.state < |views|
      requires Fits(views[p.state], PrecopyBatch(idx, Regs()), |pools[p.state]|)
      modifies pools
      ensures Valid() && views == old(views)
      ensures pools[..] == old(pools[..])[p.state := RunProgram(views[p.state], PrecopyBatch(idx, Regs()), tiling,
                                                              old(pools[p.state]), p.row, p.tile)]
    {
      var req := idx[p.row];
      if req < 0 {
        return;
      }
      var src, dst := srcCol[req], stateIdx[req];
      if src < 0 || src == dst {
        return;
      }
      CopyTile(p.state, p.row, p.tile, views[p.state].table[req], Move(true, src, dst, srcOff[req]));
    }

    /** precopy_mamba_align_fused_kernel: whatever the order of its programs, every state's pool is what the
        rows' copies leave one after the other. */
    method Precopy(idx: seq<int>, order: seq<Program>)
      requires Valid() && Mapped(idx, Slots()) && Enumerates(order, |idx|, |views|, tiling.tiles)
      requires Ready(views, PrecopyBatch(idx, Regs()), pools[..])
      modifies pools
      ensures Valid() && views == old(views)
      ensures forall s | 0 <= s < |views| ::
                RanWhole(views[s], PrecopyBatch(idx, Regs()), old(pools[s]), pools[s])
    {
      hide Mapped, Fits, RunProgram, MoveRows, Bound, Ready;
      ghost var t, was := PrecopyBatch(idx, Regs()), pools[..];
      PoolsStart(views, t, tiling, was, Slots(), order[..0]);
      for j := 0 to |order|
        invariant Valid() && views == old(views)
        invariant PoolsAre(views, t, tiling, was, order[..j], pools[..])
      {
        assert order[j] in order;
        PoolsNext(views, t, tiling, was, order, j, pools[..]);
        PrecopyProgram(idx, order[j]);
      }
      assert order[..|order|] == order;
      PoolsDone(views, t, tiling, was, order, pools[..]);
    }

    /** One program of the postprocess grid, deciding from the snapshot in acceptedOut. */
    method PostProgram(idx: seq<int>, computed: array<int>, p: Program)
      requires Valid() && computed.Length == Slots() && computed != accepted
      requires Mapped(idx, Slots()) && p.row < |idx| && p.state < |views|
      requires var t := PostBatch(idx, Regs().(accepted := acceptedOut[..]), computed[..], bs);
               Fits(views[p.state], t, |pools[p.state]|)
      modifies accepted, pools
      ensures Valid() && views == old(views)
      ensures var snapshot := old(Regs()).(accepted := acceptedOut[..]);
              && pools[..] == old(pools[..])[p.state := RunProgram(views[p.state],
                   PostBatch(idx, snapshot, computed[..], bs), tiling, old(pools[p.state]), p.row, p.tile)]
              && accepted[..] == (if idx[p.row] >= 0 && Resets(p)
                                     && Decision(snapshot.At(idx[p.row]), computed[idx[p.row]], bs).reset
                                  then old(accepted[..])[idx[p.row] := 1] else old(accepted[..]))
    {
      var req := idx[p.row];
      if req < 0 {
        return;
      }
      var numAccepted, src := acceptedOut[req], stateIdx[req];
      var running := computed[req] - numAccepted + 1;
      var aligned := computed[req] / bs * bs;
      if aligned < running {
        return;
      }
      var bias := aligned - running;
      var dst := aligned / bs - 1;
      if src == dst && p.state == 0 && p.tile == 0 {
        accepted[req] := 1;
      }
      if src == dst && bias == 0 {
        return;
      }
      CopyTile(p.state, p.row, p.tile, views[p.state].table[req], Move(true, src, dst, bias));
    }

    /** num_accepted_tokens_snapshot.copy_(num_accepted_tokens_gpu). */
    method Snapshot()
      requires Valid()
      modifies acceptedOut
      ensures Valid() && acceptedOut[..] == accepted[..]
    {
      forall i | 0 <= i < accepted.Length {
        acceptedOut[i] := accepted[i];
      }
    }

    /** run_fused_postprocess_align: the programs decide from a snapshot of the accepted counts, while one of
        each row resets the count in place.  Whatever their order, every state's pool is what the rows'
        copies leave one after the other, decided from the counts at the launch. */
    method Postprocess(idx: seq<int>, computed: array<int>, order: seq<Program>)
      requires Valid() && computed.Length == Slots() && computed != accepted && computed != acceptedOut
      requires Mapped(idx, Slots()) && Enumerates(order, |idx|, |views|, tiling.tiles)
      requires Ready(views, PostBatch(idx, Regs(), computed[..], bs), pools[..])
      modifies accepted, acceptedOut, pools
      ensures Valid() && views == old(views)
      ensures forall s | 0 <= s < |views| ::
                RanWhole(views[s], PostBatch(idx, old(Regs()), computed[..], bs), old(pools[s]), pools[s])
      ensures forall i | 0 <= i < Slots() ::
                accepted[i] == if i in idx && Decision(old(Regs()).At(i), computed[i], bs).reset then 1
                    else old(accepted[i])
    {
      hide Decision, Mapped, Fits, RunProgram, MoveRows, Bound, Ready;
      Snapshot();
      ghost var regs, was := Regs(), pools[..];
      ghost var t := PostBatch(idx, regs, computed[..], bs);
      PoolsStart(views, t, tiling, was, Slots(), order[..0]);
      for j := 0 to |order|
        invariant Valid() && views == old(views) && acceptedOut[..] == regs.accepted
        invariant PoolsAre(views, t, tiling, was, order[..j], pools[..])
        invariant accepted[..] == CountsAfter(idx, regs, computed[..], bs, order[..j])
      {
        assert order[j] in order;
        assert order[..j + 1][..j] == order[..j];
        assert Regs().(accepted := acceptedOut[..]) == regs;
        PoolsNext(views, t, tiling, was, order, j, pools[..]);
        PostProgram(idx, computed, order[j]);
      }
      assert order[..|order|] == order;
      PoolsDone(views, t, tiling, was, order, pools[..]);
      CountsDone(idx, regs, computed[..], bs, order, |views|, tiling.tiles);
    }
  }

  // ---- Snapshot, V1 and V2 -------------------------------------------------------------

  /** The counts after the programs when each decides from the live count instead. */
  function LiveCounts(idx: seq<int>, regs: Columns, computed: seq<int>, bs: nat, order: seq<Program>): (a: seq<int>)
    requires bs > 0 && Mapped(idx, |computed|) && regs.Slots(|computed|)
    ensures |a| == |computed|
  {
    if order == [] then regs.accepted
    else
      var p, before := order[|order| - 1], LiveCounts(idx, regs, computed, bs, order[..|order| - 1]);
      if p.row < |idx| && idx[p.row] >= 0 && Resets(p)
         && Decision(regs.At(idx[p.row]).(accepted := before[idx[p.row]]), computed[idx[p.row]], bs).reset
      then before[idx[p.row] := 1]
      else before
  }

  /** What program j decides from the live counts. */
  function LiveDecision(idx: seq<int>, regs: Columns, computed: seq<int>, bs: nat, order: seq<Program>, j: nat):
    PostDecision
    requires bs > 0 && Mapped(idx, |computed|) && regs.Slots(|computed|)
    requires j < |order| && order[j].row < |idx| && idx[order[j].row] >= 0
  {
    var i := idx[order[j].row];
    Decision(regs.At(i).(accepted := LiveCounts(idx, regs, computed, bs, order[..j])[i]), computed[i], bs)
  }

  /** After a reset to 1, the same row decides not to copy. */
  lemma ResetStopsCopy(r: Regs, newComputed: int, bs: nat)
    requires bs > 0 && Decision(r, newComputed, bs).reset
    ensures !Decision(r.(accepted := 1), newComputed, bs).copy
    ensures Decision(r, newComputed, bs).copy <==> Decision(r, newComputed, bs).bias > 0
  {
    Arith.DivBounds(newComputed, bs);
  }

  lemma {:induction false} LiveCountOf(idx: seq<int>, regs: Columns, computed: seq<int>, bs: nat, order: seq<Program>,
          b: nat)
    requires bs > 0 && Mapped(idx, |computed|) && regs.Slots(|computed|) && b < |idx| && idx[b] >= 0
    requires forall x, y | 0 <= x < y < |order| :: order[x] != order[y]
    ensures LiveCounts(idx, regs, computed, bs, order)[idx[b]]
         == if Decision(regs.At(idx[b]), computed[idx[b]], bs).reset && Program(b, 0, 0) in order
            then 1 else regs.accepted[idx[b]]
  {
    hide Decision;
    if order != [] {
      var n := |order| - 1;
      var rest, p := order[..n], order[n];
      assert order == rest + [p] && p !in rest;
      LiveCountOf(idx, regs, computed, bs, rest, b);
      assert Columns(regs.stateIdx, regs.accepted, regs.srcCol, regs.srcOff) == regs;
      assert regs.At(idx[b]).(accepted := regs.accepted[idx[b]]) == regs.At(idx[b]);
      if p.row < |idx| && p.row != b && idx[p.row] >= 0 {
        assert idx[p.row] != idx[b];
      }
    }
  }

  /** Why the snapshot is taken.  In every order, a program that decides from the live count loses the
      copy of its state exactly when its row resets with a bias and the resetting program ran before it;
      in every other case it decides as from the snapshot. */
  lemma LiveCountLoses(idx: seq<int>, regs: Columns, computed: seq<int>, bs: nat, order: seq<Program>, j: nat)
    requires bs > 0 && Mapped(idx, |computed|) && regs.Slots(|computed|)
    requires forall x, y | 0 <= x < y < |order| :: order[x] != order[y]
    requires j < |order| && order[j].row < |idx| && idx[order[j].row] >= 0
    ensures var i := idx[order[j].row];
            var d, live := Decision(regs.At(i), computed[i], bs), LiveDecision(idx, regs, computed, bs, order, j);
            var after := exists x :: 0 <= x < j && order[x] == Program(order[j].row, 0, 0);
            && (d.copy && !live.copy <==> d.reset && d.bias > 0 && after)
            && (!(d.reset && after) ==> live == d)
            && (d.reset && after ==> !live.copy)
  {
    hide Decision;
    var b := order[j].row;
    var i := idx[b];
    LiveCountOf(idx, regs, computed, bs, order[..j], b);
    assert Program(b, 0, 0) in order[..j] <==> exists x :: 0 <= x < j && order[x] == Program(b, 0, 0);
    assert regs.At(i).(accepted := regs.accepted[i]) == regs.At(i);
    if Decision(regs.At(i), computed[i], bs).reset {
      ResetStopsCopy(regs.At(i), computed[i], bs);
    }
  }

  /** V1 preprocess on one request: skip when fresh or unmoved, else copy with bias accepted - 1. */
  function PreprocessV1(prev: int, accepted: int, computed: nat, scheduled: nat, bs: nat, specBlocks: nat):
    (int, bool, int, int)  // (column, copies, bias, accepted)
    requires bs > 0
  {
    var numBlocks := (computed + scheduled + bs - 1) / bs + specBlocks;
    var curr := numBlocks - 1 - specBlocks;
    if prev != -1 && prev != curr then (curr, true, accepted - 1, 1) else (curr, false, 0, accepted)
  }

  lemma PreprocessV1AndV2Alike(r: Regs, computed: nat, scheduled: nat, bs: nat, specBlocks: nat)
    requires bs > 0 && r.stateIdx >= -1 && r.accepted >= 1
    ensures var (column, copies, bias, accepted) :=
              PreprocessV1(r.stateIdx, r.accepted, computed, scheduled, bs, specBlocks);
            var v2 := AdvanceRegs(r, computed, scheduled, bs);
            && v2.stateIdx == column && v2.accepted == accepted
            && (NeedsPrecopy(v2) <==> copies) && (copies ==> v2.srcCol == r.stateIdx && v2.srcOff == bias)
  {}
}
