/** The launches of the batch kernels are runs of the per-slot events, in any order of their programs. */
module AlignBatch {
  import opened Recurrence
  import opened AlignMachine
  import opened AlignSafety
  import opened AlignGrid
  import opened AlignKernels

  // ---- Preprocess ---------------------------------------------------------------------------

  ghost predicate BatchIdle<S>(c: Config<S>, m: Machine<S>, idx: seq<int>, toks: seq<seq<int>>, drafts: seq<nat>)
    requires GoodConfig(c)
  {
    && |toks| == |drafts| == |idx| && Mapped(idx, |m.slots|)
    && forall b | 0 <= b < |idx| :: 0 <= idx[b] && CanPreprocess(c, m, idx[b], toks[b], drafts[b])
  }

  lemma IdleSizes<S>(c: Config<S>, m: Machine<S>, idx: seq<int>, toks: seq<seq<int>>, drafts: seq<nat>)
    requires GoodConfig(c) && BatchIdle(c, m, idx, toks, drafts)
    ensures |toks| == |drafts| == |idx|
  {}

  lemma IdleAt<S>(c: Config<S>, m: Machine<S>, idx: seq<int>, toks: seq<seq<int>>, drafts: seq<nat>, b: nat)
    requires GoodConfig(c) && BatchIdle(c, m, idx, toks, drafts) && b < |idx|
    ensures |toks| == |drafts| == |idx| && 0 <= idx[b] < |m.slots|
    ensures forall k | 0 <= k < |idx| && k != b :: idx[k] != idx[b]
    ensures CanPreprocess(c, m, idx[b], toks[b], drafts[b])
  {}

  lemma PreprocessStep<S>(c: Config<S>, m: Machine<S>, p: Machine<S>, i: nat, toks: seq<int>, drafts: nat)
    requires GoodConfig(c) && Inv(c, p) && |p.slots| == |m.slots| && i < |m.slots| && p.slots[i] == m.slots[i]
    requires CanPreprocess(c, m, i, toks, drafts)
    ensures CanPreprocess(c, p, i, toks, drafts)
    ensures var s, r := m.slots[i], ApplyPreprocess(c, p, i, toks, drafts);
            && Inv(c, r) && r.pool == p.pool && r.conv == p.conv && s.occ.Occupied?
            && r.slots == p.slots[i := Slot(AdvanceRegs(s.regs, |s.occ.hist|, |toks|, c.bs),
                                            s.occ.(phase := Staged(toks, drafts)))]
  {
    hide Inv, RunningColumn, AdvanceRegs;
    PreprocessKeeps(c, p, i, toks, drafts);
  }

  /** The Preprocess events of the first n batch rows, one after the other. */
  ghost function RunPreprocesses<S>(c: Config<S>, m: Machine<S>, idx: seq<int>, toks: seq<seq<int>>, drafts: seq<nat>,
                                    n: nat): (r: Machine<S>)
    requires GoodConfig(c) && Inv(c, m) && BatchIdle(c, m, idx, toks, drafts) && n <= |idx|
    ensures Inv(c, r) && |r.slots| == |m.slots| && r.pool == m.pool && r.conv == m.conv
    ensures forall b | n <= b < |idx| && 0 <= idx[b] < |m.slots| :: r.slots[idx[b]] == m.slots[idx[b]]
    ensures forall i | 0 <= i < |m.slots| && i !in idx :: r.slots[i] == m.slots[i]
  {
    hide Inv, CanPreprocess, ApplyPreprocess, AdvanceRegs, BatchIdle;
    IdleSizes(c, m, idx, toks, drafts);
    if n == 0 then m
    else
      var p, i := RunPreprocesses(c, m, idx, toks, drafts, n - 1), idx[n - 1];
      IdleAt(c, m, idx, toks, drafts, n - 1);
      PreprocessStep(c, m, p, i, toks[n - 1], drafts[n - 1]);
      ApplyPreprocess(c, p, i, toks[n - 1], drafts[n - 1])
  }

  /** One launch of the preprocess kernel leaves the registers that the Preprocess events leave. */
  lemma {:induction false} PreprocessLaunchIsRun<S>(c: Config<S>, m: Machine<S>, idx: seq<int>, toks: seq<seq<int>>,
          drafts: seq<nat>, n: nat, b: nat)
    requires GoodConfig(c) && Inv(c, m) && BatchIdle(c, m, idx, toks, drafts) && b < n <= |idx|
    ensures var r, s := RunPreprocesses(c, m, idx, toks, drafts, n), m.slots[idx[b]];
            && s.occ.Occupied?
            && r.slots[idx[b]].regs == AdvanceRegs(s.regs, |s.occ.hist|, |toks[b]|, c.bs)
            && r.slots[idx[b]].occ == s.occ.(phase := Staged(toks[b], drafts[b]))
  {
    hide Inv, AdvanceRegs, RunningColumn, CanPreprocess, ApplyPreprocess;
    var p := RunPreprocesses(c, m, idx, toks, drafts, n - 1);
    IdleAt(c, m, idx, toks, drafts, n - 1);
    PreprocessStep(c, m, p, idx[n - 1], toks[n - 1], drafts[n - 1]);
    if b < n - 1 {
      PreprocessLaunchIsRun(c, m, idx, toks, drafts, n - 1, b);
    }
  }

  // ---- Pre-copy ---------------------------------------------------------------------------------

  ghost predicate BatchStaged<S>(m: Machine<S>, idx: seq<int>) {
    Mapped(idx, |m.slots|) && forall b | 0 <= b < |idx| && 0 <= idx[b] :: CanPrecopy(m, idx[b])
  }

  /** The Precopy events of the first n batch rows, one after the other. */
  ghost function RunPrecopies<S>(c: Config<S>, m: Machine<S>, idx: seq<int>, n: nat): (r: Machine<S>)
    requires GoodConfig(c) && Inv(c, m) && BatchStaged(m, idx) && n <= |idx|
    ensures Inv(c, r) && |r.slots| == |m.slots| && |r.pool| == |m.pool|
    ensures forall i | 0 <= i < |m.slots| :: r.slots[i].regs == m.slots[i].regs
    ensures forall b | n <= b < |idx| && 0 <= idx[b] :: r.slots[idx[b]] == m.slots[idx[b]]
  {
    hide Inv;
    if n == 0 then m
    else
      var p, i := RunPrecopies(c, m, idx, n - 1), idx[n - 1];
      if i < 0 then p
      else
        PrecopyDefined(c, p, i);
        PrecopyKeeps(c, p, i);
        ApplyPrecopy(c, p, i)
  }

  /** The arrays a launch of the pre-copy sees. */
  ghost predicate PrecopyLaunch<S>(m: Machine<S>, idx: seq<int>, cols: Columns, rows: seq<seq<nat>>) {
    && cols.Slots(|m.slots|) && |rows| == |m.slots|
    && forall b | 0 <= b < |idx| && 0 <= idx[b] < |m.slots| && m.slots[idx[b]].occ.Occupied? ::
         cols.At(idx[b]) == m.slots[idx[b]].regs && rows[idx[b]] == m.slots[idx[b]].occ.row
  }

  /** A pre-copy moves within its own row, into a block that only it may write. */
  lemma PrecopyFits<S>(c: Config<S>, m: Machine<S>, i: nat, v: View)
    requires GoodConfig(c) && Inv(c, m) && CanPrecopy(m, i) && (v.conv ==> v.size == c.width + c.spec)
    ensures var s := m.slots[i];
            PrecopyMove(s.regs).copy ==>
              MoveFits(v, s.occ.row, PrecopyMove(s.regs), |m.pool|) && Writable(c, m, i, s.occ.row[s.regs.stateIdx])
  {
    hide Fold, Window, Aligned, ColumnEnd, RunningColumn;
    PrecopyDefined(c, m, i);
    var s := m.slots[i];
    assert SlotInv(c, m, s);
    RunningColumnWritable(c, s, s.occ.phase.toks, s.occ.phase.drafts, s.regs.stateIdx);
  }

  lemma PrecopyBatchFits<S>(c: Config<S>, m: Machine<S>, idx: seq<int>, cols: Columns, rows: seq<seq<nat>>, v: View)
    requires GoodConfig(c) && Inv(c, m) && BatchStaged(m, idx) && PrecopyLaunch(m, idx, cols, rows)
    requires v.table == rows && (v.conv ==> v.size == c.width + c.spec)
    ensures Fits(v, PrecopyBatch(idx, cols), |m.pool|) && Apart(v, PrecopyBatch(idx, cols), |m.pool|)
  {
    hide Inv, Writable, PrecopyMove;
    var t := PrecopyBatch(idx, cols);
    forall b: nat | Copies(t, b)
      ensures MoveFits(v, rows[idx[b]], t.moves[b], |m.pool|)
    {
      PrecopyFits(c, m, idx[b], v);
    }
    forall a: nat, b: nat | a != b && Copies(t, a) && Copies(t, b)
      ensures To(v, t, a) != To(v, t, b) && To(v, t, a) != From(v, t, b)
    {
      PrecopyFits(c, m, idx[a], v);
      PrecopyDst(cols.At(idx[a]));
      WritableApart(c, m, idx[a], idx[b], To(v, t, a));
    }
  }

  lemma PrecopyDst(r: Regs)
    ensures PrecopyMove(r).dst == r.stateIdx
  {}

  lemma MappedSlots<S>(m: Machine<S>, idx: seq<int>, cols: Columns, rows: seq<seq<nat>>)
    requires BatchStaged(m, idx) && PrecopyLaunch(m, idx, cols, rows)
    ensures Mapped(idx, |cols.stateIdx|) && cols.Slots(|cols.stateIdx|)
  {}

  lemma PrecopyEventIsRow(c: Config<seq<int>>, m: Machine<seq<int>>, i: nat, r: Regs, row: seq<nat>, vt: View, vc: View)
    requires GoodConfig(c) && Inv(c, m) && CanPrecopy(m, i) && r == m.slots[i].regs && row == m.slots[i].occ.row
    requires Sized(m.pool, vt.size) && Sized(m.conv, vc.size) && |m.conv| == |m.pool|
    requires !vt.conv && vc.conv && vc.size == c.width + c.spec
    ensures PrecopyAccess(c, m, i)
    ensures var n, mv := ApplyPrecopy(c, m, i), PrecopyMove(r);
            && (mv.copy ==> MoveFits(vt, row, mv, |m.pool|) && MoveFits(vc, row, mv, |m.pool|))
            && n.pool == (if mv.copy then m.pool[row[mv.dst] :=
                            WholeBlock(vt, m.pool[row[mv.src + mv.bias]], m.pool[row[mv.dst]], mv)] else m.pool)
            && n.conv == (if mv.copy then m.conv[row[mv.dst] :=
                            WholeBlock(vc, m.conv[row[mv.src]], m.conv[row[mv.dst]], mv)] else m.conv)
  {
    hide Inv, Writable;
    PrecopyDefined(c, m, i);
    PrecopyFits(c, m, i, vt);
    PrecopyFits(c, m, i, vc);
  }

  lemma {:induction false} PrecopyLaunchPools(c: Config<seq<int>>, m: Machine<seq<int>>, idx: seq<int>, cols: Columns,
          rows: seq<seq<nat>>, vt: View, vc: View, n: nat)
    requires GoodConfig(c) && Inv(c, m) && BatchStaged(m, idx) && PrecopyLaunch(m, idx, cols, rows)
    requires Sized(m.pool, vt.size) && Sized(m.conv, vc.size) && |m.conv| == |m.pool| && n <= |idx|
    requires !vt.conv && vc.conv && vc.size == c.width + c.spec && vt.table == vc.table == rows
    requires Fits(vt, PrecopyBatch(idx, cols), |m.pool|) && Fits(vc, PrecopyBatch(idx, cols), |m.conv|)
    ensures RunPrecopies(c, m, idx, n).pool == MoveRows(vt, PrecopyBatch(idx, cols), m.pool, n)
    ensures RunPrecopies(c, m, idx, n).conv == MoveRows(vc, PrecopyBatch(idx, cols), m.conv, n)
  {
    hide Inv, PrecopyAccess, ApplyPrecopy, PrecopyMove, Fits, MoveFits, InPool, WholeBlock;
    if n > 0 {
      PrecopyLaunchPools(c, m, idx, cols, rows, vt, vc, n - 1);
      var p, i := RunPrecopies(c, m, idx, n - 1), idx[n - 1];
      if i >= 0 {
        ConvSized(c, p);
        PrecopyEventIsRow(c, p, i, cols.At(i), rows[i], vt, vc);
      }
    }
  }

  /** One launch of the pre-copy leaves the pools that the Precopy events leave. */
  lemma PrecopyLaunchIsRun(c: Config<seq<int>>, m: Machine<seq<int>>, idx: seq<int>, cols: Columns,
                           rows: seq<seq<nat>>, size: nat)
    requires GoodConfig(c) && Inv(c, m) && BatchStaged(m, idx) && PrecopyLaunch(m, idx, cols, rows)
    requires Sized(m.pool, size)
    ensures var vt, vc, t := View(false, rows, size), View(true, rows, c.width + c.spec), PrecopyBatch(idx, cols);
            && Fits(vt, t, |m.pool|) && Fits(vc, t, |m.conv|) && Sized(m.conv, vc.size)
            && RunPrecopies(c, m, idx, |idx|).pool == MoveRows(vt, t, m.pool, |idx|)
            && RunPrecopies(c, m, idx, |idx|).conv == MoveRows(vc, t, m.conv, |idx|)
  {
    hide Inv, Fits, RunPrecopies, MoveRows, Apart, BatchStaged, PrecopyLaunch;
    MappedSlots(m, idx, cols, rows);
    var vt, vc := View(false, rows, size), View(true, rows, c.width + c.spec);
    ConvSized(c, m);
    PrecopyBatchFits(c, m, idx, cols, rows, vt);
    PrecopyBatchFits(c, m, idx, cols, rows, vc);
    PrecopyLaunchPools(c, m, idx, cols, rows, vt, vc, |idx|);
  }

  /** Any order of the pre-copy's programs leaves the pools of a layer that the Precopy events leave. */
  lemma PrecopyGridIsRun(c: Config<seq<int>>, m: Machine<seq<int>>, idx: seq<int>, cols: Columns, rows: seq<seq<nat>>,
                         size: nat, g: Tiling, s: nat, z: nat, states: nat, order: seq<Program>)
    requires GoodConfig(c) && Inv(c, m) && BatchStaged(m, idx) && PrecopyLaunch(m, idx, cols, rows)
    requires Sized(m.pool, size) && GoodTiling(g) && s < states && z < states
    requires Enumerates(order, |idx|, states, g.tiles)
    ensures var vt, vc, t := View(false, rows, size), View(true, rows, c.width + c.spec), PrecopyBatch(idx, cols);
            && Fits(vt, t, |m.pool|) && Fits(vc, t, |m.conv|) && Sized(m.conv, vc.size)
            && RunGrid(vt, t, g, m.pool, s, order) == RunPrecopies(c, m, idx, |idx|).pool
            && RunGrid(vc, t, g, m.conv, z, order) == RunPrecopies(c, m, idx, |idx|).conv
  {
    hide Inv, Fits, RunGrid, RunPrecopies, MoveRows, Apart, BatchStaged, PrecopyLaunch, Enumerates;
    MappedSlots(m, idx, cols, rows);
    var vt, vc, t := View(false, rows, size), View(true, rows, c.width + c.spec), PrecopyBatch(idx, cols);
    ConvSized(c, m);
    PrecopyBatchFits(c, m, idx, cols, rows, vt);
    PrecopyBatchFits(c, m, idx, cols, rows, vc);
    PrecopyLaunchIsRun(c, m, idx, cols, rows, size);
    AnyOrder(vt, t, g, m.pool, s, states, order);
    AnyOrder(vc, t, g, m.conv, z, states, order);
  }

  // ---- Postprocess --------------------------------------------------------------------------------

  ghost predicate BatchReady<S>(m: Machine<S>, idx: seq<int>, sampled: seq<nat>) {
    && |sampled| == |idx| && Mapped(idx, |m.slots|)
    && forall b | 0 <= b < |idx| && 0 <= idx[b] :: CanPost(m, idx[b], sampled[b])
  }

  /** The Post events of the first n batch rows, one after the other. */
  ghost function RunPosts<S>(c: Config<S>, m: Machine<S>, idx: seq<int>, sampled: seq<nat>, n: nat): (r: Machine<S>)
    requires GoodConfig(c) && Inv(c, m) && BatchReady(m, idx, sampled) && n <= |idx|
    ensures Inv(c, r) && |r.slots| == |m.slots| && |r.pool| == |m.pool|
    ensures forall b | n <= b < |idx| && 0 <= idx[b] :: r.slots[idx[b]] == m.slots[idx[b]]
    ensures forall i | 0 <= i < |m.slots| && i !in idx :: r.slots[i] == m.slots[i]
  {
    hide Inv;
    if n == 0 then m
    else
      var p, i := RunPosts(c, m, idx, sampled, n - 1), idx[n - 1];
      if i < 0 then p
      else
        PostDefined(c, p, i, sampled[n - 1]);
        PostKeeps(c, p, i, sampled[n - 1]);
        ApplyPost(c, p, i, sampled[n - 1])
  }

  /** The arrays a kernel launch sees: accepted counts already scattered, counts already advanced. */
  ghost predicate Launch<S>(c: Config<S>, m: Machine<S>, idx: seq<int>, sampled: seq<nat>,
                            cols: Columns, computed: seq<int>, rows: seq<seq<nat>>)
    requires BatchReady(m, idx, sampled)
  {
    && cols.Slots(|m.slots|) && |computed| == |rows| == |m.slots|
    && forall b | 0 <= b < |idx| && 0 <= idx[b] ::
         LaunchRow(m.slots[idx[b]], sampled[b], cols.At(idx[b]), computed[idx[b]], rows[idx[b]])
  }

  ghost predicate LaunchRow(s: Slot, sampled: nat, r: Regs, computed: int, row: seq<nat>)
    requires s.occ.Occupied? && s.occ.phase.Computed?
  {
    && s.occ.phase.drafts < |s.occ.phase.toks| && sampled <= s.occ.phase.drafts + 1
    && r == s.regs.(accepted := AcceptedCount(sampled))
    && computed == |s.occ.hist| + |Kept(s.occ.phase.toks, s.occ.phase.drafts, sampled)|
    && row == s.occ.row
  }

  /** A postprocess moves within its own row, into a block that only it may write. */
  lemma LaunchRowSafe<S>(c: Config<S>, m: Machine<S>, i: nat, sampled: nat, r: Regs, computed: int, row: seq<nat>,
                         v: View)
    requires GoodConfig(c) && Inv(c, m) && CanPost(m, i, sampled) && (v.conv ==> v.size == c.width + c.spec)
    requires LaunchRow(m.slots[i], sampled, r, computed, row)
    ensures PostAccess(c, m, i, sampled) && Decision(r, computed, c.bs) == SlotPost(c, m.slots[i], sampled)
    ensures var d := Decision(r, computed, c.bs);
            d.copy ==> MoveFits(v, row, PostMove(d), |m.pool|) && Writable(c, m, i, row[d.dstCol])
  {
    hide Aligned, SlotPost, Inv, Writable, MoveFits, PostAccess;
    PostTouches(c, m, i, sampled, v);
    LaunchDecision(c, m.slots[i], sampled, r, computed, row);
  }

  lemma LaunchDecision<S>(c: Config<S>, s: Slot, sampled: nat, r: Regs, computed: int, row: seq<nat>)
    requires GoodConfig(c) && s.occ.Occupied? && s.occ.phase.Computed? && LaunchRow(s, sampled, r, computed, row)
    ensures Decision(r, computed, c.bs) == SlotPost(c, s, sampled)
  {
    hide Aligned;
  }

  lemma PostTouches<S>(c: Config<S>, m: Machine<S>, i: nat, sampled: nat, v: View)
    requires GoodConfig(c) && Inv(c, m) && CanPost(m, i, sampled) && (v.conv ==> v.size == c.width + c.spec)
    ensures PostAccess(c, m, i, sampled)
    ensures var d, row := SlotPost(c, m.slots[i], sampled), m.slots[i].occ.row;
            d.copy ==> MoveFits(v, row, PostMove(d), |m.pool|) && Writable(c, m, i, row[d.dstCol])
  {
    hide Fold, Window, Aligned, ColumnEnd, RunningColumn, SlotInv;
    PostDefined(c, m, i, sampled);
    InvRow(c, m, i);
    var s, d := m.slots[i], SlotPost(c, m.slots[i], sampled);
    if d.copy {
      assert Checkpoints(c, s, sampled);
      ReachBoundary(c, m, i, sampled);
      PostShape(c, m, ApplyPost(c, m, i, sampled), i, sampled);
      assert WritableAt(c, s.occ.row, |s.occ.hist|, d.dstCol);
    }
  }

  lemma InvRow<S>(c: Config<S>, m: Machine<S>, i: nat)
    requires GoodConfig(c) && Inv(c, m) && Live(m, i)
    ensures InPool(m.slots[i].occ.row, |m.pool|)
  {}

  lemma ConvSized<S>(c: Config<S>, m: Machine<S>)
    requires GoodConfig(c) && Inv(c, m)
    ensures |m.conv| == |m.pool| && Sized(m.conv, c.width + c.spec)
  {}

  /** The launch stays inside rows and pools, and no row writes a block that another row touches. */
  lemma LaunchSafe<S>(c: Config<S>, m: Machine<S>, idx: seq<int>, sampled: seq<nat>,
                      cols: Columns, computed: seq<int>, rows: seq<seq<nat>>, v: View)
    requires GoodConfig(c) && Inv(c, m) && BatchReady(m, idx, sampled)
    requires Launch(c, m, idx, sampled, cols, computed, rows)
    requires v.table == rows && (v.conv ==> v.size == c.width + c.spec)
    ensures var t := PostBatch(idx, cols, computed, c.bs); Fits(v, t, |m.pool|) && Apart(v, t, |m.pool|)
  {
    hide Inv, Writable, Decision, LaunchRow;
    var t := PostBatch(idx, cols, computed, c.bs);
    forall b: nat | Copies(t, b)
      ensures MoveFits(v, rows[idx[b]], t.moves[b], |m.pool|)
    {
      LaunchRowSafe(c, m, idx[b], sampled[b], cols.At(idx[b]), computed[idx[b]], rows[idx[b]], v);
    }
    forall a: nat, b: nat | a != b && Copies(t, a) && Copies(t, b)
      ensures To(v, t, a) != To(v, t, b) && To(v, t, a) != From(v, t, b)
    {
      LaunchRowSafe(c, m, idx[a], sampled[a], cols.At(idx[a]), computed[idx[a]], rows[idx[a]], v);
      LaunchRowOf(m, idx, sampled, cols, computed, rows, c, a);
      LaunchRowOf(m, idx, sampled, cols, computed, rows, c, b);
      WritableApart(c, m, idx[a], idx[b], To(v, t, a));
    }
  }

  lemma LaunchRowOf<S>(m: Machine<S>, idx: seq<int>, sampled: seq<nat>, cols: Columns, computed: seq<int>,
                       rows: seq<seq<nat>>, c: Config<S>, b: nat)
    requires BatchReady(m, idx, sampled) && Launch(c, m, idx, sampled, cols, computed, rows)
    requires b < |idx| && 0 <= idx[b]
    ensures Live(m, idx[b]) && rows[idx[b]] == m.slots[idx[b]].occ.row
  {}

  lemma {:induction false} PostLaunchPools(c: Config<seq<int>>, m: Machine<seq<int>>, idx: seq<int>, sampled: seq<nat>,
          cols: Columns, computed: seq<int>, rows: seq<seq<nat>>, vt: View, vc: View, n: nat)
    requires GoodConfig(c) && Inv(c, m) && BatchReady(m, idx, sampled) && n <= |idx|
    requires Launch(c, m, idx, sampled, cols, computed, rows) && Sized(m.pool, vt.size) && Sized(m.conv, vc.size)
    requires !vt.conv && vc.conv && vc.size == c.width + c.spec && vt.table == vc.table == rows
    requires Fits(vt, PostBatch(idx, cols, computed, c.bs), |m.pool|) && |m.conv| == |m.pool|
    requires Fits(vc, PostBatch(idx, cols, computed, c.bs), |m.conv|)
    ensures RunPosts(c, m, idx, sampled, n).pool == MoveRows(vt, PostBatch(idx, cols, computed, c.bs), m.pool, n)
    ensures RunPosts(c, m, idx, sampled, n).conv == MoveRows(vc, PostBatch(idx, cols, computed, c.bs), m.conv, n)
  {
    hide Inv, Decision, PostAccess, ApplyPost, LaunchRow, Fits, MoveFits, InPool, WholeBlock;
    if n > 0 {
      PostLaunchPools(c, m, idx, sampled, cols, computed, rows, vt, vc, n - 1);
      var p, i := RunPosts(c, m, idx, sampled, n - 1), idx[n - 1];
      if i >= 0 {
        ConvSized(c, p);
        PostEventIsRow(c, p, i, sampled[n - 1], cols.At(i), computed[i], rows[i], vt, vc);
      }
    }
  }

  /** The registers and accepted counts of row b after the first n rows. */
  lemma {:induction false} PostLaunchRegs<S>(c: Config<S>, m: Machine<S>, idx: seq<int>, sampled: seq<nat>,
          cols: Columns, computed: seq<int>, rows: seq<seq<nat>>, n: nat, b: nat)
    requires GoodConfig(c) && Inv(c, m) && BatchReady(m, idx, sampled) && b < n <= |idx| && 0 <= idx[b]
    requires Launch(c, m, idx, sampled, cols, computed, rows)
    ensures var r, d := cols.At(idx[b]), Decision(cols.At(idx[b]), computed[idx[b]], c.bs);
            RunPosts(c, m, idx, sampled, n).slots[idx[b]].regs == r.(accepted := if d.reset then 1 else r.accepted)
  {
    hide Inv, Decision, PostAccess, ApplyPost, SlotPost, Kept;
    var p, i := RunPosts(c, m, idx, sampled, n - 1), idx[n - 1];
    if i >= 0 {
      PostDefined(c, p, i, sampled[n - 1]);
      PostHasEffect(c, p, i, sampled[n - 1]);
    }
    if b < n - 1 {
      PostLaunchRegs(c, m, idx, sampled, cols, computed, rows, n - 1, b);
    } else {
      LaunchDecision(c, m.slots[i], sampled[b], cols.At(i), computed[i], rows[i]);
    }
  }

  /** One launch of the fused postprocess leaves the pools, the registers and the accepted counts that
      the Post events leave. */
  lemma PostLaunchIsRun(c: Config<seq<int>>, m: Machine<seq<int>>, idx: seq<int>, sampled: seq<nat>,
                        cols: Columns, computed: seq<int>, rows: seq<seq<nat>>, size: nat)
    requires GoodConfig(c) && Inv(c, m) && BatchReady(m, idx, sampled)
    requires Launch(c, m, idx, sampled, cols, computed, rows) && Sized(m.pool, size)
    ensures var vt, vc := View(false, rows, size), View(true, rows, c.width + c.spec);
            var t := PostBatch(idx, cols, computed, c.bs);
            && Fits(vt, t, |m.pool|) && Fits(vc, t, |m.conv|) && Sized(m.conv, vc.size)
            && RunPosts(c, m, idx, sampled, |idx|).pool == MoveRows(vt, t, m.pool, |idx|)
            && RunPosts(c, m, idx, sampled, |idx|).conv == MoveRows(vc, t, m.conv, |idx|)
    ensures forall b | 0 <= b < |idx| && 0 <= idx[b] ::
              RunPosts(c, m, idx, sampled, |idx|).slots[idx[b]].regs == cols.At(idx[b]).(
                accepted := if Decision(cols.At(idx[b]), computed[idx[b]], c.bs).reset then 1
                    else cols.At(idx[b]).accepted)
  {
    hide Inv, Decision, LaunchRow, Fits, RunPosts, MoveRows, Apart;
    var vt, vc := View(false, rows, size), View(true, rows, c.width + c.spec);
    ConvSized(c, m);
    LaunchSafe(c, m, idx, sampled, cols, computed, rows, vt);
    LaunchSafe(c, m, idx, sampled, cols, computed, rows, vc);
    PostLaunchPools(c, m, idx, sampled, cols, computed, rows, vt, vc, |idx|);
    forall b | 0 <= b < |idx| && 0 <= idx[b]
      ensures RunPosts(c, m, idx, sampled, |idx|).slots[idx[b]].regs == cols.At(idx[b]).(
                accepted := if Decision(cols.At(idx[b]), computed[idx[b]], c.bs).reset then 1
                    else cols.At(idx[b]).accepted)
    {
      PostLaunchRegs(c, m, idx, sampled, cols, computed, rows, |idx|, b);
    }
  }

  lemma PostEventIsRow(c: Config<seq<int>>, m: Machine<seq<int>>, i: nat, sampled: nat, r: Regs, computed: int,
                       row: seq<nat>, vt: View, vc: View)
    requires GoodConfig(c) && Inv(c, m) && CanPost(m, i, sampled) && LaunchRow(m.slots[i], sampled, r, computed, row)
    requires Sized(m.pool, vt.size) && Sized(m.conv, vc.size) && |m.conv| == |m.pool|
    requires !vt.conv && vc.conv && vc.size == c.width + c.spec
    ensures PostAccess(c, m, i, sampled)
    ensures var n, d := ApplyPost(c, m, i, sampled), Decision(r, computed, c.bs);
            && (forall k | 0 <= k < |m.slots| && k != i :: n.slots[k] == m.slots[k])
            && n.slots[i].regs == r.(accepted := if d.reset then 1 else r.accepted)
            && (d.copy ==> MoveFits(vt, row, PostMove(d), |m.pool|) && MoveFits(vc, row, PostMove(d), |m.pool|))
            && n.pool == (if d.copy then m.pool[row[d.dstCol] :=
                            WholeBlock(vt, m.pool[row[d.srcCol + d.bias]], m.pool[row[d.dstCol]], PostMove(d))]
                                else m.pool)
            && n.conv == (if d.copy then m.conv[row[d.dstCol] :=
                            WholeBlock(vc, m.conv[row[d.srcCol]], m.conv[row[d.dstCol]], PostMove(d))] else m.conv)
  {
    hide Fold, Window, Aligned, ColumnEnd, RunningColumn, SlotInv, Decision, SlotPost, Inv;
    LaunchRowSafe(c, m, i, sampled, r, computed, row, vt);
    LaunchRowSafe(c, m, i, sampled, r, computed, row, vc);
  }

  /** Any order of the postprocess's programs leaves the pools of a layer that the Post events leave. */
  lemma PostGridIsRun(c: Config<seq<int>>, m: Machine<seq<int>>, idx: seq<int>, sampled: seq<nat>,
                      cols: Columns, computed: seq<int>, rows: seq<seq<nat>>, size: nat, g: Tiling, s: nat, z: nat,
                      states: nat, order: seq<Program>)
    requires GoodConfig(c) && Inv(c, m) && BatchReady(m, idx, sampled)
    requires Launch(c, m, idx, sampled, cols, computed, rows) && Sized(m.pool, size)
    requires GoodTiling(g) && s < states && z < states && Enumerates(order, |idx|, states, g.tiles)
    ensures var vt, vc := View(false, rows, size), View(true, rows, c.width + c.spec);
            var t := PostBatch(idx, cols, computed, c.bs);
            && Fits(vt, t, |m.pool|) && Fits(vc, t, |m.conv|) && Sized(m.conv, vc.size)
            && RunGrid(vt, t, g, m.pool, s, order) == RunPosts(c, m, idx, sampled, |idx|).pool
            && RunGrid(vc, t, g, m.conv, z, order) == RunPosts(c, m, idx, sampled, |idx|).conv
  {
    hide Inv, Fits, RunGrid, RunPosts, MoveRows, Apart, LaunchRow, Enumerates;
    var vt, vc, t := View(false, rows, size), View(true, rows, c.width + c.spec), PostBatch(idx, cols, computed, c.bs);
    ConvSized(c, m);
    LaunchSafe(c, m, idx, sampled, cols, computed, rows, vt);
    LaunchSafe(c, m, idx, sampled, cols, computed, rows, vc);
    PostLaunchIsRun(c, m, idx, sampled, cols, computed, rows, size);
    AnyOrder(vt, t, g, m.pool, s, states, order);
    AnyOrder(vc, t, g, m.conv, z, states, order);
  }

  // ---- Order of batch rows ---------------------------------------------------------------

  /** A checkpoint copy stays inside its own row and writes a block no other row names. */
  lemma PostPrivate<S>(c: Config<S>, m: Machine<S>, i: nat, k: nat, sampled: nat)
    requires GoodConfig(c) && Inv(c, m) && CanPost(m, i, sampled) && PostAccess(c, m, i, sampled)
    requires Live(m, k) && k != i
    ensures var n := ApplyPost(c, m, i, sampled);
            && (forall b | 0 <= b < |m.pool| && b in m.slots[k].occ.row ::
                 n.pool[b] == m.pool[b] && n.conv[b] == m.conv[b])
            && (forall b <- n.cache | b !in m.cache || n.cache[b] != m.cache[b] ::
                  b in m.slots[i].occ.row && b !in m.slots[k].occ.row)
  {
    hide Fold, Window, Aligned, ColumnEnd, RunningColumn, SlotInv, Holds;
    var s := m.slots[i];
    if Checkpoints(c, s, sampled) {
      ReachBoundary(c, m, i, sampled);
      PostShape(c, m, ApplyPost(c, m, i, sampled), i, sampled);
      BoundaryCopied(c, m, i, sampled);
      var dst := SlotPost(c, s, sampled).dstCol;
      assert WritableAt(c, s.occ.row, |s.occ.hist|, dst) && Writable(c, m, i, s.occ.row[dst]);
    }
  }

  /** What the postprocess of slot i does, as one conditional copy and one conditional cache entry. */
  datatype PostEffect = PostEffect(copy: bool, srcT: nat, srcC: nat, dst: nat, bias: nat,
                                   cached: bool, prefix: seq<int>)

  ghost predicate Effect<S>(c: Config<S>, m: Machine<S>, n: Machine<S>, e: PostEffect, i: nat) {
    && (e.copy ==> e.srcT < |m.pool| && e.dst < |m.pool|) && ConvFits(m.conv, e)
    && i < |n.slots| == |m.slots|
    && n.pool == TemporalAfter(m.pool, e) && n.conv == ConvAfter(m.conv, e) && n.cache == CacheAfter(m.cache, e)
    && n.slots == m.slots[i := n.slots[i]]
  }

  /** The effect depends on slot i alone. */
  ghost function EffectOf<S>(c: Config<S>, s: Slot, sampled: nat): PostEffect
    requires GoodConfig(c) && s.occ.Occupied? && s.occ.phase.Computed?
    requires s.occ.phase.drafts < |s.occ.phase.toks| && sampled <= s.occ.phase.drafts + 1
  {
    var d, o := SlotPost(c, s, sampled), s.occ;
    var hist := o.hist + Kept(o.phase.toks, o.phase.drafts, sampled);
    if Checkpoints(c, s, sampled) && 0 <= d.dstCol < |o.row| && 0 <= d.srcCol && 0 <= d.bias
        && d.srcCol + d.bias < |o.row|
       && 0 <= Aligned(|hist|, c.bs) <= |hist|
    then PostEffect(d.copy, o.row[d.srcCol + d.bias], o.row[d.srcCol], o.row[d.dstCol], d.bias,
                    true, hist[..Aligned(|hist|, c.bs)])
    else PostEffect(false, 0, 0, 0, 0, false, [])
  }

  lemma PostHasEffect<S>(c: Config<S>, m: Machine<S>, i: nat, sampled: nat)
    requires GoodConfig(c) && Inv(c, m) && CanPost(m, i, sampled) && PostAccess(c, m, i, sampled)
    ensures var n, e := ApplyPost(c, m, i, sampled), EffectOf(c, m.slots[i], sampled);
            && Effect(c, m, n, e, i)
            && (e.copy ==> e.srcT in m.slots[i].occ.row && e.srcC in m.slots[i].occ.row)
            && (e.cached ==> Writable(c, m, i, e.dst)) && (e.copy ==> e.cached)
            && n.slots[i] == Slot(n.slots[i].regs, m.slots[i].occ.(
                 hist := m.slots[i].occ.hist + Kept(m.slots[i].occ.phase.toks, m.slots[i].occ.phase.drafts, sampled),
                     phase := Idle))
            && n.slots[i].regs == m.slots[i].regs.(accepted :=
                 if SlotPost(c, m.slots[i], sampled).reset then 1 else AcceptedCount(sampled))
  {
    hide Fold, Window, Aligned, ColumnEnd, RunningColumn, SlotInv;
    var s := m.slots[i];
    if Checkpoints(c, s, sampled) {
      ReachBoundary(c, m, i, sampled);
      PostShape(c, m, ApplyPost(c, m, i, sampled), i, sampled);
      var dst := SlotPost(c, s, sampled).dstCol;
      assert WritableAt(c, s.occ.row, |s.occ.hist|, dst);
    }
  }

  /** Postprocessing two requests in either order gives the same machine. */
  lemma PostsCommute<S>(c: Config<S>, m: Machine<S>, i: nat, si: nat, k: nat, sk: nat)
    requires GoodConfig(c) && Inv(c, m) && i != k && CanPost(m, i, si) && CanPost(m, k, sk)
    ensures PostAccess(c, m, i, si) && PostAccess(c, m, k, sk)
    ensures var a, b := ApplyPost(c, m, i, si), ApplyPost(c, m, k, sk);
            && CanPost(a, k, sk) && PostAccess(c, a, k, sk) && CanPost(b, i, si) && PostAccess(c, b, i, si)
            && ApplyPost(c, a, k, sk) == ApplyPost(c, b, i, si)
  {
    hide Inv, Fold, Window, ApplyPost, EffectOf, SlotPost, PostAccess, Kept;
    PostDefined(c, m, i, si);
    PostDefined(c, m, k, sk);
    PostHasEffect(c, m, i, si);
    PostHasEffect(c, m, k, sk);
    var a, b := ApplyPost(c, m, i, si), ApplyPost(c, m, k, sk);
    PostKeeps(c, m, i, si);
    PostKeeps(c, m, k, sk);
    PostDefined(c, a, k, sk);
    PostDefined(c, b, i, si);
    PostHasEffect(c, a, k, sk);
    PostHasEffect(c, b, i, si);
    var x, y := ApplyPost(c, a, k, sk), ApplyPost(c, b, i, si);
    EffectsCommute(c, m, a, b, x, y, i, EffectOf(c, m.slots[i], si), k, EffectOf(c, m.slots[k], sk));
  }

  lemma WritableApart<S>(c: Config<S>, m: Machine<S>, i: nat, k: nat, b: nat)
    requires GoodConfig(c) && Inv(c, m) && Live(m, i) && Live(m, k) && i != k && Writable(c, m, i, b)
    ensures b in m.slots[i].occ.row && b !in m.slots[k].occ.row
  {
    hide SlotInv, CacheInv, ColumnEnd;
  }

  lemma EffectsCommute<S>(c: Config<S>, m: Machine<S>, a: Machine<S>, b: Machine<S>, x: Machine<S>, y: Machine<S>,
                          i: nat, e: PostEffect, k: nat, f: PostEffect)
    requires i != k && GoodConfig(c) && Inv(c, m) && Live(m, i) && Live(m, k)
    requires Effect(c, m, a, e, i) && Effect(c, m, b, f, k) && Effect(c, a, x, f, k) && Effect(c, b, y, e, i)
    requires (e.copy ==> e.srcT in m.slots[i].occ.row && e.srcC in m.slots[i].occ.row)
    requires (f.copy ==> f.srcT in m.slots[k].occ.row && f.srcC in m.slots[k].occ.row)
    requires (e.cached ==> Writable(c, m, i, e.dst)) && (f.cached ==> Writable(c, m, k, f.dst))
    requires (e.copy ==> e.cached) && (f.copy ==> f.cached)
    requires x.slots[k] == b.slots[k] && y.slots[i] == a.slots[i]
    ensures x == y
  {
    hide Inv, Writable, TemporalAfter, ConvAfter, CacheAfter, ConvFits;
    if e.cached {
      WritableApart(c, m, i, k, e.dst);
    }
    if f.cached {
      WritableApart(c, m, k, i, f.dst);
    }
    TemporalCommute(m.pool, e, f);
    ConvCommute(m.conv, e, f);
    CacheCommute(m.cache, e, f);
    assert x.slots == m.slots[i := a.slots[i]][k := b.slots[k]] == m.slots[k := b.slots[k]][i := a.slots[i]] == y.slots;
  }

  /** Neither effect writes what the other reads or writes. */
  ghost predicate EffectsApart(e: PostEffect, f: PostEffect) {
    && (e.copy && f.copy ==> e.dst != f.dst && e.dst != f.srcT && e.dst != f.srcC && f.dst != e.srcT && f.dst != e.srcC)
    && (e.cached && f.cached ==> e.dst != f.dst)
  }

  function TemporalAfter<S>(pool: seq<S>, e: PostEffect): seq<S>
    requires e.copy ==> e.srcT < |pool| && e.dst < |pool|
  {
    if e.copy then pool[e.dst := pool[e.srcT]] else pool
  }

  lemma TemporalCommute<S>(pool: seq<S>, e: PostEffect, f: PostEffect)
    requires EffectsApart(e, f)
    requires (e.copy ==> e.srcT < |pool| && e.dst < |pool|) && (f.copy ==> f.srcT < |pool| && f.dst < |pool|)
    ensures TemporalAfter(TemporalAfter(pool, e), f) == TemporalAfter(TemporalAfter(pool, f), e)
  {}

  ghost predicate ConvFits(conv: seq<seq<int>>, e: PostEffect) {
    e.copy ==> e.srcC < |conv| && e.dst < |conv| && e.bias <= |conv[e.srcC]| == |conv[e.dst]|
  }

  function ConvAfter(conv: seq<seq<int>>, e: PostEffect): seq<seq<int>>
    requires e.copy ==> e.srcC < |conv| && e.dst < |conv| && e.bias <= |conv[e.srcC]| == |conv[e.dst]|
  {
    if e.copy then conv[e.dst := conv[e.srcC][e.bias..] + conv[e.dst][|conv[e.dst]| - e.bias..]] else conv
  }

  lemma ConvCommute(conv: seq<seq<int>>, e: PostEffect, f: PostEffect)
    requires EffectsApart(e, f) && ConvFits(conv, e) && ConvFits(conv, f)
    ensures ConvFits(ConvAfter(conv, e), f) && ConvFits(ConvAfter(conv, f), e)
    ensures ConvAfter(ConvAfter(conv, e), f) == ConvAfter(ConvAfter(conv, f), e)
  {}

  function CacheAfter(cache: map<nat, seq<int>>, e: PostEffect): map<nat, seq<int>> {
    if e.cached then cache[e.dst := e.prefix] else cache
  }

  lemma CacheCommute(cache: map<nat, seq<int>>, e: PostEffect, f: PostEffect)
    requires EffectsApart(e, f)
    ensures CacheAfter(CacheAfter(cache, e), f) == CacheAfter(CacheAfter(cache, f), e)
  {}
}
