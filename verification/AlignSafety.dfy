/** Every reachable state of the align machine stores each request's true recurrent state
    where the kernels look for it, and every cached block keeps the state of its prefix. */
module AlignSafety {
  import opened Arith
  import opened Recurrence
  import opened AlignMachine

  // ---- Column arithmetic -----------------------------------------------------------

  lemma RunningColumnBounds(x: int, bs: nat)
    requires x >= 1 && bs > 0
    ensures 0 <= RunningColumn(x, bs)
    ensures RunningColumn(x, bs) * bs < x <= (RunningColumn(x, bs) + 1) * bs
  {
    var q := (x + bs - 1) / bs;
    DivBounds(x + bs - 1, bs);
    DivMono(bs, x + bs - 1, bs);
    DivMul(1, bs);
    assert (q - 1) * bs == q * bs - bs;
  }

  lemma AlignedBounds(n: nat, bs: nat)
    requires bs > 0
    ensures 0 <= Aligned(n, bs) <= n < Aligned(n, bs) + bs
    ensures Aligned(n, bs) / bs == n / bs
  {
    DivBounds(n, bs);
    DivMul(n / bs, bs);
    DivMono(0, n, bs);
    MulLe(0, n / bs, bs);
  }

  /** When source and destination columns coincide, the boundary is the new computed count. */
  lemma ResetOnlyAtBoundary(computed: nat, query: nat, newComputed: nat, bs: nat)
    requires bs > 0 && computed < newComputed <= computed + query
    requires Aligned(newComputed, bs) / bs - 1 == RunningColumn(computed + query, bs)
    ensures Aligned(newComputed, bs) == newComputed == computed + query
  {
    AlignedBounds(newComputed, bs);
    RunningColumnBounds(computed + query, bs);
  }

  /** A postprocess destination never lies right of the running column. */
  lemma DestinationAtOrLeft(computed: nat, query: nat, newComputed: nat, bs: nat)
    requires bs > 0 && 0 < newComputed <= computed + query
    ensures Aligned(newComputed, bs) / bs - 1 <= RunningColumn(computed + query, bs)
  {
    AlignedBounds(newComputed, bs);
    RunningColumnBounds(computed + query, bs);
    var k, r := newComputed / bs, RunningColumn(computed + query, bs);
    if k - 1 > r {
      MulLe(r + 2, k, bs);
    }
  }

  // ---- Frame -------------------------------------------------------------------------

  /** Slot i's event left every block it may not write untouched, and no other slot. */
  ghost predicate OnlyWrites<S>(c: Config<S>, m: Machine<S>, n: Machine<S>, i: nat)
    requires Live(m, i)
  {
    && |n.pool| == |m.pool| && |n.conv| == |m.conv| && |n.slots| == |m.slots|
    && (forall k | 0 <= k < |m.slots| && k != i :: n.slots[k] == m.slots[k])
    && (forall b | 0 <= b < |m.pool| && !Writable(c, m, i, b) :: n.pool[b] == m.pool[b])
    && (forall b | 0 <= b < |m.conv| && !Writable(c, m, i, b) :: n.conv[b] == m.conv[b])
  }

  ghost predicate ConvShape<S>(c: Config<S>, m: Machine<S>) {
    && |m.conv| == |m.pool|
    && forall b | 0 <= b < |m.conv| :: |m.conv[b]| == c.width + c.spec
  }

  lemma SlotInvFrame<S>(c: Config<S>, m: Machine<S>, n: Machine<S>, s: Slot)
    requires GoodConfig(c) && s.occ.Occupied? && SlotInv(c, m, s)
    requires |n.pool| == |m.pool| && |n.conv| == |m.conv|
    requires forall b <- s.occ.row | b < |m.pool| :: n.pool[b] == m.pool[b]
    requires forall b <- s.occ.row | b < |m.conv| :: n.conv[b] == m.conv[b]
    ensures SlotInv(c, n, s)
  {
    hide Fold, Window, ColumnEnd, Aligned, RunningColumn;
    if s.occ.phase.Computed? {
      forall j: nat | j <= s.occ.phase.drafts
        ensures ColumnHolds(c, n, s, s.occ.phase.toks, s.occ.phase.drafts, j)
      {
        assert ColumnHolds(c, m, s, s.occ.phase.toks, s.occ.phase.drafts, j);
      }
    }
  }

  /** All invariants but slot i's own, from the frame alone. */
  lemma OthersKept<S>(c: Config<S>, m: Machine<S>, n: Machine<S>, i: nat, k: nat)
    requires GoodConfig(c) && Inv(c, m) && Live(m, i) && OnlyWrites(c, m, n, i)
    requires k != i && Live(m, k)
    ensures SlotInv(c, n, n.slots[k])
  {
    hide Fold, Window, ColumnEnd, Aligned, RunningColumn;
    SlotInvFrame(c, m, n, m.slots[k]);
  }

  lemma CacheKept<S>(c: Config<S>, m: Machine<S>, n: Machine<S>, i: nat)
    requires GoodConfig(c) && Inv(c, m) && Live(m, i) && OnlyWrites(c, m, n, i) && n.cache == m.cache
    ensures CacheInv(c, n)
  {
    hide Fold, Window, ColumnEnd, Aligned, RunningColumn;
    forall b <- n.cache ensures CacheEntry(c, n, b) {
      assert CacheEntry(c, m, b);
    }
  }

  /** Separation survives when slot i keeps its row and its computed count does not drop. */
  lemma SeparateKept<S>(c: Config<S>, m: Machine<S>, n: Machine<S>, i: nat)
    requires Live(m, i) && Live(n, i) && |n.slots| == |m.slots|
    requires forall k | 0 <= k < |m.slots| && k != i :: n.slots[k] == m.slots[k]
    requires n.slots[i].occ.row == m.slots[i].occ.row && |n.slots[i].occ.hist| >= |m.slots[i].occ.hist|
    requires Separate(c, m) && n.cache == m.cache
    ensures Separate(c, n)
  {
    hide Fold, Window, ColumnEnd, Aligned, RunningColumn;
    forall k: nat, b: nat | Live(n, k) && Writable(c, n, k, b)
      ensures Writable(c, m, k, b)
    {
      var l: nat :| WritableAt(c, n.slots[k].occ.row, |n.slots[k].occ.hist|, l) && n.slots[k].occ.row[l] == b;
      assert WritableAt(c, m.slots[k].occ.row, |m.slots[k].occ.hist|, l);
    }
  }

  /** The shared tail of the in-place events: row unchanged, only own blocks written. */
  lemma InPlace<S>(c: Config<S>, m: Machine<S>, n: Machine<S>, i: nat)
    requires GoodConfig(c) && Inv(c, m) && Live(m, i) && Live(n, i) && OnlyWrites(c, m, n, i)
    requires n.slots[i].occ.row == m.slots[i].occ.row && |n.slots[i].occ.hist| >= |m.slots[i].occ.hist|
    requires n.cache == m.cache && ConvShape(c, n) && SlotInv(c, n, n.slots[i])
    ensures Inv(c, n)
  {
    hide Fold, Window, ColumnEnd, Aligned, RunningColumn;
    CacheKept(c, m, n, i);
    SeparateKept(c, m, n, i);
    forall k: nat | Live(n, k) ensures SlotInv(c, n, n.slots[k]) {
      if k != i { OthersKept(c, m, n, i, k); }
    }
  }

  // ---- Preprocess, pre-copy -------------------------------------------------------

  lemma PreprocessKeeps<S>(c: Config<S>, m: Machine<S>, i: nat, toks: seq<int>, drafts: nat)
    requires GoodConfig(c) && Inv(c, m) && CanPreprocess(c, m, i, toks, drafts)
    ensures Inv(c, ApplyPreprocess(c, m, i, toks, drafts))
  {
    hide Fold, Window, ColumnEnd, Aligned;
    var n := ApplyPreprocess(c, m, i, toks, drafts);
    var s := m.slots[i];
    assert SlotInv(c, m, s);
    RunningColumnBounds(|s.occ.hist| + |toks|, c.bs);
    assert SlotInv(c, n, n.slots[i]);
    InPlace(c, m, n, i);
  }

  /** The running column of a step is writable, and so is every column right of it. */
  lemma RunningColumnWritable<S>(c: Config<S>, s: Slot, toks: seq<int>, drafts: nat, k: int)
    requires GoodConfig(c) && s.occ.Occupied? && StagedShape(c, s, toks, drafts)
    requires s.regs.stateIdx <= k < |s.occ.row|
    ensures 0 <= s.regs.stateIdx && WritableAt(c, s.occ.row, |s.occ.hist|, k)
  {
    RunningColumnBounds(|s.occ.hist| + |toks|, c.bs);
    MulLe(s.regs.stateIdx + 1, k + 1, c.bs);
  }

  lemma CopyWindow(from: seq<int>, to: seq<int>, bias: nat, width: nat, spec: nat)
    requires |from| == |to| == width + spec && bias <= spec
    ensures var moved := from[bias..] + to[|to| - bias..];
            |moved| == width + spec && moved[..width] == from[bias..bias + width]
  {}

  /** Copying the state at (src, bias) to a distinct column dst puts it there with offset 0. */
  lemma CopyHolds<S>(c: Config<S>, m: Machine<S>, row: seq<nat>, src: int, dst: int, bias: int, hist: seq<int>)
    requires ConvShape(c, m) && InPool(row, |m.pool|)
    requires Holds(c, m, row, src, bias, hist) && 0 <= dst < |row|
    ensures CopyDefined(c, m, row, src, dst, bias)
    ensures var n := CopyBlock(c, m, row, src, dst, bias);
            ConvShape(c, n) && Holds(c, n, row, dst, 0, hist)
  {
    CopyWindow(m.conv[row[src]], m.conv[row[dst]], bias, c.width, c.spec);
  }

  lemma PrecopyDefined<S>(c: Config<S>, m: Machine<S>, i: nat)
    requires GoodConfig(c) && Inv(c, m) && CanPrecopy(m, i)
    ensures PrecopyAccess(c, m, i)
  {
    hide Fold, Window, ColumnEnd, Aligned, RunningColumn;
    var s := m.slots[i];
    assert SlotInv(c, m, s);
    if s.occ.hist != [] {
      RunningColumnWritable(c, s, s.occ.phase.toks, s.occ.phase.drafts, s.regs.stateIdx);
      CopyHolds(c, m, s.occ.row, s.regs.srcCol, s.regs.stateIdx, s.regs.srcOff, s.occ.hist);
    }
  }

  lemma PrecopyKeeps<S>(c: Config<S>, m: Machine<S>, i: nat)
    requires GoodConfig(c) && Inv(c, m) && CanPrecopy(m, i) && PrecopyAccess(c, m, i)
    ensures Inv(c, ApplyPrecopy(c, m, i))
  {
    hide Fold, Window, ColumnEnd, Aligned, RunningColumn;
    var n := ApplyPrecopy(c, m, i);
    var s := m.slots[i];
    var r, o := s.regs, s.occ;
    assert SlotInv(c, m, s);
    RunningColumnWritable(c, s, o.phase.toks, o.phase.drafts, r.stateIdx);
    assert Writable(c, m, i, o.row[r.stateIdx]);
    if o.hist != [] && r.srcCol != r.stateIdx {
      CopyHolds(c, m, o.row, r.srcCol, r.stateIdx, r.srcOff, o.hist);
    }
    InPlace(c, m, n, i);
  }

  // ---- Forward ------------------------------------------------------------------------

  /** No column in [from, to) of the row names block b. */
  ghost predicate Outside(row: seq<nat>, from: nat, to: nat, b: nat) {
    forall a | from <= a < to && a < |row| :: row[a] != b
  }

  /** Column by column meaning of the temporal writes, and their footprint. */
  lemma {:induction false} WriteTemporalMeaning<S>(c: Config<S>, pool: seq<S>, row: seq<nat>, col: nat, s0: S,
                                                   toks: seq<int>, drafts: nat, k: nat)
    requires k <= drafts + 1 && drafts < |toks| && col + drafts < |row| && InPool(row, |pool|)
    requires forall a, b | col <= a < |row| && 0 <= b < |row| && a != b :: row[a] != row[b]
    ensures var p := WriteTemporal(c, pool, row, col, s0, toks, drafts, k);
            && (forall a | col <= a < col + k :: p[row[a]] == Fold(c.step, s0, toks[..|toks| - drafts + (a - col)]))
            && (forall b | 0 <= b < |pool| && Outside(row, col, col + k, b) :: p[b] == pool[b])
  {
    if k > 0 {
      WriteTemporalMeaning(c, pool, row, col, s0, toks, drafts, k - 1);
      var last := col + k - 1;
      var end := col + k;
      forall b | 0 <= b < |pool| && Outside(row, col, end, b)
        ensures Outside(row, col, last, b) && row[last] != b
      {}
    }
  }

  lemma ForwardDefined<S>(c: Config<S>, m: Machine<S>, i: nat)
    requires GoodConfig(c) && Inv(c, m) && CanForward(m, i)
    ensures ForwardAccess(c, m, i)
  {
    hide Fold, Window, ColumnEnd, Aligned, RunningColumn;
    var s := m.slots[i];
    assert SlotInv(c, m, s);
    RunningColumnWritable(c, s, s.occ.phase.toks, s.occ.phase.drafts, s.regs.stateIdx);
  }

  lemma ConvWriteWindow(block: seq<int>, hist: seq<int>, toks: seq<int>, width: nat, drafts: nat, j: nat)
    requires j <= drafts < |toks| && width + drafts <= |block|
    ensures var w := (Window(width, hist) + toks)[|toks| - drafts..] + block[width + drafts..];
            |w| == |block| && w[j..j + width] == Window(width, hist + toks[..|toks| - drafts + j])
  {
    var all := Window(width, hist) + toks;
    var w := all[|toks| - drafts..] + block[width + drafts..];
    WindowSlides(width, hist, toks, |toks| - drafts + j);
    assert w[j..j + width] == all[|toks| - drafts + j..|toks| - drafts + j + width];
  }

  lemma ForwardTemporal<S>(c: Config<S>, pool: seq<S>, row: seq<nat>, hist: seq<int>, col: nat,
                           toks: seq<int>, drafts: nat, j: nat)
    requires j <= drafts < |toks| && col + drafts < |row| && InPool(row, |pool|)
    requires forall a, b | col <= a < |row| && 0 <= b < |row| && a != b :: row[a] != row[b]
    ensures WriteTemporal(c, pool, row, col, Fold(c.step, c.init, hist), toks, drafts, drafts + 1)[row[col + j]]
         == Fold(c.step, c.init, hist + toks[..|toks| - drafts + j])
  {
    WriteTemporalMeaning(c, pool, row, col, Fold(c.step, c.init, hist), toks, drafts, drafts + 1);
    FoldConcat(c.step, c.init, hist, toks[..|toks| - drafts + j]);
    var a := col + j;
    assert col <= a < col + drafts + 1;
  }

  /** The running column holds the history, or the request is fresh. */
  ghost predicate ReadyFrom<S>(c: Config<S>, m: Machine<S>, s: Slot)
    requires s.occ.Occupied?
  {
    s.occ.hist == [] || Holds(c, m, s.occ.row, s.regs.stateIdx, s.regs.accepted - 1, s.occ.hist)
  }

  /** The forward pass folds from the state after the request's history. */
  lemma ForwardContents<S>(c: Config<S>, m: Machine<S>, i: nat)
    requires GoodConfig(c) && ConvShape(c, m) && CanForward(m, i) && ForwardAccess(c, m, i)
    requires ReadyFrom(c, m, m.slots[i])
    ensures var r, o := m.slots[i].regs, m.slots[i].occ;
            var n := ApplyForward(c, m, i);
            && n.pool == WriteTemporal(c, m.pool, o.row, r.stateIdx, Fold(c.step, c.init, o.hist),
                                       o.phase.toks, o.phase.drafts, o.phase.drafts + 1)
            && n.conv == m.conv[o.row[r.stateIdx] :=
                 (Window(c.width, o.hist) + o.phase.toks)[|o.phase.toks| - o.phase.drafts..]
                 + m.conv[o.row[r.stateIdx]][c.width + o.phase.drafts..]]
  {
    hide Fold, Window;
    WindowEmpty(c.width);
    FoldEmpty(c.step, c.init);
  }

  lemma ForwardColumn<S>(c: Config<S>, m: Machine<S>, n: Machine<S>, i: nat, j: nat)
    requires GoodConfig(c) && ConvShape(c, m) && CanForward(m, i) && ForwardAccess(c, m, i)
    requires n == ApplyForward(c, m, i) && j <= m.slots[i].occ.phase.drafts <= c.spec
    requires forall a, b | m.slots[i].regs.stateIdx <= a < |m.slots[i].occ.row| && 0 <= b < |m.slots[i].occ.row|
                           && a != b :: m.slots[i].occ.row[a] != m.slots[i].occ.row[b]
    requires ReadyFrom(c, m, m.slots[i])
    ensures ColumnHolds(c, n, n.slots[i], m.slots[i].occ.phase.toks, m.slots[i].occ.phase.drafts, j)
  {
    hide Fold, Window, ColumnEnd, Aligned, RunningColumn, WriteTemporal;
    var r, o := m.slots[i].regs, m.slots[i].occ;
    ForwardContents(c, m, i);
    ForwardTemporal(c, m.pool, o.row, o.hist, r.stateIdx, o.phase.toks, o.phase.drafts, j);
    ConvWriteWindow(m.conv[o.row[r.stateIdx]], o.hist, o.phase.toks, c.width, o.phase.drafts, j);
  }

  lemma OwnColumnsDistinct<S>(c: Config<S>, s: Slot, toks: seq<int>, drafts: nat)
    requires GoodConfig(c) && s.occ.Occupied? && StagedShape(c, s, toks, drafts)
    requires Injective(c, s.occ.row, |s.occ.hist|)
    ensures forall a, b | s.regs.stateIdx <= a < |s.occ.row| && 0 <= b < |s.occ.row| && a != b ::
              s.occ.row[a] != s.occ.row[b]
  {
    forall a, b | s.regs.stateIdx <= a < |s.occ.row| && 0 <= b < |s.occ.row| && a != b
      ensures s.occ.row[a] != s.occ.row[b]
    {
      RunningColumnWritable(c, s, toks, drafts, a);
    }
  }

  lemma ForwardTemporalFrame<S>(c: Config<S>, m: Machine<S>, i: nat, s0: S, b: nat)
    requires GoodConfig(c) && Inv(c, m) && CanForward(m, i) && ForwardAccess(c, m, i)
    requires b < |m.pool| && !Writable(c, m, i, b)
    ensures WriteTemporal(c, m.pool, m.slots[i].occ.row, m.slots[i].regs.stateIdx, s0,
                          m.slots[i].occ.phase.toks, m.slots[i].occ.phase.drafts,
                          m.slots[i].occ.phase.drafts + 1)[b] == m.pool[b]
  {
    hide Fold, Window, ColumnEnd, Aligned, RunningColumn;
    var s := m.slots[i];
    assert SlotInv(c, m, s);
    var r, o := s.regs, s.occ;
    var toks, drafts := o.phase.toks, o.phase.drafts;
    OwnColumnsDistinct(c, s, toks, drafts);
    var end := r.stateIdx + drafts + 1;
    forall a | r.stateIdx <= a < end && a < |o.row| ensures o.row[a] != b {
      RunningColumnWritable(c, s, toks, drafts, a);
    }
    assert Outside(o.row, r.stateIdx, end, b);
    WriteTemporalMeaning(c, m.pool, o.row, r.stateIdx, s0, toks, drafts, drafts + 1);
  }

  lemma ForwardFrame<S>(c: Config<S>, m: Machine<S>, n: Machine<S>, i: nat)
    requires GoodConfig(c) && Inv(c, m) && CanForward(m, i) && ForwardAccess(c, m, i)
    requires n == ApplyForward(c, m, i)
    ensures OnlyWrites(c, m, n, i) && ConvShape(c, n)
  {
    hide Fold, Window, ColumnEnd, Aligned, RunningColumn;
    var s := m.slots[i];
    var r, o := s.regs, s.occ;
    var s0 := if o.hist == [] then c.init else m.pool[o.row[r.stateIdx + r.accepted - 1]];
    forall b | 0 <= b < |m.pool| && !Writable(c, m, i, b) ensures n.pool[b] == m.pool[b] {
      ForwardTemporalFrame(c, m, i, s0, b);
    }
    assert SlotInv(c, m, s);
    RunningColumnWritable(c, s, o.phase.toks, o.phase.drafts, r.stateIdx);
    assert Writable(c, m, i, o.row[r.stateIdx]);
  }

  lemma ForwardKeeps<S>(c: Config<S>, m: Machine<S>, i: nat)
    requires GoodConfig(c) && Inv(c, m) && CanForward(m, i) && ForwardAccess(c, m, i)
    ensures Inv(c, ApplyForward(c, m, i))
  {
    hide Fold, Window, ColumnEnd, Aligned, RunningColumn;
    var n := ApplyForward(c, m, i);
    assert SlotInv(c, m, m.slots[i]);
    OwnColumnsDistinct(c, m.slots[i], m.slots[i].occ.phase.toks, m.slots[i].occ.phase.drafts);
    ForwardFrame(c, m, n, i);
    forall j: nat | j <= m.slots[i].occ.phase.drafts
      ensures ColumnHolds(c, n, n.slots[i], m.slots[i].occ.phase.toks, m.slots[i].occ.phase.drafts, j)
    {
      ForwardColumn(c, m, n, i, j);
    }
    InPlace(c, m, n, i);
  }

  // ---- Postprocess ---------------------------------------------------------------------

  /** The counts of a settled step: what stays, and where the running position is. */
  lemma PostCounts(c0: nat, toks: seq<int>, drafts: nat, sampled: nat, stateIdx: int, bs: nat)
    requires drafts < |toks| && drafts < bs && stateIdx == RunningColumn(c0 + |toks|, bs)
    requires if sampled == 0 then drafts == 0 else sampled <= drafts + 1
    ensures var computed := c0 + |Kept(toks, drafts, sampled)|;
            var running := c0 + |toks| - drafts;
            var aligned := Aligned(computed, bs);
            && computed == running + AcceptedCount(sampled) - 1
            && c0 < running <= computed <= c0 + |toks|
            && 0 <= aligned <= computed
            && (aligned >= running ==>
                  && 0 <= aligned / bs - 1 <= stateIdx && ColumnEnd(aligned / bs - 1, bs) == aligned
                  && (aligned / bs - 1 == stateIdx ==> aligned == computed))
  {
    var computed := c0 + |Kept(toks, drafts, sampled)|;
    var aligned := Aligned(computed, bs);
    AlignedBounds(computed, bs);
    DestinationAtOrLeft(c0, |toks|, computed, bs);
    if aligned >= c0 + |toks| - drafts {
      DivBounds(aligned, bs);
      if aligned / bs <= 0 { MulLe(aligned / bs, 0, bs); }
      if aligned / bs - 1 == stateIdx {
        ResetOnlyAtBoundary(c0, |toks|, computed, bs);
      }
    }
  }

  /** Slot i is about to settle a step that crossed a boundary: its columns and their contents. */
  ghost predicate AtBoundary<S>(c: Config<S>, m: Machine<S>, i: nat, sampled: nat)
    requires GoodConfig(c) && CanPost(m, i, sampled)
    requires m.slots[i].occ.phase.drafts < |m.slots[i].occ.phase.toks|
  {
    var s := m.slots[i];
    var o, d := s.occ, SlotPost(c, s, sampled);
    var hist := o.hist + Kept(o.phase.toks, o.phase.drafts, sampled);
    var aligned := Aligned(|hist|, c.bs);
    && ConvShape(c, m) && InPool(o.row, |m.pool|) && Injective(c, o.row, |o.hist|)
    && |o.hist| < aligned <= |hist|
    && Holds(c, m, o.row, d.srcCol, d.bias, hist[..aligned])
    && Holds(c, m, o.row, d.srcCol, AcceptedCount(sampled) - 1, hist)
    && 0 <= d.dstCol == aligned / c.bs - 1 <= s.regs.stateIdx < |o.row|
    && ColumnEnd(d.dstCol, c.bs) == aligned
    && d.srcCol == s.regs.stateIdx && d.bias <= AcceptedCount(sampled) - 1
    && (d.reset <==> d.dstCol == d.srcCol) && (d.reset ==> aligned == |hist|)
    && (d.copy <==> !(d.reset && d.bias == 0))
  }

  /** The decision at a boundary, in terms of the counts. */
  lemma BoundaryDecision<S>(c: Config<S>, s: Slot, sampled: nat)
    requires GoodConfig(c) && s.occ.Occupied? && s.occ.phase.Computed?
    requires StagedShape(c, s, s.occ.phase.toks, s.occ.phase.drafts)
    requires if sampled == 0 then s.occ.phase.drafts == 0 else sampled <= s.occ.phase.drafts + 1
    requires Checkpoints(c, s, sampled)
    ensures var o, d := s.occ, SlotPost(c, s, sampled);
            var computed := |o.hist| + |Kept(o.phase.toks, o.phase.drafts, sampled)|;
            var aligned := Aligned(computed, c.bs);
            var running := |o.hist| + |o.phase.toks| - o.phase.drafts;
            && |o.hist| < running <= aligned <= computed
            && computed == running + AcceptedCount(sampled) - 1
            && d.bias == aligned - running
            && 0 <= d.dstCol == aligned / c.bs - 1 <= s.regs.stateIdx
            && ColumnEnd(d.dstCol, c.bs) == aligned
            && d.srcCol == s.regs.stateIdx
            && (d.reset <==> d.dstCol == d.srcCol) && (d.reset ==> aligned == computed)
            && (d.copy <==> !(d.reset && d.bias == 0))
  {
    hide Aligned, ColumnEnd, RunningColumn;
    PostCounts(|s.occ.hist|, s.occ.phase.toks, s.occ.phase.drafts, sampled, s.regs.stateIdx, c.bs);
  }

  /** Cutting the kept history at the boundary leaves `bias` accepted drafts. */
  lemma KeptPrefix(hist: seq<int>, toks: seq<int>, drafts: nat, sampled: nat, aligned: nat, bias: nat)
    requires drafts < |toks| && sampled <= drafts + 1
    requires aligned == |hist| + |toks| - drafts + bias && bias <= AcceptedCount(sampled) - 1
    ensures aligned <= |hist + Kept(toks, drafts, sampled)|
    ensures (hist + Kept(toks, drafts, sampled))[..aligned] == hist + toks[..|toks| - drafts + bias]
  {}

  lemma ReachBoundary<S>(c: Config<S>, m: Machine<S>, i: nat, sampled: nat)
    requires GoodConfig(c) && Inv(c, m) && CanPost(m, i, sampled)
    requires m.slots[i].occ.phase.drafts < |m.slots[i].occ.phase.toks|
    requires Checkpoints(c, m.slots[i], sampled)
    ensures AtBoundary(c, m, i, sampled)
  {
    hide Fold, Window, ColumnEnd, Aligned, RunningColumn, Checkpoints, SlotPost, Holds;
    var s := m.slots[i];
    assert SlotInv(c, m, s);
    var o := s.occ;
    var toks, drafts := o.phase.toks, o.phase.drafts;
    BoundaryDecision(c, s, sampled);
    var bias := SlotPost(c, s, sampled).bias;
    var aligned := Aligned(|o.hist + Kept(toks, drafts, sampled)|, c.bs);
    KeptPrefix(o.hist, toks, drafts, sampled, aligned, bias);
    assert ColumnHolds(c, m, s, toks, drafts, bias);
    assert ColumnHolds(c, m, s, toks, drafts, AcceptedCount(sampled) - 1);
  }

  lemma PostDefined<S>(c: Config<S>, m: Machine<S>, i: nat, sampled: nat)
    requires GoodConfig(c) && Inv(c, m) && CanPost(m, i, sampled)
    ensures PostAccess(c, m, i, sampled)
  {
    assert SlotInv(c, m, m.slots[i]);
    if Checkpoints(c, m.slots[i], sampled) {
      ReachBoundary(c, m, i, sampled);
    }
  }

  lemma PostKeeps<S>(c: Config<S>, m: Machine<S>, i: nat, sampled: nat)
    requires GoodConfig(c) && Inv(c, m) && CanPost(m, i, sampled) && PostAccess(c, m, i, sampled)
    ensures Inv(c, ApplyPost(c, m, i, sampled))
  {
    hide Fold, Window, ColumnEnd, Aligned, RunningColumn;
    var n := ApplyPost(c, m, i, sampled);
    if Checkpoints(c, m.slots[i], sampled) {
      ReachBoundary(c, m, i, sampled);
      PostCheckpoint(c, m, n, i, sampled);
    } else {
      PostPlain(c, m, n, i, sampled);
    }
  }

  lemma PostPlain<S>(c: Config<S>, m: Machine<S>, n: Machine<S>, i: nat, sampled: nat)
    requires GoodConfig(c) && Inv(c, m) && CanPost(m, i, sampled) && PostAccess(c, m, i, sampled)
    requires n == ApplyPost(c, m, i, sampled) && !Checkpoints(c, m.slots[i], sampled)
    ensures Inv(c, n)
  {
    hide Fold, Window, ColumnEnd, Aligned;
    var s := m.slots[i];
    assert SlotInv(c, m, s);
    var a := AcceptedCount(sampled);
    assert ColumnHolds(c, m, s, s.occ.phase.toks, s.occ.phase.drafts, a - 1);
    InPlace(c, m, n, i);
  }

  /** A block nobody may write any more can enter the cache. */
  lemma CachePut<S>(c: Config<S>, m: Machine<S>, n: Machine<S>, b: nat, prefix: seq<int>)
    requires GoodConfig(c) && Inv(c, m) && n == m.(cache := m.cache[b := prefix])
    requires CacheEntry(c, n, b)
    requires forall i: nat | Live(m, i) :: !Writable(c, m, i, b)
    ensures Inv(c, n)
  {
    hide Fold, Window, ColumnEnd, Aligned, RunningColumn;
    forall i: nat | Live(n, i) ensures SlotInv(c, n, n.slots[i]) {
      SlotInvFrame(c, m, n, m.slots[i]);
    }
    forall x <- n.cache ensures CacheEntry(c, n, x) {
      if x != b { assert CacheEntry(c, m, x); }
    }
    forall i: nat, x: nat | Live(n, i) && Writable(c, n, i, x) ensures Writable(c, m, i, x) {}
  }

  /** The boundary's column is below the new computed count, so no live row may write it. */
  lemma BoundaryClosed<S>(c: Config<S>, m: Machine<S>, i: nat, dst: nat, k: nat)
    requires GoodConfig(c) && Inv(c, m) && Live(m, i) && Live(m, k)
    requires dst < |m.slots[i].occ.row| && ColumnEnd(dst, c.bs) <= |m.slots[i].occ.hist|
    requires forall l: nat :: WritableAt(c, m.slots[i].occ.row, |m.slots[i].occ.hist|, l) ==>
                                m.slots[i].occ.row[l] != m.slots[i].occ.row[dst]
    ensures !Writable(c, m, k, m.slots[i].occ.row[dst])
  {}

  /** A copy into a writable column touches only that column's block. */
  lemma CopyFrame<S>(c: Config<S>, m: Machine<S>, i: nat, src: int, dst: int, bias: int)
    requires Live(m, i) && CopyDefined(c, m, m.slots[i].occ.row, src, dst, bias)
    requires WritableAt(c, m.slots[i].occ.row, |m.slots[i].occ.hist|, dst)
    ensures OnlyWrites(c, m, CopyBlock(c, m, m.slots[i].occ.row, src, dst, bias), i)
  {
    hide Fold, Window, ColumnEnd, Aligned, RunningColumn;
    assert Writable(c, m, i, m.slots[i].occ.row[dst]);
  }

  /** ... so a state stored in other columns of the row survives it. */
  lemma CopyKeepsColumn<S>(c: Config<S>, m: Machine<S>, row: seq<nat>, src: int, dst: int, bias: int,
                           col: int, off: int, hist: seq<int>, computed: nat)
    requires CopyDefined(c, m, row, src, dst, bias)
    requires Injective(c, row, computed) && WritableAt(c, row, computed, dst)
    requires Holds(c, m, row, col, off, hist) && dst < col
    ensures Holds(c, CopyBlock(c, m, row, src, dst, bias), row, col, off, hist)
  {
    hide Fold, Window, ColumnEnd, Aligned, RunningColumn;
  }

  /** What slot i's blocks hold once the boundary copy is done. */
  lemma BoundaryCopied<S>(c: Config<S>, m: Machine<S>, i: nat, sampled: nat)
    requires GoodConfig(c) && CanPost(m, i, sampled) && PostAccess(c, m, i, sampled)
    requires AtBoundary(c, m, i, sampled)
    ensures var s := m.slots[i];
            var d := SlotPost(c, s, sampled);
            var hist := s.occ.hist + Kept(s.occ.phase.toks, s.occ.phase.drafts, sampled);
            var x := PostMoved(c, m, i, sampled);
            && OnlyWrites(c, m, x, i) && ConvShape(c, x)
            && Holds(c, x, s.occ.row, d.dstCol, 0, hist[..Aligned(|hist|, c.bs)])
            && (!d.reset ==> Holds(c, x, s.occ.row, s.regs.stateIdx, AcceptedCount(sampled) - 1, hist))
  {
    hide Fold, Window, ColumnEnd, Aligned, RunningColumn;
    var s := m.slots[i];
    var o := s.occ;
    var d := SlotPost(c, s, sampled);
    var hist := o.hist + Kept(o.phase.toks, o.phase.drafts, sampled);
    var a := AcceptedCount(sampled);
    if d.copy {
      CopyHolds(c, m, o.row, d.srcCol, d.dstCol, d.bias, hist[..Aligned(|hist|, c.bs)]);
      CopyFrame(c, m, i, d.srcCol, d.dstCol, d.bias);
      if !d.reset {
        CopyKeepsColumn(c, m, o.row, d.srcCol, d.dstCol, d.bias, s.regs.stateIdx, a - 1, hist, |o.hist|);
      }
    }
  }

  /** The machine after a checkpointing postprocess, field by field. */
  lemma PostShape<S>(c: Config<S>, m: Machine<S>, n: Machine<S>, i: nat, sampled: nat)
    requires GoodConfig(c) && CanPost(m, i, sampled) && PostAccess(c, m, i, sampled)
    requires n == ApplyPost(c, m, i, sampled) && AtBoundary(c, m, i, sampled)
    ensures var s := m.slots[i];
            var d := SlotPost(c, s, sampled);
            var x := PostMoved(c, m, i, sampled);
            var hist := s.occ.hist + Kept(s.occ.phase.toks, s.occ.phase.drafts, sampled);
            && n.pool == x.pool && n.conv == x.conv
            && n.slots == m.slots[i := Slot(s.regs.(accepted := if d.reset then 1 else AcceptedCount(sampled)),
                                            s.occ.(hist := hist, phase := Idle))]
            && n.cache == m.cache[s.occ.row[d.dstCol] := hist[..Aligned(|hist|, c.bs)]]
  {
    hide Fold, Window, Holds, ConvShape, Aligned, CopyTemporal, CopyConv;
  }

  /** The slot after a checkpointing postprocess is idle and consistent. */
  lemma PostSlot<S>(c: Config<S>, m: Machine<S>, n: Machine<S>, i: nat, sampled: nat)
    requires GoodConfig(c) && CanPost(m, i, sampled) && PostAccess(c, m, i, sampled)
    requires n == ApplyPost(c, m, i, sampled) && AtBoundary(c, m, i, sampled)
    ensures OnlyWrites(c, m, n, i) && ConvShape(c, n)
    ensures Live(n, i) && n.slots[i].occ.phase.Idle? && SlotInv(c, n, n.slots[i])
    ensures n.slots[i].occ.row == m.slots[i].occ.row && |n.slots[i].occ.hist| >= |m.slots[i].occ.hist|
    ensures Holds(c, n, n.slots[i].occ.row, SlotPost(c, m.slots[i], sampled).dstCol, 0,
                  n.slots[i].occ.hist[..Aligned(|n.slots[i].occ.hist|, c.bs)])
  {
    hide Fold, Window, Aligned, ApplyPost, PostMoved, PostAccess, SlotPost;
    PostShape(c, m, n, i, sampled);
    BoundaryCopied(c, m, i, sampled);
    var hist := n.slots[i].occ.hist;
    assert hist[..|hist|] == hist;
    assert Injective(c, m.slots[i].occ.row, |hist|) by {
      assert forall k: nat | WritableAt(c, m.slots[i].occ.row, |hist|, k) ::
          WritableAt(c, m.slots[i].occ.row, |m.slots[i].occ.hist|, k);
    }
  }

  lemma PostCheckpoint<S>(c: Config<S>, m: Machine<S>, n: Machine<S>, i: nat, sampled: nat)
    requires GoodConfig(c) && Inv(c, m) && CanPost(m, i, sampled) && PostAccess(c, m, i, sampled)
    requires n == ApplyPost(c, m, i, sampled) && AtBoundary(c, m, i, sampled)
    ensures Inv(c, n)
  {
    hide Fold, Window, Aligned, ApplyPost, PostMoved, PostAccess, SlotPost;
    PostShape(c, m, n, i, sampled);
    PostSlot(c, m, n, i, sampled);
    var uncached := n.(cache := m.cache);
    SlotInvFrame(c, n, uncached, n.slots[i]);
    InPlace(c, m, uncached, i);
    PublishCheckpoint(c, uncached, n, i, SlotPost(c, m.slots[i], sampled).dstCol, |m.slots[i].occ.hist|);
  }

  /** Entering the boundary's block into the cache keeps the invariant. */
  lemma PublishCheckpoint<S>(c: Config<S>, m: Machine<S>, n: Machine<S>, i: nat, dst: int, before: nat)
    requires GoodConfig(c) && Inv(c, m) && Live(m, i)
    requires before <= |m.slots[i].occ.hist| && Injective(c, m.slots[i].occ.row, before)
    requires 0 <= Aligned(|m.slots[i].occ.hist|, c.bs) <= |m.slots[i].occ.hist|
    requires 0 <= dst && before < ColumnEnd(dst, c.bs) == Aligned(|m.slots[i].occ.hist|, c.bs)
    requires Holds(c, m, m.slots[i].occ.row, dst, 0, m.slots[i].occ.hist[..Aligned(|m.slots[i].occ.hist|, c.bs)])
    requires n == m.(cache := m.cache[m.slots[i].occ.row[dst] :=
                                        m.slots[i].occ.hist[..Aligned(|m.slots[i].occ.hist|, c.bs)]])
    ensures Inv(c, n)
  {
    hide Fold, Window;
    var row, hist := m.slots[i].occ.row, m.slots[i].occ.hist;
    assert WritableAt(c, row, before, dst);
    forall l: nat | WritableAt(c, row, |hist|, l) ensures row[l] != row[dst] {
      assert l != dst && WritableAt(c, row, before, l);
    }
    forall k: nat | Live(m, k) ensures !Writable(c, m, k, row[dst]) {
      BoundaryClosed(c, m, i, dst, k);
    }
    CachePut(c, m, n, row[dst], hist[..Aligned(|hist|, c.bs)]);
  }
}
