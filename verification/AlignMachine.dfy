/** The mamba "align" cache: one state block per block column of a request, with the
    running state at column `stateIdx + accepted - 1`.

    A machine holds the per-slot registers, the two block pools (temporal and conv) and
    the prefix cache.  Its events are the kernels applied to one slot, so every grid or
    batch order of a kernel, and every interleaving of requests, is one run. */
module AlignMachine {
  import opened Recurrence

  /** Model constants: block size, number of draft tokens, conv window width, recurrence. */
  datatype Config<!S> = Config(bs: nat, spec: nat, width: nat, init: S, step: (S, int) -> S)

  ghost predicate GoodConfig<S>(c: Config<S>) {
    c.spec < c.bs
  }

  datatype Regs = Regs(stateIdx: int, accepted: int, srcCol: int, srcOff: int)

  datatype Phase =
    | Idle
    | Staged(toks: seq<int>, drafts: nat)    // after preprocess
    | Copied(toks: seq<int>, drafts: nat)    // after the pre-copy
    | Computed(toks: seq<int>, drafts: nat)  // after the forward pass, result pending

  datatype Occupant = Vacant | Occupied(req: nat, row: seq<nat>, hist: seq<int>, phase: Phase)

  datatype Slot = Slot(regs: Regs, occ: Occupant)

  datatype Machine<S> = Machine(
    slots: seq<Slot>,
    pool: seq<S>,            // temporal state blocks
    conv: seq<seq<int>>,     // conv state blocks, width + spec entries each
    cache: map<nat, seq<int>>)  // block id -> token prefix whose state it stores

  // ---- Decisions of the kernels -------------------------------------------------

  /** Column that receives the running state of a step ending at `computedAfter` tokens. */
  function RunningColumn(computedAfter: int, bs: nat): int
    requires bs > 0
  {
    (computedAfter + bs - 1) / bs - 1
  }

  /** Registers seeded when a request enters a slot. */
  function AdmitRegs(r: Regs, computed: nat, bs: nat): Regs
    requires bs > 0
  {
    r.(stateIdx := (computed - 1) / bs, accepted := 1)
  }

  /** preprocess_mamba_align_fused_kernel on one row. */
  function AdvanceRegs(r: Regs, computed: int, query: int, bs: nat): Regs
    requires bs > 0
  {
    var next := RunningColumn(computed + query, bs);
    Regs(next,
         if r.stateIdx >= 0 && r.stateIdx != next then 1 else r.accepted,
         r.stateIdx,
         if r.accepted - 1 > 0 then r.accepted - 1 else 0)
  }

  /** What postprocess_mamba_fused_kernel decides for one row. */
  datatype PostDecision = PostDecision(reset: bool, copy: bool, srcCol: int, dstCol: int, bias: int)

  function Aligned(n: int, bs: nat): int
    requires bs > 0
  {
    n / bs * bs
  }

  function DecidePost(stateIdx: int, accepted: int, running: int, newComputed: int, bs: nat): PostDecision
    requires bs > 0
  {
    var aligned := Aligned(newComputed, bs);
    if aligned < running then PostDecision(false, false, 0, 0, 0)
    else
      var bias := aligned - running;
      var dst := aligned / bs - 1;
      PostDecision(stateIdx == dst, !(stateIdx == dst && bias == 0), stateIdx, dst, bias)
  }

  /** Temporal copy: the bias selects the source column. */
  function CopyTemporal<S>(pool: seq<S>, row: seq<nat>, src: int, dst: int, bias: int): seq<S>
    requires 0 <= src + bias < |row| && 0 <= dst < |row|
    requires row[src + bias] < |pool| && row[dst] < |pool|
  {
    pool[row[dst] := pool[row[src + bias]]]
  }

  /** Conv copy: the bias shifts the window inside the block; the vacated tail keeps its old bytes. */
  function CopyConv(conv: seq<seq<int>>, row: seq<nat>, src: int, dst: int, bias: int): seq<seq<int>>
    requires 0 <= src < |row| && 0 <= dst < |row|
    requires row[src] < |conv| && row[dst] < |conv|
    requires 0 <= bias <= |conv[row[src]]| == |conv[row[dst]]|
  {
    var from, to := conv[row[src]], conv[row[dst]];
    conv[row[dst] := from[bias..] + to[|to| - bias..]]
  }

  predicate InPool(row: seq<nat>, blocks: nat) {
    forall k | 0 <= k < |row| :: row[k] < blocks
  }

  // ---- Forward pass (contract of the linear-attention kernels) --------------------

  /** Writes columns `col .. col + k` of the row: column `col + j` gets the state after
      all but the last `drafts - j` scheduled tokens. */
  function WriteTemporal<S>(c: Config<S>, pool: seq<S>, row: seq<nat>, col: nat, s0: S,
                            toks: seq<int>, drafts: nat, k: nat): (p: seq<S>)
    requires k <= drafts + 1 && drafts < |toks| && col + drafts < |row|
    requires InPool(row, |pool|)
    ensures |p| == |pool|
    decreases k
  {
    if k == 0 then pool
    else
      var before := WriteTemporal(c, pool, row, col, s0, toks, drafts, k - 1);
      before[row[col + k - 1] := Fold(c.step, s0, toks[..|toks| - drafts + k - 1])]
  }

  /** Writes the inputs around the running position into the block of column `col`. */
  function WriteConv(conv: seq<seq<int>>, row: seq<nat>, col: nat, w0: seq<int>,
                     toks: seq<int>, drafts: nat): seq<seq<int>>
    requires drafts < |toks| && col < |row| && row[col] < |conv|
    requires |w0| + drafts <= |conv[row[col]]|
  {
    conv[row[col] := (w0 + toks)[|toks| - drafts..] + conv[row[col]][|w0| + drafts..]]
  }

  // ---- Events ----------------------------------------------------------------------

  datatype Event =
    | Admit(i: nat, req: nat, row: seq<nat>, hist: seq<int>)
    | Extend(i: nat, blocks: seq<nat>)
    | Preprocess(i: nat, toks: seq<int>, drafts: nat)
    | Precopy(i: nat)
    | Forward(i: nat)
    | Fill(i: nat)                      // accepted := 1 while the result is still pending
    | Post(i: nat, sampled: nat)        // scatter the sampled count, then the fused postprocess
    | Release(i: nat)
    | Evict(b: nat)

  ghost predicate Live<S>(m: Machine<S>, i: nat) {
    i < |m.slots| && m.slots[i].occ.Occupied?
  }

  /** Blocks of slot i that are not below its computed count, hence may still be written. */
  ghost predicate Writable<S>(c: Config<S>, m: Machine<S>, i: nat, b: nat)
    requires Live(m, i)
  {
    exists k: nat :: WritableAt(c, m.slots[i].occ.row, |m.slots[i].occ.hist|, k) && m.slots[i].occ.row[k] == b
  }

  /** Number of tokens whose state block column k would checkpoint. */
  function ColumnEnd(k: int, bs: nat): int {
    (k + 1) * bs
  }

  ghost predicate WritableAt<S>(c: Config<S>, row: seq<nat>, computed: nat, k: nat) {
    k < |row| && ColumnEnd(k, c.bs) > computed
  }

  /** No live row and no cache entry uses the block. */
  ghost predicate Unused<S>(m: Machine<S>, b: nat) {
    b < |m.pool| && b !in m.cache && forall i: nat | Live(m, i) :: b !in m.slots[i].occ.row
  }

  /** No live request may still write the block. */
  ghost predicate Settled<S>(c: Config<S>, m: Machine<S>, b: nat) {
    forall i: nat | Live(m, i) :: !Writable(c, m, i, b)
  }

  /** The request is idle, and its row has the columns that the step may write. */
  ghost predicate CanPreprocess<S>(c: Config<S>, m: Machine<S>, i: nat, toks: seq<int>, drafts: nat)
    requires GoodConfig(c)
  {
    && Live(m, i) && m.slots[i].occ.phase.Idle?
    && drafts <= c.spec && drafts < |toks|
    && RunningColumn(|m.slots[i].occ.hist| + |toks|, c.bs) + drafts < |m.slots[i].occ.row|
  }

  ghost predicate CanPrecopy<S>(m: Machine<S>, i: nat) {
    Live(m, i) && m.slots[i].occ.phase.Staged?
  }

  ghost predicate CanForward<S>(m: Machine<S>, i: nat) {
    Live(m, i) && m.slots[i].occ.phase.Copied?
  }

  /** The sampler returns no token for a non-final prefill chunk, else one to drafts + 1. */
  ghost predicate CanPost<S>(m: Machine<S>, i: nat, sampled: nat) {
    && Live(m, i) && m.slots[i].occ.phase.Computed?
    && (if sampled == 0 then m.slots[i].occ.phase.drafts == 0 else sampled <= m.slots[i].occ.phase.drafts + 1)
  }

  ghost predicate Enabled<S>(c: Config<S>, m: Machine<S>, e: Event)
    requires GoodConfig(c)
  {
    match e
    case Admit(i, req, row, hist) =>
      && i < |m.slots| && m.slots[i].occ.Vacant?
      && |hist| % c.bs == 0 && |hist| / c.bs <= |row|
      && InPool(row, |m.pool|)
      && (|hist| > 0 ==> row[|hist| / c.bs - 1] in m.cache && m.cache[row[|hist| / c.bs - 1]] == hist)
      && (forall k | 0 <= k < |row| :: if WritableAt(c, row, |hist|, k) then Unused(m, row[k])
           else Settled(c, m, row[k]))
      && Injective(c, row, |hist|)
    case Extend(i, blocks) =>
      && Live(m, i)
      && (forall k | 0 <= k < |blocks| :: Unused(m, blocks[k]))
      && (forall k, l | 0 <= k < l < |blocks| :: blocks[k] != blocks[l])
    case Preprocess(i, toks, drafts) => CanPreprocess(c, m, i, toks, drafts)
    case Precopy(i) => CanPrecopy(m, i)
    case Forward(i) => CanForward(m, i)
    case Fill(i) => Live(m, i) && m.slots[i].occ.phase.Computed?
    case Post(i, sampled) => CanPost(m, i, sampled)
    case Release(i) => Live(m, i)
    case Evict(b) => forall i: nat | Live(m, i) :: b !in m.slots[i].occ.row
  }

  /** Writable columns of a row name blocks that occur nowhere else in the row. */
  ghost predicate Injective<S>(c: Config<S>, row: seq<nat>, computed: nat) {
    forall k: nat, l: nat :: WritableAt(c, row, computed, k) && l < |row| && l != k ==> row[k] != row[l]
  }

  // ---- Transitions -------------------------------------------------------------------

  function SetSlot<S>(m: Machine<S>, i: nat, s: Slot): Machine<S>
    requires i < |m.slots|
  {
    m.(slots := m.slots[i := s])
  }

  /** Tokens that stay in the history when `sampled` tokens came back for a step. */
  function Kept(toks: seq<int>, drafts: nat, sampled: nat): seq<int>
    requires drafts < |toks| && sampled <= drafts + 1
  {
    toks[..|toks| - drafts + (if sampled == 0 then 1 else sampled) - 1]
  }

  function AcceptedCount(sampled: nat): nat {
    if sampled == 0 then 1 else sampled
  }

  /** The postprocess decision for slot s when `sampled` tokens came back. */
  function SlotPost<S>(c: Config<S>, s: Slot, sampled: nat): PostDecision
    requires c.bs > 0 && s.occ.Occupied? && s.occ.phase.Computed?
    requires s.occ.phase.drafts < |s.occ.phase.toks| && sampled <= s.occ.phase.drafts + 1
  {
    var newComputed := |s.occ.hist| + |Kept(s.occ.phase.toks, s.occ.phase.drafts, sampled)|;
    var a := AcceptedCount(sampled);
    DecidePost(s.regs.stateIdx, a, newComputed - a + 1, newComputed, c.bs)
  }

  ghost predicate CopyDefined<S>(c: Config<S>, m: Machine<S>, row: seq<nat>, src: int, dst: int, bias: int) {
    && 0 <= bias && 0 <= src && src + bias < |row| && 0 <= dst < |row|
    && row[src + bias] < |m.pool| && row[dst] < |m.pool|
    && row[src] < |m.conv| && row[dst] < |m.conv|
    && bias <= |m.conv[row[src]]| == |m.conv[row[dst]]|
  }

  ghost predicate PrecopyAccess<S>(c: Config<S>, m: Machine<S>, i: nat)
    requires CanPrecopy(m, i)
  {
    var r, o := m.slots[i].regs, m.slots[i].occ;
    r.srcCol < 0 || r.srcCol == r.stateIdx || CopyDefined(c, m, o.row, r.srcCol, r.stateIdx, r.srcOff)
  }

  ghost predicate ForwardAccess<S>(c: Config<S>, m: Machine<S>, i: nat)
    requires CanForward(m, i)
  {
    var r, o := m.slots[i].regs, m.slots[i].occ;
    && o.phase.drafts < |o.phase.toks| && InPool(o.row, |m.pool|) && InPool(o.row, |m.conv|)
    && 0 <= r.stateIdx && 1 <= r.accepted
    && r.stateIdx + o.phase.drafts < |o.row|
    && (o.hist != [] ==> r.stateIdx + r.accepted - 1 < |o.row|)
    && r.accepted - 1 + c.width <= |m.conv[o.row[r.stateIdx]]|
    && c.width + o.phase.drafts <= |m.conv[o.row[r.stateIdx]]|
  }

  ghost predicate PostAccess<S>(c: Config<S>, m: Machine<S>, i: nat, sampled: nat)
    requires GoodConfig(c) && CanPost(m, i, sampled)
  {
    var o := m.slots[i].occ;
    && o.phase.drafts < |o.phase.toks|
    && var d := SlotPost(c, m.slots[i], sampled);
       d.copy ==> CopyDefined(c, m, o.row, d.srcCol, d.dstCol, d.bias)
  }

  /** Every block access of the event is inside its row and its pool. */
  ghost predicate Defined<S>(c: Config<S>, m: Machine<S>, e: Event)
    requires GoodConfig(c) && Enabled(c, m, e)
  {
    match e
    case Precopy(i) => PrecopyAccess(c, m, i)
    case Forward(i) => ForwardAccess(c, m, i)
    case Post(i, sampled) => PostAccess(c, m, i, sampled)
    case _ => true
  }

  ghost function CopyBlock<S>(c: Config<S>, m: Machine<S>, row: seq<nat>, src: int, dst: int, bias: int): Machine<S>
    requires CopyDefined(c, m, row, src, dst, bias)
  {
    m.(pool := CopyTemporal(m.pool, row, src, dst, bias), conv := CopyConv(m.conv, row, src, dst, bias))
  }

  ghost function ApplyPreprocess<S>(c: Config<S>, m: Machine<S>, i: nat, toks: seq<int>, drafts: nat): Machine<S>
    requires GoodConfig(c) && CanPreprocess(c, m, i, toks, drafts)
  {
    var s := m.slots[i];
    SetSlot(m, i, Slot(AdvanceRegs(s.regs, |s.occ.hist|, |toks|, c.bs), s.occ.(phase := Staged(toks, drafts))))
  }

  ghost function ApplyPrecopy<S>(c: Config<S>, m: Machine<S>, i: nat): Machine<S>
    requires CanPrecopy(m, i) && PrecopyAccess(c, m, i)
  {
    var r, o := m.slots[i].regs, m.slots[i].occ;
    var moved := if r.srcCol < 0 || r.srcCol == r.stateIdx then m
                 else CopyBlock(c, m, o.row, r.srcCol, r.stateIdx, r.srcOff);
    SetSlot(moved, i, Slot(r, o.(phase := Copied(o.phase.toks, o.phase.drafts))))
  }

  ghost function ApplyForward<S>(c: Config<S>, m: Machine<S>, i: nat): Machine<S>
    requires CanForward(m, i) && ForwardAccess(c, m, i)
  {
    var r, o := m.slots[i].regs, m.slots[i].occ;
    var toks, drafts := o.phase.toks, o.phase.drafts;
    var s0 := if o.hist == [] then c.init else m.pool[o.row[r.stateIdx + r.accepted - 1]];
    var w0 := if o.hist == [] then Zeros(c.width)
              else m.conv[o.row[r.stateIdx]][r.accepted - 1..r.accepted - 1 + c.width];
    SetSlot(m.(pool := WriteTemporal(c, m.pool, o.row, r.stateIdx, s0, toks, drafts, drafts + 1),
               conv := WriteConv(m.conv, o.row, r.stateIdx, w0, toks, drafts)),
            i, Slot(r, o.(phase := Computed(toks, drafts))))
  }

  /** The block copy of the fused postprocess, if it makes one. */
  ghost function PostMoved<S>(c: Config<S>, m: Machine<S>, i: nat, sampled: nat): Machine<S>
    requires GoodConfig(c) && CanPost(m, i, sampled) && PostAccess(c, m, i, sampled)
  {
    var d := SlotPost(c, m.slots[i], sampled);
    if d.copy then CopyBlock(c, m, m.slots[i].occ.row, d.srcCol, d.dstCol, d.bias) else m
  }

  ghost function ApplyPost<S>(c: Config<S>, m: Machine<S>, i: nat, sampled: nat): Machine<S>
    requires GoodConfig(c) && CanPost(m, i, sampled) && PostAccess(c, m, i, sampled)
  {
    var s := m.slots[i];
    var o := s.occ;
    var d := SlotPost(c, s, sampled);
    var hist := o.hist + Kept(o.phase.toks, o.phase.drafts, sampled);
    var aligned := Aligned(|hist|, c.bs);
    var a := if d.reset then 1 else AcceptedCount(sampled);
    var settled := SetSlot(PostMoved(c, m, i, sampled), i,
        Slot(s.regs.(accepted := a), o.(hist := hist, phase := Idle)));
    if Checkpoints(c, s, sampled) && 0 <= aligned / c.bs - 1 < |o.row| then
      settled.(cache := m.cache[o.row[aligned / c.bs - 1] := hist[..aligned]])
    else settled
  }

  /** A block boundary lies between the running position and the new computed count. */
  ghost predicate Checkpoints<S>(c: Config<S>, s: Slot, sampled: nat)
    requires c.bs > 0 && s.occ.Occupied? && s.occ.phase.Computed?
    requires s.occ.phase.drafts < |s.occ.phase.toks| && sampled <= s.occ.phase.drafts + 1
  {
    var newComputed := |s.occ.hist| + |Kept(s.occ.phase.toks, s.occ.phase.drafts, sampled)|;
    Aligned(newComputed, c.bs) >= newComputed - AcceptedCount(sampled) + 1
  }

  ghost function Apply<S>(c: Config<S>, m: Machine<S>, e: Event): Machine<S>
    requires GoodConfig(c) && Enabled(c, m, e) && Defined(c, m, e)
  {
    match e
    case Admit(i, req, row, hist) =>
      SetSlot(m, i, Slot(AdmitRegs(m.slots[i].regs, |hist|, c.bs), Occupied(req, row, hist, Idle)))
    case Extend(i, blocks) =>
      var s := m.slots[i];
      SetSlot(m, i, s.(occ := s.occ.(row := s.occ.row + blocks)))
    case Preprocess(i, toks, drafts) => ApplyPreprocess(c, m, i, toks, drafts)
    case Precopy(i) => ApplyPrecopy(c, m, i)
    case Forward(i) => ApplyForward(c, m, i)
    case Fill(i) =>
      var s := m.slots[i];
      SetSlot(m, i, s.(regs := s.regs.(accepted := 1)))
    case Post(i, sampled) => ApplyPost(c, m, i, sampled)
    case Release(i) => SetSlot(m, i, m.slots[i].(occ := Vacant))
    case Evict(b) => m.(cache := m.cache - {b})
  }

  // ---- Invariant --------------------------------------------------------------------

  /** Column `col`, offset `off` holds the state after `hist` in both pools. */
  ghost predicate Holds<S>(c: Config<S>, m: Machine<S>, row: seq<nat>, col: int, off: int, hist: seq<int>) {
    && 0 <= col && 0 <= off <= c.spec && col + off < |row|
    && row[col] < |m.conv| && row[col + off] < |m.pool|
    && m.pool[row[col + off]] == Fold(c.step, c.init, hist)
    && |m.conv[row[col]]| == c.width + c.spec
    && m.conv[row[col]][off..off + c.width] == Window(c.width, hist)
  }

  ghost predicate StagedShape<S>(c: Config<S>, s: Slot, toks: seq<int>, drafts: nat)
    requires GoodConfig(c) && s.occ.Occupied?
  {
    && drafts <= c.spec && drafts < |toks|
    && s.regs.stateIdx == RunningColumn(|s.occ.hist| + |toks|, c.bs)
    && s.regs.stateIdx + drafts < |s.occ.row|
  }

  /** After the forward pass, column `stateIdx + j` holds the state with j draft tokens accepted. */
  ghost predicate ColumnHolds<S>(c: Config<S>, m: Machine<S>, s: Slot, toks: seq<int>, drafts: nat, j: nat)
    requires s.occ.Occupied? && j <= drafts < |toks|
  {
    Holds(c, m, s.occ.row, s.regs.stateIdx, j, s.occ.hist + toks[..|toks| - drafts + j])
  }

  ghost predicate SlotInv<S>(c: Config<S>, m: Machine<S>, s: Slot)
    requires GoodConfig(c) && s.occ.Occupied?
  {
    var r, o := s.regs, s.occ;
    && InPool(o.row, |m.pool|)
    && Injective(c, o.row, |o.hist|)
    && match o.phase
       case Idle =>
         if o.hist == [] then r.stateIdx == -1 && r.accepted == 1
         else r.accepted >= 1 && Holds(c, m, o.row, r.stateIdx, r.accepted - 1, o.hist)
       case Staged(toks, drafts) =>
         && StagedShape(c, s, toks, drafts)
         && (if o.hist == [] then r.srcCol == -1 && r.accepted == 1
             else
               && Holds(c, m, o.row, r.srcCol, r.srcOff, o.hist)
               && r.accepted == if r.srcCol == r.stateIdx then r.srcOff + 1 else 1)
       case Copied(toks, drafts) =>
         && StagedShape(c, s, toks, drafts)
         && r.accepted >= 1
         && (if o.hist == [] then r.accepted == 1 else Holds(c, m, o.row, r.stateIdx, r.accepted - 1, o.hist))
       case Computed(toks, drafts) =>
         && StagedShape(c, s, toks, drafts)
         && forall j: nat | j <= drafts :: ColumnHolds(c, m, s, toks, drafts, j)
  }

  ghost predicate CacheInv<S>(c: Config<S>, m: Machine<S>) {
    forall b <- m.cache :: CacheEntry(c, m, b)
  }

  ghost predicate CacheEntry<S>(c: Config<S>, m: Machine<S>, b: nat)
    requires b in m.cache
  {
    && b < |m.pool| && b < |m.conv|
    && m.pool[b] == Fold(c.step, c.init, m.cache[b])
    && |m.conv[b]| == c.width + c.spec && m.conv[b][..c.width] == Window(c.width, m.cache[b])
  }

  ghost predicate Separate<S>(c: Config<S>, m: Machine<S>) {
    && (forall i: nat, k: nat, b: nat | Live(m, i) && Live(m, k) && i != k && Writable(c, m, i, b) ::
          b !in m.slots[k].occ.row)
    && (forall i: nat, b: nat | Live(m, i) && Writable(c, m, i, b) :: b !in m.cache)
  }

  ghost predicate Inv<S>(c: Config<S>, m: Machine<S>)
    requires GoodConfig(c)
  {
    && |m.conv| == |m.pool|
    && (forall b | 0 <= b < |m.conv| :: |m.conv[b]| == c.width + c.spec)
    && (forall i: nat | Live(m, i) :: SlotInv(c, m, m.slots[i]))
    && CacheInv(c, m)
    && Separate(c, m)
  }
}
