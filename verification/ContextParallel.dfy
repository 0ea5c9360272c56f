/** Interleaved sharding of a context over the ranks of a decode context-parallel group. */
module ContextParallel {
  import Arith

  /** The group: world ranks, interleave consecutive tokens per turn. */
  datatype Group = Group(world: nat, interleave: nat)

  predicate Valid(group: Group) {
    group.world > 0 && group.interleave > 0
  }

  function Owner(group: Group, p: nat): nat
    requires Valid(group)
  {
    p / group.interleave % group.world
  }

  /** Positions below len that the rank owns. */
  function Owned(group: Group, rank: nat, len: nat): nat
    requires Valid(group)
  {
    if len == 0 then 0 else Owned(group, rank, len - 1) + if Owner(group, len - 1) == rank then 1 else 0
  }

  function Clamp(x: int, hi: nat): nat {
    if x < 0 then 0 else if x > hi then hi else x
  }

  /** len_per_token under DCP_WORLD > 1. */
  function LocalLen(group: Group, rank: nat, len: nat): nat
    requires Valid(group)
  {
    var turns := len / group.interleave / group.world;
    Arith.MulLe(0, turns, group.interleave);
    var base: nat := turns * group.interleave;
    base + Clamp(len - base * group.world - rank * group.interleave, group.interleave)
  }

  /** The position (turn * world + rank) * interleave + o. */
  function PositionAt(group: Group, turn: nat, rank: nat, o: nat): nat {
    (turn * group.world + rank) * group.interleave + o
  }

  function Share(span: nat, owner: nat, o: nat, rank: nat): nat {
    if owner < rank then 0 else if owner > rank then span else o
  }

  lemma PositionParts(group: Group, p: nat)
    requires Valid(group)
    ensures var span := group.interleave; p == PositionAt(group, p / span / group.world, Owner(group, p), p % span)
  {
    var turn := p / group.interleave;
    Arith.Whole(p, group.interleave);
    Arith.Whole(turn, group.world);
    assert turn == turn / group.world * group.world + Owner(group, p);
  }

  lemma OwnerAt(group: Group, turn: nat, owner: nat, o: nat)
    requires Valid(group) && owner < group.world && o < group.interleave
    ensures var p := PositionAt(group, turn, owner, o);
            Owner(group, p) == owner && p / group.interleave / group.world == turn && p % group.interleave == o
  {
    Arith.Split(turn * group.world + owner, o, group.interleave);
    Arith.Split(turn, owner, group.world);
  }

  lemma LocalLenAt(group: Group, rank: nat, turn: nat, owner: nat, o: nat)
    requires Valid(group) && owner < group.world && o < group.interleave
    ensures LocalLen(group, rank, PositionAt(group, turn, owner, o)) == turn * group.interleave
        + Share(group.interleave, owner, o, rank)
  {
    var span := group.interleave;
    OwnerAt(group, turn, owner, o);
    var len := PositionAt(group, turn, owner, o);
    assert len - turn * span * group.world == owner * span + o by {
      assert (turn * group.world + owner) * span == turn * group.world * span + owner * span;
      assert turn * group.world * span == turn * span * group.world;
    }
    assert owner * span - rank * span == (owner - rank) * span;
    if owner < rank {
      Arith.MulLe(owner - rank, -1, span);
    } else if owner > rank {
      Arith.MulLe(1, owner - rank, span);
    }
  }

  /** One more position adds one exactly on its owner. */
  lemma LocalLenStep(group: Group, rank: nat, p: nat)
    requires Valid(group) && rank < group.world
    ensures LocalLen(group, rank, p + 1) == LocalLen(group, rank, p) + if Owner(group, p) == rank then 1 else 0
  {
    hide LocalLen, PositionAt, Owner;
    var span, world := group.interleave, group.world;
    var turn, owner, o := p / span / world, Owner(group, p), p % span;
    PositionParts(group, p);
    OwnerBound(group, p);
    LocalLenAt(group, rank, turn, owner, o);
    NextPosition(group, turn, owner, o);
    if o + 1 < span {
      LocalLenAt(group, rank, turn, owner, o + 1);
    } else if owner + 1 < world {
      LocalLenAt(group, rank, turn, owner + 1, 0);
    } else {
      LocalLenAt(group, rank, turn + 1, 0, 0);
      assert (turn + 1) * span == turn * span + span;
    }
  }

  lemma OwnerBound(group: Group, p: nat)
    requires Valid(group)
    ensures Owner(group, p) < group.world && p % group.interleave < group.interleave
  {}

  lemma NextPosition(group: Group, turn: nat, owner: nat, o: nat)
    requires Valid(group) && owner < group.world && o < group.interleave
    ensures PositionAt(group, turn, owner, o) + 1
      == if o + 1 < group.interleave then PositionAt(group, turn, owner, o + 1)
         else if owner + 1 < group.world then PositionAt(group, turn, owner + 1, 0)
         else PositionAt(group, turn + 1, 0, 0)
  {
    var span, world := group.interleave, group.world;
    assert (turn * world + owner + 1) * span == (turn * world + owner) * span + span;
    assert (turn + 1) * world == turn * world + world;
  }

  /** The closed form counts exactly the owned positions of the prefix. */
  lemma {:induction false} LocalLenCounts(group: Group, rank: nat, len: nat)
    requires Valid(group) && rank < group.world
    ensures LocalLen(group, rank, len) == Owned(group, rank, len)
  {
    hide LocalLen, Owner;
    if len == 0 {
      LocalLenAt(group, rank, 0, 0, 0);
      assert PositionAt(group, 0, 0, 0) == 0 && 0 * group.interleave == 0;
    } else {
      LocalLenCounts(group, rank, len - 1);
      LocalLenStep(group, rank, len - 1);
    }
  }

  /** The local lengths of the first ranks, added up. */
  function SumLocal(group: Group, ranks: nat, len: nat): nat
    requires Valid(group)
  {
    if ranks == 0 then 0 else SumLocal(group, ranks - 1, len) + LocalLen(group, ranks - 1, len)
  }

  lemma {:induction false} SumLocalStep(group: Group, ranks: nat, len: nat)
    requires Valid(group) && ranks <= group.world
    ensures SumLocal(group, ranks, len + 1) == SumLocal(group, ranks, len) + if Owner(group, len) < ranks then 1 else 0
  {
    hide LocalLen, Owner;
    if ranks > 0 {
      SumLocalStep(group, ranks - 1, len);
      LocalLenStep(group, ranks - 1, len);
    }
  }

  /** The local lengths of all ranks sum to the global length. */
  lemma {:induction false} LocalLensSum(group: Group, len: nat)
    requires Valid(group)
    ensures SumLocal(group, group.world, len) == len
  {
    hide LocalLen, Owner;
    if len == 0 {
      NothingLocal(group, group.world);
    } else {
      LocalLensSum(group, len - 1);
      SumLocalStep(group, group.world, len - 1);
      OwnerBound(group, len - 1);
    }
  }

  lemma {:induction false} NothingLocal(group: Group, ranks: nat)
    requires Valid(group) && ranks <= group.world
    ensures SumLocal(group, ranks, 0) == 0
  {
    hide LocalLen;
    if ranks > 0 {
      NothingLocal(group, ranks - 1);
      LocalLenCounts(group, ranks - 1, 0);
    }
  }

  lemma {:induction false} OwnedGrows(group: Group, rank: nat, a: nat, b: nat)
    requires Valid(group) && a <= b
    ensures Owned(group, rank, a) <= Owned(group, rank, b)
    decreases b
  {
    if a < b {
      OwnedGrows(group, rank, a, b - 1);
    }
  }

  // ---- Local and global token ids --------------------------------------------------------------------

  /** The token a rank keeps at local index j. */
  function GlobalId(group: Group, rank: nat, j: nat): nat
    requires Valid(group)
  {
    PositionAt(group, j / group.interleave, rank, j % group.interleave)
  }

  function LocalId(group: Group, p: nat): nat
    requires Valid(group)
  {
    var turns := p / group.interleave / group.world;
    Arith.MulLe(0, turns, group.interleave);
    turns * group.interleave + p % group.interleave
  }

  lemma GlobalIsOwned(group: Group, rank: nat, j: nat)
    requires Valid(group) && rank < group.world
    ensures Owner(group, GlobalId(group, rank, j)) == rank && LocalId(group, GlobalId(group, rank, j)) == j
    ensures LocalLen(group, rank, GlobalId(group, rank, j)) == j
  {
    var span := group.interleave;
    Arith.Whole(j, span);
    OwnerAt(group, j / span, rank, j % span);
    LocalLenAt(group, rank, j / span, rank, j % span);
  }

  lemma OwnedIsGlobal(group: Group, p: nat)
    requires Valid(group)
    ensures GlobalId(group, Owner(group, p), LocalId(group, p)) == p
  {
    PositionParts(group, p);
    Arith.Split(p / group.interleave / group.world, p % group.interleave, group.interleave);
  }

  /** The local indices below the local length are exactly the owned tokens of the prefix. */
  lemma LocalPrefix(group: Group, rank: nat, j: nat, len: nat)
    requires Valid(group) && rank < group.world
    ensures j < LocalLen(group, rank, len) <==> GlobalId(group, rank, j) < len
  {
    hide LocalLen, GlobalId, Owner, LocalId;
    var g := GlobalId(group, rank, j);
    GlobalIsOwned(group, rank, j);
    LocalLenCounts(group, rank, len);
    LocalLenCounts(group, rank, g);
    if g < len {
      OwnedGrows(group, rank, g + 1, len);
    } else {
      OwnedGrows(group, rank, len, g);
    }
  }

  /** Local and global ids order a shard alike, so they break ties alike. */
  lemma GlobalIdOrder(group: Group, rank: nat, i: nat, j: nat)
    requires Valid(group) && rank < group.world
    ensures i < j <==> GlobalId(group, rank, i) < GlobalId(group, rank, j)
  {
    GlobalIsOwned(group, rank, j);
    LocalPrefix(group, rank, i, GlobalId(group, rank, j));
  }
}
