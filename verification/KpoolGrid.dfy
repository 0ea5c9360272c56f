/** The decode kernel's programs, one per request, in any order. */
module KpoolGrid {
  import opened Arith
  import opened Kpool
  import opened KpoolRuns
  import opened KpoolDecode
  import KpoolSafety

  /** Two tokens touch different tail blocks and different cache slots, or one of them is padding. */
  predicate TokensApart<V>(kpool: nat, a: Verify<V>, b: Verify<V>)
    requires kpool > 0
  {
    a.pos >= 0 && b.pos >= 0 ==>
      TailBlock(kpool, a.tslot) != TailBlock(kpool, b.tslot) && (a.loc >= 0 ==> a.loc != b.loc)
  }

  ghost predicate RowsApart<V>(kpool: nat, xs: seq<Verify<V>>, ys: seq<Verify<V>>)
    requires kpool > 0
  {
    forall i, j | 0 <= i < |xs| && 0 <= j < |ys| :: TokensApart(kpool, xs[i], ys[j])
  }

  /** Entries of different tail blocks are different entries. */
  lemma EntriesApart(kpool: nat, x: int, y: int, i: nat, j: nat)
    requires kpool > 0 && x != y && i < kpool && j < kpool
    ensures x * kpool + i != y * kpool + j
  {
    Split(x, i, kpool);
    Split(y, j, kpool);
  }

  /** A token leaves the ring entries of other tail blocks alone. */
  lemma BlockKept<V, C>(c: Config<V, C>, s: Store<V, C>, a: Verify<V>, y: int, j: nat)
    requires c.kpool > 0 && TokenInRange(c.kpool, s, a) && j < c.kpool && 0 <= y * c.kpool + j < |s.tail|
    requires a.pos >= 0 ==> TailBlock(c.kpool, a.tslot) != y
    ensures DecodeToken(c, s, a).tail[y * c.kpool + j] == s.tail[y * c.kpool + j]
  {
    if a.pos >= 0 && a.tslot >= 0 {
      EntriesApart(c.kpool, TailBlock(c.kpool, a.tslot), y, a.pos % c.kpool, j);
    }
  }

  lemma EntryKept<V, C>(c: Config<V, C>, s: Store<V, C>, a: Verify<V>, b: Verify<V>, j: nat)
    requires c.kpool > 0 && TokenInRange(c.kpool, s, a) && TokenInRange(c.kpool, s, b) && TokensApart(c.kpool, a, b)
    requires b.pos >= 0 && j < c.kpool
    ensures |PoolRead(c.kpool, DecodeToken(c, s, a), b)| == |PoolRead(c.kpool, s, b)| == c.kpool
    ensures PoolRead(c.kpool, DecodeToken(c, s, a), b)[j] == PoolRead(c.kpool, s, b)[j]
  {
    hide DecodeToken, TailBlock;
    var start := b.pos - b.pos % c.kpool;
    BlockKept(c, s, a, TailBlock(c.kpool, b.tslot), (start + j) % c.kpool);
  }

  /** So another token completes the same pool before and after it. */
  lemma PoolKept<V, C>(c: Config<V, C>, s: Store<V, C>, a: Verify<V>, b: Verify<V>)
    requires c.kpool > 0 && TokenInRange(c.kpool, s, a) && TokenInRange(c.kpool, s, b) && TokensApart(c.kpool, a, b)
    requires b.pos >= 0
    ensures PoolRead(c.kpool, DecodeToken(c, s, a), b) == PoolRead(c.kpool, s, b)
  {
    hide DecodeToken, TailBlock, PoolRead, TokensApart;
    var p, q := PoolRead(c.kpool, DecodeToken(c, s, a), b), PoolRead(c.kpool, s, b);
    EntryKept(c, s, a, b, 0);
    forall j | 0 <= j < c.kpool
      ensures p[j] == q[j]
    {
      EntryKept(c, s, a, b, j);
    }
  }

  lemma TokensCommute<V, C>(c: Config<V, C>, s: Store<V, C>, a: Verify<V>, b: Verify<V>)
    requires c.kpool > 0 && TokenInRange(c.kpool, s, a) && TokenInRange(c.kpool, s, b)
    requires TokensApart(c.kpool, a, b) && TokensApart(c.kpool, b, a)
    ensures DecodeToken(c, DecodeToken(c, s, a), b) == DecodeToken(c, DecodeToken(c, s, b), a)
  {
    hide PoolRead, TailBlock;
    if a.pos >= 0 && b.pos >= 0 {
      PoolKept(c, s, a, b);
      PoolKept(c, s, b, a);
      EntriesApart(c.kpool, TailBlock(c.kpool, a.tslot), TailBlock(c.kpool, b.tslot), a.pos % c.kpool, b.pos % c.kpool);
    }
  }

  lemma {:induction false} TokenPastRow<V, C>(c: Config<V, C>, s: Store<V, C>, a: Verify<V>, row: seq<Verify<V>>)
    requires c.kpool > 0 && TokenInRange(c.kpool, s, a) && RowInRange(c.kpool, s, row)
    requires RowsApart(c.kpool, [a], row) && RowsApart(c.kpool, row, [a])
    ensures DecodeRow(c, DecodeToken(c, s, a), row) == DecodeToken(c, DecodeRow(c, s, row), a)
    decreases |row|
  {
    hide DecodeToken, TokensApart, TailBlock;
    if row != [] {
      var n := |row| - 1;
      TokenPastRow(c, s, a, row[..n]);
      assert TokensApart(c.kpool, [a][0], row[n]) && TokensApart(c.kpool, row[n], [a][0]);
      TokensCommute(c, DecodeRow(c, s, row[..n]), a, row[n]);
    }
  }

  /** Rows of different requests commute. */
  lemma {:induction false} RowsCommute<V, C>(c: Config<V, C>, s: Store<V, C>, xs: seq<Verify<V>>, ys: seq<Verify<V>>)
    requires c.kpool > 0 && RowInRange(c.kpool, s, xs) && RowInRange(c.kpool, s, ys)
    requires RowsApart(c.kpool, xs, ys) && RowsApart(c.kpool, ys, xs)
    ensures DecodeRow(c, DecodeRow(c, s, xs), ys) == DecodeRow(c, DecodeRow(c, s, ys), xs)
    decreases |ys|
  {
    hide DecodeToken, TokensApart, TailBlock;
    if ys != [] {
      var n := |ys| - 1;
      RowsCommute(c, s, xs, ys[..n]);
      TokenPastRow(c, DecodeRow(c, s, ys[..n]), ys[n], xs);
    }
  }

  ghost predicate AllApart<V>(kpool: nat, rows: seq<seq<Verify<V>>>)
    requires kpool > 0
  {
    forall a, b | 0 <= a < |rows| && 0 <= b < |rows| && a != b :: RowsApart(kpool, rows[a], rows[b])
  }

  /** A row that is apart from those after it can run last. */
  lemma {:induction false} RunsLast<V, C>(c: Config<V, C>, s: Store<V, C>, xs: seq<seq<Verify<V>>>, r: seq<Verify<V>>,
          ys: seq<seq<Verify<V>>>)
    requires c.kpool > 0 && RowsInRange(c.kpool, s, xs + [r] + ys) && RowsInRange(c.kpool, s, xs + ys + [r])
    requires forall i | 0 <= i < |ys| :: RowsApart(c.kpool, r, ys[i]) && RowsApart(c.kpool, ys[i], r)
    ensures DecodeRows(c, s, xs + [r] + ys) == DecodeRows(c, s, xs + ys + [r])
    decreases |ys|
  {
    hide DecodeRow, RowsApart, RowInRange;
    if ys == [] {
      assert xs + [r] + ys == xs + ys + [r];
    } else {
      var n := |ys| - 1;
      var init, y := ys[..n], ys[n];
      assert ys == init + [y];
      var before := xs + init;
      Prefixes(c, s, xs, r, init, y);
      assert (xs + [r] + ys)[..|xs + [r] + ys| - 1] == xs + [r] + init;
      assert (before + [r])[..|before|] == before;
      RunsLast(c, s, xs, r, init);
      RangeKept(c.kpool, s, DecodeRows(c, s, before), r);
      RangeKept(c.kpool, s, DecodeRows(c, s, before), y);
      RowsCommute(c, DecodeRows(c, s, before), r, y);
      assert xs + ys + [r] == before + [y] + [r];
      assert (before + [y] + [r])[..|before| + 1] == before + [y];
      assert (before + [y])[..|before|] == before;
    }
  }

  lemma RangeKept<V, C>(kpool: nat, s: Store<V, C>, t: Store<V, C>, row: seq<Verify<V>>)
    requires kpool > 0 && RowInRange(kpool, s, row) && |t.cache| == |s.cache| && |t.tail| == |s.tail|
    ensures RowInRange(kpool, t, row)
  {}

  lemma Prefixes<V, C>(c: Config<V, C>, s: Store<V, C>, xs: seq<seq<Verify<V>>>, r: seq<Verify<V>>,
                       init: seq<seq<Verify<V>>>, y: seq<Verify<V>>)
    requires c.kpool > 0 && RowsInRange(c.kpool, s, xs + [r] + (init + [y]))
    ensures RowsInRange(c.kpool, s, xs + [r] + init) && RowsInRange(c.kpool, s, xs + init + [r])
    ensures RowsInRange(c.kpool, s, xs + init) && RowInRange(c.kpool, s, r) && RowInRange(c.kpool, s, y)
    ensures RowsInRange(c.kpool, s, xs + init + [y])
  {
    hide RowInRange;
    var all := xs + [r] + (init + [y]);
    assert all[|xs|] == r && all[|all| - 1] == y;
    assert forall i | 0 <= i < |xs| :: all[i] == xs[i];
    assert forall i | 0 <= i < |init| :: all[|xs| + 1 + i] == init[i];
  }

  // ---- Orders of the grid --------------------------------------------------------------------

  /** The numbers below n, each once. */
  ghost predicate Enumerates(order: seq<nat>, n: nat) {
    && |order| == n && (forall k, l | 0 <= k < l < |order| :: order[k] != order[l])
    && forall x: nat :: x in order <==> x < n
  }

  ghost predicate InRange(order: seq<nat>, n: nat) {
    forall k | 0 <= k < |order| :: order[k] < n
  }

  ghost function Picked<T>(rows: seq<T>, order: seq<nat>): (r: seq<T>)
    requires InRange(order, |rows|)
    ensures |r| == |order| && forall k | 0 <= k < |r| :: r[k] == rows[order[k]]
  {
    seq(|order|, k requires 0 <= k < |order| => rows[order[k]])
  }

  /** Without its greatest number an enumeration enumerates the others. */
  lemma Shorter(order: seq<nat>, n: nat, p: nat)
    requires Enumerates(order, n + 1) && p < |order| && order[p] == n
    ensures Enumerates(order[..p] + order[p + 1..], n)
  {
    var rest := order[..p] + order[p + 1..];
    assert forall k | 0 <= k < |rest| :: rest[k] == order[if k < p then k else k + 1];
    forall x: nat
      ensures x in rest <==> x < n
    {
      if x < n {
        assert x in order;
        var k :| 0 <= k < |order| && order[k] == x;
        assert rest[if k < p then k else k - 1] == x;
      }
      if x in rest {
        var k :| 0 <= k < |rest| && rest[k] == x;
        assert order[if k < p then k else k + 1] in order;
      }
    }
  }

  lemma EnumerationInRange(order: seq<nat>, n: nat)
    requires Enumerates(order, n)
    ensures InRange(order, n)
  {
    forall k | 0 <= k < |order|
      ensures order[k] < n
    {
      assert order[k] in order;
    }
  }

  lemma PickedJoins<V>(rows: seq<seq<Verify<V>>>, a: seq<nat>, b: seq<nat>)
    requires InRange(a, |rows|) && InRange(b, |rows|)
    ensures InRange(a + b, |rows|) && Picked(rows, a + b) == Picked(rows, a) + Picked(rows, b)
  {}

  /** Picking all rows but the last, and all of them, when the last one runs between a and b. */
  lemma PickedAround<V>(rows: seq<seq<Verify<V>>>, a: seq<nat>, b: seq<nat>)
    requires rows != [] && InRange(a, |rows| - 1) && InRange(b, |rows| - 1)
    ensures InRange(a, |rows|) && InRange(b, |rows|) && InRange(a + b, |rows| - 1)
    ensures var n := |rows| - 1;
            && InRange(a + [n] + b, |rows|)
            && Picked(rows, a + [n] + b) == Picked(rows, a) + [rows[n]] + Picked(rows, b)
            && Picked(rows[..n], a + b) == Picked(rows, a) + Picked(rows, b)
  {
    var n := |rows| - 1;
    assert Picked(rows, [n]) == [rows[n]];
    PickedJoins(rows, a, [n]);
    PickedJoins(rows, a + [n], b);
    PickedJoins(rows[..n], a, b);
    assert Picked(rows[..n], a) == Picked(rows, a) && Picked(rows[..n], b) == Picked(rows, b);
  }

  lemma RangeParts(a: seq<nat>, b: seq<nat>, n: nat)
    requires InRange(a + b, n)
    ensures InRange(a, n) && InRange(b, n)
  {
    forall k | 0 <= k < |a|
      ensures a[k] < n
    {
      assert (a + b)[k] == a[k];
    }
    forall k | 0 <= k < |b|
      ensures b[k] < n
    {
      assert (a + b)[|a| + k] == b[k];
    }
  }

  lemma PickedInRange<V, C>(kpool: nat, s: Store<V, C>, rows: seq<seq<Verify<V>>>, order: seq<nat>)
    requires kpool > 0 && RowsInRange(kpool, s, rows) && InRange(order, |rows|)
    ensures RowsInRange(kpool, s, Picked(rows, order))
  {
    hide RowInRange;
  }

  lemma PickedApart<V>(kpool: nat, rows: seq<seq<Verify<V>>>, order: seq<nat>, m: nat)
    requires kpool > 0 && AllApart(kpool, rows) && InRange(order, |rows|) && m < |rows|
    requires forall k | 0 <= k < |order| :: order[k] != m
    ensures var ys := Picked(rows, order);
            forall i | 0 <= i < |ys| :: RowsApart(kpool, rows[m], ys[i]) && RowsApart(kpool, ys[i], rows[m])
  {
    hide RowsApart;
  }

  /** Every order of the programs of a launch leaves the same store. */
  lemma {:induction false} DecodeAnyOrder<V, C>(c: Config<V, C>, s: Store<V, C>, rows: seq<seq<Verify<V>>>,
          order: seq<nat>)
    requires c.kpool > 0 && RowsInRange(c.kpool, s, rows) && AllApart(c.kpool, rows) && Enumerates(order, |rows|)
    ensures InRange(order, |rows|) && RowsInRange(c.kpool, s, Picked(rows, order))
    ensures DecodeRows(c, s, Picked(rows, order)) == DecodeRows(c, s, rows)
    decreases |rows|
  {
    hide RowsApart, RowInRange, DecodeRow, DecodeRows, InRange, RowsInRange, AllApart, Enumerates;
    EnumerationInRange(order, |rows|);
    PickedInRange(c.kpool, s, rows, order);
    if rows == [] {
      Nothing(order);
      assert Picked(rows, order) == rows;
    } else {
      var n := |rows| - 1;
      var p := PlaceOf(order, |rows|, n);
      var before, after := order[..p], order[p + 1..];
      var rest := before + after;
      assert order == before + [n] + after;
      Shorter(order, n, p);
      EnumerationInRange(rest, n);
      RangeParts(before, after, n);
      PickedAround(rows, before, after);
      InitApart(c.kpool, s, rows);
      DecodeAnyOrder(c, s, rows[..n], rest);
      var xs, ys := Picked(rows, before), Picked(rows, after);
      assert rows[..n] + [rows[n]] == rows;
      PickedApart(c.kpool, rows, after, n);
      LastInRange(c.kpool, s, rows, xs + ys);
      RunsLast(c, s, xs, rows[n], ys);
      RowsEnd(c, s, xs + ys, rows[n]);
      RowsEnd(c, s, rows[..n], rows[n]);
    }
  }

  lemma Nothing(order: seq<nat>)
    requires Enumerates(order, 0)
    ensures order == []
  {}

  lemma PlaceOf(order: seq<nat>, n: nat, x: nat) returns (p: nat)
    requires Enumerates(order, n) && x < n
    ensures p < |order| && order[p] == x && |order| == n
    ensures forall k | 0 <= k < |order| && k != p :: order[k] != x
  {
    assert x in order;
    p :| 0 <= p < |order| && order[p] == x;
  }

  lemma RowsEnd<V, C>(c: Config<V, C>, s: Store<V, C>, init: seq<seq<Verify<V>>>, r: seq<Verify<V>>)
    requires c.kpool > 0 && RowsInRange(c.kpool, s, init + [r])
    ensures RowsInRange(c.kpool, s, init) && RowInRange(c.kpool, DecodeRows(c, s, init), r)
    ensures DecodeRows(c, s, init + [r]) == DecodeRow(c, DecodeRows(c, s, init), r)
  {
    hide RowInRange, DecodeRow;
    var all := init + [r];
    assert all[..|all| - 1] == init && all[|init|] == r;
    assert forall k | 0 <= k < |init| :: all[k] == init[k];
    RangeKept(c.kpool, s, DecodeRows(c, s, init), r);
  }

  lemma InitApart<V, C>(kpool: nat, s: Store<V, C>, rows: seq<seq<Verify<V>>>)
    requires kpool > 0 && rows != [] && AllApart(kpool, rows) && RowsInRange(kpool, s, rows)
    ensures AllApart(kpool, rows[..|rows| - 1]) && RowsInRange(kpool, s, rows[..|rows| - 1])
  {
    hide RowsApart, RowInRange;
  }

  lemma LastInRange<V, C>(kpool: nat, s: Store<V, C>, rows: seq<seq<Verify<V>>>, init: seq<seq<Verify<V>>>)
    requires kpool > 0 && rows != [] && RowsInRange(kpool, s, rows) && RowsInRange(kpool, s, init)
    ensures RowsInRange(kpool, s, init + [rows[|rows| - 1]])
  {
    hide RowInRange;
  }

  // ---- The rows of a launch ------------------------------------------------------------------------

  /** A request's program: its verify tokens, padded to the width of the launch. */
  function ProgramRow<V>(kpool: nat, r: Req<V>, toks: seq<V>, pads: nat, pad: V): seq<Verify<V>>
    requires kpool > 0
  {
    VerifyRow(kpool, r, toks) + seq(pads, _ => Verify(-1, -1, -1, pad))
  }

  /** Live requests are apart, so their programs are. */
  lemma ProgramsApart<V>(kpool: nat, r: Req<V>, toks: seq<V>, q: Req<V>, more: seq<V>, m: nat, n: nat, pad: V)
    requires kpool > 0 && KpoolSafety.Apart(kpool, r, q)
    ensures RowsApart(kpool, ProgramRow(kpool, r, toks, m, pad), ProgramRow(kpool, q, more, n, pad))
  {
    hide TailSlot, PoolSlot, TailBlock;
    var xs, ys := ProgramRow(kpool, r, toks, m, pad), ProgramRow(kpool, q, more, n, pad);
    forall i, j | 0 <= i < |xs| && 0 <= j < |ys|
      ensures TokensApart(kpool, xs[i], ys[j])
    {
      if i < |toks| && j < |more| {
        TailBlockOwn(kpool, r.own, |r.hist| + i);
        TailBlockOwn(kpool, q.own, |q.hist| + j);
        SlotsApart(kpool, r, q, |r.hist| + i, |q.hist| + j);
      }
    }
  }

  lemma SlotsApart<V>(kpool: nat, r: Req<V>, q: Req<V>, i: nat, j: nat)
    requires kpool > 0 && KpoolSafety.Apart(kpool, r, q) && |r.hist| <= i
    ensures PoolSlot(kpool, r.locs, i) >= 0 ==> PoolSlot(kpool, r.locs, i) != PoolSlot(kpool, q.locs, j)
  {
    DivMono(|r.hist|, i, kpool);
    if PoolSlot(kpool, q.locs, j) >= 0 {
      assert OutsidePools(kpool, r, q.locs[j / kpool]);
    }
  }

  lemma ProgramFits<V, C>(kpool: nat, s: Store<V, C>, r: Req<V>, toks: seq<V>, pads: nat, pad: V)
    requires kpool > 0 && Fits(kpool, s, r, |toks|)
    ensures RowInRange(kpool, s, ProgramRow(kpool, r, toks, pads, pad))
  {
    var row := ProgramRow(kpool, r, toks, pads, pad);
    RowFits(kpool, s, r, toks);
    MulLe(0, r.own, kpool);
    forall t | 0 <= t < |row|
      ensures TokenInRange(kpool, s, row[t])
    {
      if t >= |toks| {
        PadInRange(kpool, s, row[t]);
      }
    }
  }

  lemma PadInRange<V, C>(kpool: nat, s: Store<V, C>, t: Verify<V>)
    requires kpool > 0 && kpool <= |s.tail| && t.loc == -1 && t.tslot == -1
    ensures TokenInRange(kpool, s, t)
  {
    DivUnique(0, kpool, 0);
  }

  ghost predicate EachFits<V, C>(kpool: nat, s: Store<V, C>, reqs: seq<Req<V>>, toks: seq<seq<V>>)
    requires kpool > 0
  {
    |toks| == |reqs| && forall b | 0 <= b < |reqs| :: Fits(kpool, s, reqs[b], |toks[b]|)
  }

  lemma FitsKept<V, C>(kpool: nat, s: Store<V, C>, t: Store<V, C>, r: Req<V>, m: nat)
    requires kpool > 0 && Fits(kpool, s, r, m) && |t.cache| == |s.cache| && |t.tail| == |s.tail|
    ensures Fits(kpool, t, r, m)
  {}

  /** The first n requests' verify rows, one after the other. */
  ghost function DecodeEach<V, C>(c: Config<V, C>, s: Store<V, C>, reqs: seq<Req<V>>, toks: seq<seq<V>>, n: nat):
    (t: Store<V, C>)
    requires c.kpool > 0 && EachFits(c.kpool, s, reqs, toks) && n <= |reqs|
    ensures |t.cache| == |s.cache| && |t.tail| == |s.tail|
  {
    if n == 0 then s
    else
      var before := DecodeEach(c, s, reqs, toks, n - 1);
      FitsKept(c.kpool, s, before, reqs[n - 1], |toks[n - 1]|);
      DecodeReq(c, before, reqs[n - 1], toks[n - 1])
  }

  /** The launch over the padded grid does what the requests' rows do one by one. */
  lemma {:induction false} DecodeLaunchIsEach<V, C>(c: Config<V, C>, s: Store<V, C>, reqs: seq<Req<V>>,
          toks: seq<seq<V>>, pads: seq<nat>, pad: V, rows: seq<seq<Verify<V>>>, n: nat)
    requires c.kpool > 0 && EachFits(c.kpool, s, reqs, toks) && |rows| == |pads| == |reqs| && n <= |reqs|
    requires forall b | 0 <= b < |rows| :: rows[b] == ProgramRow(c.kpool, reqs[b], toks[b], pads[b], pad)
    ensures RowsInRange(c.kpool, s, rows[..n]) && DecodeRows(c, s, rows[..n]) == DecodeEach(c, s, reqs, toks, n)
  {
    hide Fits, RowInRange, DecodeRow, VerifyRow;
    if n > 0 {
      DecodeLaunchIsEach(c, s, reqs, toks, pads, pad, rows, n - 1);
      var before := DecodeEach(c, s, reqs, toks, n - 1);
      assert rows[..n][..n - 1] == rows[..n - 1];
      FitsKept(c.kpool, s, before, reqs[n - 1], |toks[n - 1]|);
      ProgramFits(c.kpool, s, reqs[n - 1], toks[n - 1], pads[n - 1], pad);
      ProgramFits(c.kpool, before, reqs[n - 1], toks[n - 1], pads[n - 1], pad);
      PaddingHarmless(c, before, VerifyRow(c.kpool, reqs[n - 1], toks[n - 1]), pad, pads[n - 1]);
    }
  }

  /** One decode launch over live requests: any order of its programs, padded rows included, gives the store
      that the requests' rows give one after the other. */
  lemma LaunchAnyOrder<V, C>(c: Config<V, C>, st: KpoolSafety.State<V, C>, ids: seq<nat>, toks: seq<seq<V>>, width: nat,
                             pad: V, rows: seq<seq<Verify<V>>>, order: seq<nat>)
    requires KpoolSafety.Inv(c, st) && |toks| == |ids| == |rows| && (forall id <- ids :: id in st.reqs)
    requires forall a, b | 0 <= a < b < |ids| :: ids[a] != ids[b]
    requires forall b | 0 <= b < |ids| :: |toks[b]| <= width && Fits(c.kpool, st.store, st.reqs[ids[b]], |toks[b]|)
               && rows[b] == ProgramRow(c.kpool, st.reqs[ids[b]], toks[b], width - |toks[b]|, pad)
    requires Enumerates(order, |rows|)
    ensures RowsInRange(c.kpool, st.store, rows) && InRange(order, |rows|)
    ensures RowsInRange(c.kpool, st.store, Picked(rows, order))
    ensures DecodeRows(c, st.store, Picked(rows, order)) == DecodeRows(c, st.store, rows)
  {
    hide KpoolSafety.ReqOk, KpoolSafety.KeptOk, KpoolSafety.Apart, RowsApart, ProgramRow, Fits, RowInRange, Enumerates;
    forall b | 0 <= b < |rows|
      ensures RowInRange(c.kpool, st.store, rows[b])
    {
      ProgramFits(c.kpool, st.store, st.reqs[ids[b]], toks[b], width - |toks[b]|, pad);
    }
    forall a, b | 0 <= a < |rows| && 0 <= b < |rows| && a != b
      ensures RowsApart(c.kpool, rows[a], rows[b])
    {
      assert ids[a] in ids && ids[b] in ids;
      assert KpoolSafety.Apart(c.kpool, st.reqs[ids[a]], st.reqs[ids[b]]);
      ProgramsApart(c.kpool, st.reqs[ids[a]], toks[a], st.reqs[ids[b]], toks[b], width - |toks[a]|,
                    width - |toks[b]|, pad);
    }
    DecodeAnyOrder(c, st.store, rows, order);
  }
}
