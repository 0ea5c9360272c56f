/** Hyper-connection layers defer their post-mix into the next layer's fused kernel.  Cutting the
    layer list into pipeline stages, with the deferred mix materialised and shipped flat at every
    cut, computes what one rank computes, and what the unfused layers compute. */
module PipelineSplit {
  import opened Arith
  import opened Options

  type Tokens<E> = seq<seq<E>>         // [T, H]
  type Streams<E> = seq<seq<seq<E>>>   // [T, n, H]

  datatype PreOut<E, P, Q> = PreOut(post: P, comb: Q, y: Tokens<E>)
  datatype FusedOut<E, P, Q> = FusedOut(residual: Streams<E>, post: P, comb: Q, y: Tokens<E>)

  /** The operators of the model, each taking the layer it belongs to where it has weights. */
  datatype Ops<!E, !P, !Q> = Ops(
    expand: Tokens<E> -> Streams<E>,
    contract: Streams<E> -> Tokens<E>,
    attnPre: (nat, Streams<E>) -> PreOut<E, P, Q>,
    ffnPre: (nat, Streams<E>) -> PreOut<E, P, Q>,
    post: (Tokens<E>, Streams<E>, P, Q) -> Streams<E>,
    fusedAttn: (nat, Tokens<E>, Streams<E>, P, Q) -> FusedOut<E, P, Q>,
    fusedFfn: (nat, Tokens<E>, Streams<E>, P, Q) -> FusedOut<E, P, Q>,
    attn: (nat, Tokens<E>) -> Tokens<E>,
    mlp: (nat, Tokens<E>) -> Tokens<E>,
    plain: (nat, Tokens<E>) -> Tokens<E>,
    norm: Tokens<E> -> Tokens<E>)

  datatype Config = Config(mhc: bool, streams: nat, width: nat, layers: nat)

  predicate GoodConfig(c: Config) {
    c.streams > 0 && c.layers > 0
  }

  function HcMult(c: Config): nat {
    if c.mhc then c.streams else 1
  }

  ghost predicate Shaped<E>(c: Config, x: Streams<E>) {
    forall t | 0 <= t < |x| :: |x[t]| == c.streams && forall i | 0 <= i < c.streams :: |x[t][i]| == c.width
  }

  /** The fused kernel is the post-mix followed by the pre-mix; post and expand keep the shape. */
  ghost predicate Lawful<E(!new), P(!new), Q(!new)>(c: Config, o: Ops<E, P, Q>) {
    && (forall l: nat, y: Tokens<E>, r: Streams<E>, p: P, q: Q ::
          o.fusedAttn(l, y, r, p, q)
          == var s := o.post(y, r, p, q); var a := o.attnPre(l, s); FusedOut(s, a.post, a.comb, a.y))
    && (forall l: nat, y: Tokens<E>, r: Streams<E>, p: P, q: Q ::
          o.fusedFfn(l, y, r, p, q)
          == var s := o.post(y, r, p, q); var a := o.ffnPre(l, s); FusedOut(s, a.post, a.comb, a.y))
    && (forall y: Tokens<E>, r: Streams<E>, p: P, q: Q :: Shaped(c, o.post(y, r, p, q)))
  }

  // ---- Decoder layers ----------------------------------------------------------------------

  /** hidden_states is [T, H], or [T, n, H] right after a stage boundary. */
  datatype Hidden<E> = Tok(h: Tokens<E>) | Str(x: Streams<E>)

  datatype Carry<E, P, Q> = Carry(hidden: Hidden<E>, residual: Option<Streams<E>>, post: Option<P>, comb: Option<Q>)

  predicate LayerReady<E, P, Q>(c: Config, l: nat, k: Carry<E, P, Q>) {
    if !c.mhc then k.hidden.Tok?
    else if k.post.None? then (if l == 0 then k.hidden.Tok? else k.hidden.Str?)
    else k.hidden.Tok? && k.residual.Some? && k.comb.Some?
  }

  /** Glm5NextDecoderLayer.forward. */
  function LayerForward<E, P, Q>(c: Config, o: Ops<E, P, Q>, l: nat, k: Carry<E, P, Q>): Carry<E, P, Q>
    requires LayerReady(c, l, k)
  {
    if !c.mhc then Carry(Tok(o.plain(l, k.hidden.h)), None, None, None)
    else
      var f :=
        if k.post.None? then
          var x := if l == 0 then o.expand(k.hidden.h) else k.hidden.x;
          var a := o.attnPre(l, x);
          FusedOut(x, a.post, a.comb, a.y)
        else o.fusedAttn(l, k.hidden.h, k.residual.value, k.post.value, k.comb.value);
      var y := o.attn(l, f.y);
      var g := o.fusedFfn(l, y, f.residual, f.post, f.comb);
      var z := o.mlp(l, g.y);
      if l == c.layers - 1 then Carry(Tok(o.contract(o.post(z, g.residual, g.post, g.comb))), None, None, None)
      else Carry(Tok(z), Some(g.residual), Some(g.post), Some(g.comb))
  }

  /** The layers [from, to) of one stage. */
  function LayersForward<E, P, Q>(c: Config, o: Ops<E, P, Q>, from: nat, to: nat, k: Carry<E, P,
                                  Q>): (r: Option<Carry<E, P, Q>>)
    requires from <= to
    decreases if from <= to then to - from else 0
  {
    if from == to then Some(k)
    else if !LayerReady(c, from, k) then None
    else LayersForward(c, o, from + 1, to, LayerForward(c, o, from, k))
  }

  // ---- Stage boundary --------------------------------------------------------------------------

  /** What one rank sends the next: [T, n * H], [T, n, H] when n is 1, or [T, H] without mHC. */
  datatype Wire<E> = Flat(rows: Tokens<E>) | Unflat(hidden: Hidden<E>)

  function Concat<E>(parts: seq<seq<E>>): seq<E> {
    if parts == [] then [] else Concat(parts[..|parts| - 1]) + parts[|parts| - 1]
  }

  /** hidden_states.reshape(T, -1). */
  function Flatten<E>(x: Streams<E>): Tokens<E> {
    seq(|x|, t requires 0 <= t < |x| => Concat(x[t]))
  }

  /** hidden_states.view(T, n, -1): fails unless every row divides into n equal parts. */
  function Unflatten<E>(rows: Tokens<E>, n: nat): Option<Streams<E>>
    requires n > 0
  {
    if forall t | 0 <= t < |rows| :: |rows[t]| % n == 0
    then Some(seq(|rows|, t requires 0 <= t < |rows| && |rows[t]| % n == 0 => Parts(rows[t], n, |rows[t]| / n)))
    else None
  }

  function Parts<E>(row: seq<E>, n: nat, w: nat): seq<seq<E>>
    requires |row| == n * w
    decreases n
  {
    if n == 0 then []
    else
      CutPoint(n, w);
      Parts(row[..(n - 1) * w], n - 1, w) + [row[(n - 1) * w..]]
  }

  lemma CutPoint(n: nat, w: nat)
    requires n > 0
    ensures 0 <= (n - 1) * w == n * w - w
  {
    MulLe(0, n - 1, w);
  }

  /** Entering a stage; None when the wire does not fit the model. */
  function StageIn<E, P, Q>(c: Config, first: bool, w: Wire<E>): Option<Carry<E, P, Q>>
    requires GoodConfig(c)
  {
    if !first && HcMult(c) > 1 then
      if w.Unflat? then None
      else
        var x := Unflatten(w.rows, HcMult(c));
        if x.None? then None else Some(Carry(Str(x.value), None, None, None))
    else if w.Flat? then None
    else Some(Carry(w.hidden, None, None, None))
  }

  /** Leaving a non-last stage: materialise the deferred post-mix, then flatten. */
  function StageOut<E, P, Q>(c: Config, o: Ops<E, P, Q>, k: Carry<E, P, Q>): Option<Wire<E>>
    requires k.post.Some? ==> k.hidden.Tok? && k.residual.Some? && k.comb.Some?
  {
    var hidden := if k.post.Some? then Str(o.post(k.hidden.h, k.residual.value, k.post.value, k.comb.value))
        else k.hidden;
    if HcMult(c) > 1 then (if hidden.Str? then Some(Flat(Flatten(hidden.x))) else None)
    else Some(Unflat(hidden))
  }

  /** Glm5NextModel.forward on a rank holding the layers [from, to). */
  function StageForward<E, P, Q>(c: Config, o: Ops<E, P, Q>, from: nat, to: nat, w: Wire<E>): Option<Wire<E>>
    requires GoodConfig(c) && from < to <= c.layers
  {
    var k := StageIn<E, P, Q>(c, from == 0, w);
    if k.None? then None
    else
      var r := LayersForward(c, o, from, to, k.value);
      if r.None? || !(r.value.post.Some? ==> r.value.hidden.Tok? && r.value.residual.Some? && r.value.comb.Some?)
      then None
      else if to < c.layers then StageOut(c, o, r.value)
      else if r.value.hidden.Str? then None
      else Some(Unflat(Tok(o.norm(r.value.hidden.h))))
  }

  predicate NonEmpty(sizes: seq<nat>) {
    forall i | 0 <= i < |sizes| :: sizes[i] > 0
  }

  /** The stages one after the other; stage s holds the next sizes[s] layers. */
  function Pipeline<E, P, Q>(c: Config, o: Ops<E, P, Q>, from: nat, sizes: seq<nat>, w: Wire<E>): Option<Wire<E>>
    requires GoodConfig(c) && NonEmpty(sizes) && from + Sum(sizes) == c.layers
    decreases |sizes|
  {
    if sizes == [] then Some(w)
    else
      var next := StageForward(c, o, from, from + sizes[0], w);
      if next.None? then None else Pipeline(c, o, from + sizes[0], sizes[1..], next.value)
  }

  function Sum(s: seq<nat>): nat {
    if s == [] then 0 else s[0] + Sum(s[1..])
  }

  // ---- Reference: unfused layers on one rank ---------------------------------------------------

  function RefLayer<E, P, Q>(o: Ops<E, P, Q>, l: nat, x: Streams<E>): Streams<E> {
    var a := o.attnPre(l, x);
    var x1 := o.post(o.attn(l, a.y), x, a.post, a.comb);
    var f := o.ffnPre(l, x1);
    o.post(o.mlp(l, f.y), x1, f.post, f.comb)
  }

  function RefStreams<E, P, Q>(o: Ops<E, P, Q>, l: nat, h: Tokens<E>): Streams<E> {
    if l == 0 then o.expand(h) else RefLayer(o, l - 1, RefStreams(o, l - 1, h))
  }

  function RefPlain<E, P, Q>(o: Ops<E, P, Q>, l: nat, h: Tokens<E>): Tokens<E> {
    if l == 0 then h else o.plain(l - 1, RefPlain(o, l - 1, h))
  }

  function Reference<E, P, Q>(c: Config, o: Ops<E, P, Q>, h: Tokens<E>): Tokens<E> {
    o.norm(if c.mhc then o.contract(RefStreams(o, c.layers, h)) else RefPlain(o, c.layers, h))
  }

  // ---- Flatten and unflatten --------------------------------------------------------------------

  lemma {:induction false} PartsOfConcat<E>(parts: seq<seq<E>>, w: nat)
    requires forall i | 0 <= i < |parts| :: |parts[i]| == w
    ensures |Concat(parts)| == |parts| * w && Parts(Concat(parts), |parts|, w) == parts
  {
    var n, row := |parts|, Concat(parts);
    if n == 0 {
      assert parts == [];
    } else {
      var init, last := parts[..n - 1], parts[n - 1];
      PartsOfConcat(init, w);
      CutPoint(n, w);
      assert row == Concat(init) + last;
      assert |row| == n * w;
      assert row[..(n - 1) * w] == Concat(init) && row[(n - 1) * w..] == last;
      assert Parts(row, n, w) == Parts(row[..(n - 1) * w], n - 1, w) + [row[(n - 1) * w..]];
      assert parts == init + [last];
    }
  }

  lemma UnflattenFlatten<E>(c: Config, x: Streams<E>)
    requires GoodConfig(c) && Shaped(c, x)
    ensures Unflatten(Flatten(x), c.streams) == Some(x)
  {
    var rows := Flatten(x);
    forall t | 0 <= t < |rows|
      ensures |rows[t]| % c.streams == 0 && |rows[t]| / c.streams == c.width
          && Parts(rows[t], c.streams, c.width) == x[t]
    {
      PartsOfConcat(x[t], c.width);
      Split(c.width, 0, c.streams);
    }
    var back := Unflatten(rows, c.streams);
    assert back.Some?;
    assert back.value == x;
  }

  // ---- The deferred state represents the reference streams --------------------------------------

  ghost predicate Represents<E, P, Q>(c: Config, o: Ops<E, P, Q>, l: nat, h: Tokens<E>, k: Carry<E, P, Q>) {
    if !c.mhc then k == Carry(Tok(RefPlain(o, l, h)), None, None, None)
    else if l == 0 then k.hidden == Tok(h) && k.post.None?
    else if k.post.None? then k.hidden == Str(RefStreams(o, l, h))
    else
      && k.hidden.Tok? && k.residual.Some? && k.comb.Some?
      && o.post(k.hidden.h, k.residual.value, k.post.value, k.comb.value) == RefStreams(o, l, h)
  }

  lemma LayerStep<E(!new), P(!new), Q(!new)>(c: Config, o: Ops<E, P, Q>, l: nat, h: Tokens<E>, k: Carry<E, P, Q>)
    requires GoodConfig(c) && Lawful(c, o) && l < c.layers && Represents(c, o, l, h, k)
    ensures LayerReady(c, l, k)
    ensures l + 1 < c.layers || !c.mhc ==> Represents(c, o, l + 1, h, LayerForward(c, o, l, k))
    ensures c.mhc && l + 1 < c.layers ==> LayerForward(c, o, l, k).post.Some?
    ensures c.mhc && l + 1 == c.layers ==>
              LayerForward(c, o, l, k).hidden == Tok(o.contract(RefStreams(o, c.layers, h)))
    ensures c.mhc && l + 1 == c.layers ==> LayerForward(c, o, l, k).post.None?
  {}

  lemma {:induction false} LayersStep<E(!new), P(!new), Q(!new)>(c: Config, o: Ops<E, P, Q>, from: nat, to: nat,
          h: Tokens<E>, k: Carry<E, P, Q>)
    requires GoodConfig(c) && Lawful(c, o) && from < to <= c.layers && Represents(c, o, from, h, k)
    ensures LayersForward(c, o, from, to, k).Some?
    ensures to < c.layers || !c.mhc ==> Represents(c, o, to, h, LayersForward(c, o, from, to, k).value)
    ensures c.mhc && to < c.layers ==> LayersForward(c, o, from, to, k).value.post.Some?
    ensures c.mhc && to == c.layers ==> LayersForward(c, o, from, to, k).value.post.None?
    ensures c.mhc && to == c.layers ==>
              LayersForward(c, o, from, to, k).value.hidden == Tok(o.contract(RefStreams(o, to, h)))
    decreases if from <= to then to - from else 0
  {
    LayerStep(c, o, from, h, k);
    if from + 1 < to {
      LayersStep(c, o, from + 1, to, h, LayerForward(c, o, from, k));
    }
  }

  /** What travels between the stages that cut after l layers. */
  ghost function WireAt<E, P, Q>(c: Config, o: Ops<E, P, Q>, l: nat, h: Tokens<E>): Wire<E> {
    if l == 0 then Unflat(Tok(h))
    else if l == c.layers then Unflat(Tok(Reference(c, o, h)))
    else if !c.mhc then Unflat(Tok(RefPlain(o, l, h)))
    else if c.streams > 1 then Flat(Flatten(RefStreams(o, l, h)))
    else Unflat(Str(RefStreams(o, l, h)))
  }

  lemma StageStep<E(!new), P(!new), Q(!new)>(c: Config, o: Ops<E, P, Q>, from: nat, to: nat, h: Tokens<E>)
    requires GoodConfig(c) && Lawful(c, o) && from < to <= c.layers
    ensures StageForward(c, o, from, to, WireAt(c, o, from, h)) == Some(WireAt(c, o, to, h))
  {
    if c.mhc && from > 0 {
      assert Shaped(c, RefStreams(o, from, h));
      UnflattenFlatten(c, RefStreams(o, from, h));
    }
    var k := StageIn<E, P, Q>(c, from == 0, WireAt(c, o, from, h));
    assert k.Some? && Represents(c, o, from, h, k.value);
    LayersStep(c, o, from, to, h, k.value);
  }

  /** For every partition of the layers into non-empty stages the pipeline computes the reference. */
  lemma {:induction false} PipelineIsReference<E(!new), P(!new), Q(!new)>(c: Config, o: Ops<E, P, Q>, from: nat,
          sizes: seq<nat>, h: Tokens<E>)
    requires GoodConfig(c) && Lawful(c, o) && NonEmpty(sizes) && from + Sum(sizes) == c.layers
    ensures Pipeline(c, o, from, sizes, WireAt(c, o, from, h)) == Some(Unflat(Tok(Reference(c, o, h))))
    decreases |sizes|
  {
    if sizes != [] {
      StageStep(c, o, from, from + sizes[0], h);
      PipelineIsReference(c, o, from + sizes[0], sizes[1..], h);
    }
  }

  /** Any two partitions, in particular the unsplit fused model and any split, agree. */
  lemma SplitsAgree<E(!new), P(!new), Q(!new)>(c: Config, o: Ops<E, P, Q>, a: seq<nat>, b: seq<nat>, h: Tokens<E>)
    requires GoodConfig(c) && Lawful(c, o)
    requires NonEmpty(a) && Sum(a) == c.layers && NonEmpty(b) && Sum(b) == c.layers
    ensures Pipeline(c, o, 0, a, Unflat(Tok(h))) == Pipeline(c, o, 0, b, Unflat(Tok(h)))
    ensures Pipeline(c, o, 0, a, Unflat(Tok(h))) == Some(Unflat(Tok(Reference(c, o, h))))
  {
    PipelineIsReference(c, o, 0, a, h);
    PipelineIsReference(c, o, 0, b, h);
  }

  // ---- The model's loop over its layers ------------------------------------------------------------

  /** The loop of Glm5NextModel.forward over the rank's active layers. */
  method RunLayers<E, P, Q>(c: Config, o: Ops<E, P, Q>, from: nat, to: nat, start: Carry<E, P,
                            Q>) returns (r: Option<Carry<E, P, Q>>)
    requires from <= to
    ensures r == LayersForward(c, o, from, to, start)
  {
    var k := start;
    for l := from to to
      invariant LayersForward(c, o, from, to, start) == LayersForward(c, o, l, to, k)
    {
      if !LayerReady(c, l, k) {
        return None;
      }
      k := LayerForward(c, o, l, k);
    }
    r := Some(k);
  }
}
