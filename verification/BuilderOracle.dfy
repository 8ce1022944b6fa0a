/**
 Runs of any length against the flat oracle: whatever the operations, in whatever
 order and on whichever builders, and however the buffers share storage with the
 builders and with each other, everything alive presents exactly the bytes the
 oracle says, and nothing is refused without grounds.
 */
module BuilderOracle {
  import opened Units
  import opened Fragments
  import opened OpenTail
  import opened BufferBuilder
  import opened BuilderScene
  import opened BuilderWorld
  import opened BuilderRuns

  /** Everything the world's operations may change. */
  ghost predicate Owns(b: World, mine: set<object>)
    reads b.builders
  {
    && (forall j :: 0 <= j < |b.builders| ==>
          b.builders[j].open.Ok() && b.builders[j] in mine && b.builders[j].open.SpareArray() <= mine)
    && (forall k :: 0 <= k < |b.pool| ==> b.pool[k] in mine)
  }

  datatype Realm = Realm(b: World, mine: set<object>)

  /** A step of one builder can write no more, but for new storage. */
  twostate lemma BuilderOwned(m: Realm, new i: nat)
    requires i < |m.b.builders| && old(Owns(m.b, m.mine)) && m.b.builders[i].open.Ok()
    requires SpareFrom(old(m.b.builders[i].open), m.b.builders[i].open)
    requires forall j :: 0 <= j < |m.b.builders| && j != i ==> unchanged(m.b.builders[j])
    ensures var ours := m.mine + m.b.builders[i].open.SpareArray();
      Owns(m.b, ours) && fresh(ours - m.mine)
  {
  }

  /** A new buffer is the only new thing. */
  twostate lemma BufferOwned(m: Realm, new c: World)
    requires old(Owns(m.b, m.mine)) && Extends(m.b, c)
    requires forall j :: 0 <= j < |m.b.builders| ==>
               var x := m.b.builders[j]; x.Valid() && (x.open == old(x.open) || x.open == NOTHING)
    ensures var ours := m.mine + set x | x in c.pool;
      Owns(c, ours) && fresh(ours - m.mine)
  {
    forall k | 0 <= k < |c.pool| ensures c.pool[k] in m.mine || fresh(c.pool[k]) {
      assert k < |m.b.pool| ==> c.pool[..|m.b.pool|][k] == c.pool[k];
    }
  }

  // ----- builders -----

  lemma ReachNothing(builders: seq<Builder>, x: Builder, ws: seq<Fragment>)
    requires OutOfReach(builders, ws) && x.Valid() && x.open == NOTHING
    ensures OutOfReach(builders + [x], ws)
  {
  }

  lemma OneMoreBuilder(b: World, w: Scene, x: Builder)
    requires Agrees(b, w) && x.Valid() && x.open == NOTHING && !x.finished && x !in b.builders
    ensures Agrees(b.(builders := b.builders + [x]),
                   w.(builders := w.builders + [BuilderView(x.config, NOTHING, false, [])]))
  {
    var more := b.builders + [x];
    forall j | 0 <= j < |b.builders| ensures BuilderAgrees(more, j, w.builders[j]) {
      assert BuilderAgrees(b.builders, j, w.builders[j]);
      ReachNothing(b.builders, x, w.builders[j].open.Shown());
    }
    forall k | 0 <= k < |b.pool| ensures BufferAgrees(more, b.pool[k], w.pool[k]) {
      assert BufferAgrees(b.builders, b.pool[k], w.pool[k]);
      ReachNothing(b.builders, x, w.pool[k].fragments);
    }
    NothingShaped(x.config);
    assert Presented(more, [], []);
  }

  method DoNewBuilder(b: World, config: Config, ghost w: Scene, ghost mine: set<object>)
    returns (out: Outcome, c: World, ghost v: Scene, ghost ours: set<object>)
    requires Agrees(b, w) && Owns(b, mine)
    ensures Agrees(c, v) && Next(w, NewBuilder(config), out, v)
    ensures Owns(c, ours) && fresh(ours - mine)
  {
    AgreesSane(b, w);
    if !config.Valid() {
      return Refused, b, w, mine;
    }
    var x := new Builder(config);
    NothingTouched(Moment(b, w, []));
    OneMoreBuilder(b, w, x);
    c := b.(builders := b.builders + [x]);
    v := w.(builders := w.builders + [BuilderView(config, NOTHING, false, [])]);
    out, ours := Done, mine + {x};
    AgreesSane(c, v);
  }

  // ----- any operation -----

  /** An operation on a builder there is, and perhaps on a buffer there is. */
  predicate Reaches(b: World, op: Op) {
    && (op.Append? || op.AppendCopy? || op.Reserve? || op.GiveBuffer? || op.GiveFragments?)
    && op.i < |b.builders| && (op.GiveBuffer? || op.GiveFragments? ==> op.k < |b.pool|)
  }

  method OnBuilder(b: World, op: Op, ghost w: Scene) returns (out: Outcome, ghost v: Scene)
    requires Agrees(b, w) && Reaches(b, op)
    modifies b.builders[op.i], b.pool, b.builders[op.i].open.SpareArray()
    ensures Agrees(b, v) && Next(w, op, out, v)
    ensures b.builders[op.i].open.Ok() && SpareFrom(old(b.builders[op.i].open), b.builders[op.i].open)
  {
    match op {
      case Append(i, bytes) => out, v := OnAppend(b, i, bytes, w);
      case AppendCopy(i, bytes) => out, v := OnAppendCopy(b, i, bytes, w);
      case Reserve(i, room) => out, v := OnReserve(b, i, room, w);
      case GiveBuffer(i, k) => out, v := OnGiveBuffer(b, i, k, w);
      case GiveFragments(i, k, count) => out, v := OnGiveFragments(b, i, k, count, w);
    }
  }

  method DoBuilder(b: World, op: Op, ghost w: Scene, ghost mine: set<object>)
    returns (out: Outcome, ghost v: Scene, ghost ours: set<object>)
    requires Agrees(b, w) && Owns(b, mine) && Reaches(b, op)
    modifies mine
    ensures Agrees(b, v) && Next(w, op, out, v)
    ensures Owns(b, ours) && fresh(ours - mine)
  {
    out, v := OnBuilder(b, op, w);
    BuilderOwned(Realm(b, mine), op.i);
    ours := mine + b.builders[op.i].open.SpareArray();
  }

  /** An operation that makes a buffer of what there is. */
  method OnBuffer(b: World, op: Op, ghost w: Scene) returns (out: Outcome, c: World, ghost v: Scene)
    requires Agrees(b, w) && (op.NewBuffer? || op.CopyBuffer? || op.SliceBuffer? || op.Share?)
    ensures Agrees(c, v) && Next(w, op, out, v) && Extends(b, c)
  {
    AgreesSane(b, w);
    out, c, v := Refused, b, w;
    match op {
      case NewBuffer(bytes) => out, c, v := OnNewBuffer(b, bytes, w);
      case CopyBuffer(k) =>
        if k < |b.pool| {
          out, c, v := OnCopyBuffer(b, k, w);
        }
      case SliceBuffer(k, offset, length) =>
        if k < |b.pool| && Fits(offset) && Fits(length) {
          out, c, v := OnSlice(b, k, offset, length, w);
        }
      case Share(i, offset, length) =>
        if i < |b.builders| && Fits(offset) && Fits(length) {
          out, c, v := OnShare(b, i, offset, length, w);
        }
    }
  }

  method DoBuffer(b: World, op: Op, ghost w: Scene, ghost mine: set<object>)
    returns (out: Outcome, c: World, ghost v: Scene, ghost ours: set<object>)
    requires Agrees(b, w) && Owns(b, mine)
    requires op.NewBuffer? || op.CopyBuffer? || op.SliceBuffer? || op.Share?
    ensures Agrees(c, v) && Next(w, op, out, v)
    ensures Owns(c, ours) && fresh(ours - mine)
  {
    out, c, v := OnBuffer(b, op, w);
    BufferOwned(Realm(b, mine), c);
    ours := mine + set x | x in c.pool;
  }

  method DoTrim(b: World, op: Op, ghost w: Scene, ghost mine: set<object>) returns (out: Outcome, ghost v: Scene)
    requires Agrees(b, w) && Owns(b, mine) && op.TrimBuffer?
    modifies mine
    ensures Agrees(b, v) && Next(w, op, out, v) && Owns(b, mine)
  {
    AgreesSane(b, w);
    out, v := Refused, w;
    if op.k < |b.pool| {
      out, v := OnTrim(b, op.k, op.front, op.n, w);
    }
  }

  method DoFinish(b: World, op: Op, ghost w: Scene, ghost mine: set<object>)
    returns (out: Outcome, c: World, ghost v: Scene, ghost ours: set<object>)
    requires Agrees(b, w) && Owns(b, mine) && op.Finish?
    modifies mine
    ensures Agrees(c, v) && Next(w, op, out, v)
    ensures Owns(c, ours) && fresh(ours - mine)
  {
    AgreesSane(b, w);
    out, c, v := Refused, b, w;
    if op.i < |b.builders| {
      out, c, v := OnFinish(b, op.i, w);
    }
    BufferOwned(Realm(b, mine), c);
    ours := mine + set x | x in c.pool;
  }

  method Do(b: World, op: Op, ghost w: Scene, ghost mine: set<object>)
    returns (out: Outcome, c: World, ghost v: Scene, ghost ours: set<object>)
    requires Agrees(b, w) && Owns(b, mine)
    modifies mine
    ensures Agrees(c, v) && Next(w, op, out, v)
    ensures Owns(c, ours) && fresh(ours - mine)
  {
    if op.NewBuilder? {
      out, c, v, ours := DoNewBuilder(b, op.config, w, mine);
    } else if op.TrimBuffer? {
      out, v := DoTrim(b, op, w, mine);
      c, ours := b, mine;
    } else if op.Finish? {
      out, c, v, ours := DoFinish(b, op, w, mine);
    } else if op.NewBuffer? || op.CopyBuffer? || op.SliceBuffer? || op.Share? {
      out, c, v, ours := DoBuffer(b, op, w, mine);
    } else if Reaches(b, op) {
      out, v, ours := DoBuilder(b, op, w, mine);
      c := b;
    } else {
      AgreesSane(b, w);
      out, c, v, ours := Refused, b, w, mine;
    }
  }

  // ----- any run -----

  /** The oracle's whole history: one outcome and one state for each operation. */
  ghost predicate Replayed(ops: seq<Op>, outs: seq<Outcome>, states: seq<Scene>) {
    && |outs| == |ops| && |states| == |ops| + 1
    && states[0] == Scene([], [])
    && forall i :: 0 <= i < |ops| ==> Next(states[i], ops[i], outs[i], states[i + 1])
  }

  lemma OneMore(ops: seq<Op>, i: nat, outs: seq<Outcome>, states: seq<Scene>, out: Outcome, v: Scene)
    requires i < |ops| && Replayed(ops[..i], outs, states) && Next(states[i], ops[i], out, v)
    ensures Replayed(ops[..i + 1], outs + [out], states + [v])
  {
    var done, more, now := ops[..i + 1], outs + [out], states + [v];
    forall k | 0 <= k < i + 1 ensures Next(now[k], done[k], more[k], now[k + 1]) {
      if k < i {
        assert Next(states[k], ops[..i][k], outs[k], states[k + 1]);
      }
    }
  }

  /** What is made from nothing is made exactly when its arguments are in range. */
  predicate Certain(op: Op, out: Outcome) {
    && (op.NewBuilder? ==> (out.Done? <==> op.config.Valid()))
    && (op.NewBuffer? ==> (out.Done? <==> |op.bytes| <= MAX_BYTES))
  }

  lemma MadeExactly(ops: seq<Op>, outs: seq<Outcome>, states: seq<Scene>)
    requires Replayed(ops, outs, states)
    ensures forall i :: 0 <= i < |ops| ==> Certain(ops[i], outs[i])
  {
    forall i | 0 <= i < |ops| ensures Certain(ops[i], outs[i]) {
      assert Next(states[i], ops[i], outs[i], states[i + 1]);
      if ops[i].NewBuffer? && outs[i].Done? {
        assert SaneBuffer(states[i + 1].pool[|states[i].pool|]);
      }
    }
  }

  /** After any operations at all, every builder and every buffer presents the oracle's bytes. */
  method Run(ops: seq<Op>) returns (b: World, outs: seq<Outcome>, ghost states: seq<Scene>)
    ensures Replayed(ops, outs, states) && Agrees(b, states[|ops|])
    ensures |outs| == |ops| && forall i :: 0 <= i < |ops| ==> Certain(ops[i], outs[i])
  {
    b, outs, states := World([], []), [], [Scene([], [])];
    ghost var mine := {};
    for i := 0 to |ops|
      invariant Replayed(ops[..i], outs, states) && Agrees(b, states[i])
      invariant Owns(b, mine) && fresh(mine)
    {
      var out;
      ghost var v;
      out, b, v, mine := Do(b, ops[i], states[i], mine);
      OneMore(ops, i, outs, states, out, v);
      outs, states := outs + [out], states + [v];
    }
    assert ops[..|ops|] == ops;
    MadeExactly(ops, outs, states);
  }
}
