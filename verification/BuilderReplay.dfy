/**
 Any two runs of the same operations on builders and buffers go the same way: the
 same operations are refused, and the same bytes are presented in windows of the
 same sizes. Which storage an allocation returns is all that can differ.
 */
module BuilderReplay {
  import opened Units
  import opened Fragments
  import opened OpenTail
  import opened BuilderScene
  import opened BuilderOracle

  // ----- windows that differ in their storage alone -----

  predicate AlikeOne(f: Fragment, g: Fragment) {
    f.off == g.off && f.len == g.len && f.retained == g.retained
  }

  predicate AlikeAll(fs: seq<Fragment>, gs: seq<Fragment>) {
    |fs| == |gs| && forall i :: 0 <= i < |fs| ==> AlikeOne(fs[i], gs[i])
  }

  lemma {:induction false} AlikeTotals(fs: seq<Fragment>, gs: seq<Fragment>)
    requires AlikeAll(fs, gs)
    ensures Total(fs) == Total(gs) && Retained(fs) == Retained(gs)
  {
    if fs != [] {
      AlikeTotals(fs[1..], gs[1..]);
    }
  }

  lemma AlikeConcat(a: seq<Fragment>, b: seq<Fragment>, fs: seq<Fragment>, gs: seq<Fragment>)
    requires AlikeAll(a, b) && AlikeAll(fs, gs)
    ensures AlikeAll(a + fs, b + gs)
  {
  }

  lemma AlikeSizes(fs: seq<Fragment>, gs: seq<Fragment>, sizes: seq<nat>)
    requires OfSizes(fs, sizes) && OfSizes(gs, sizes)
    ensures AlikeAll(fs, gs)
  {
  }

  lemma {:induction false} AlikeDrop(fs: seq<Fragment>, gs: seq<Fragment>, n: nat)
    requires AlikeAll(fs, gs) && n <= Total(fs) && n <= Total(gs)
    ensures AlikeAll(Drop(fs, n), Drop(gs, n))
  {
    if fs != [] && n > 0 {
      DropStep(fs, n);
      DropStep(gs, n);
      if n >= fs[0].len {
        AlikeDrop(fs[1..], gs[1..], n - fs[0].len);
      }
    }
  }

  lemma {:induction false} AlikeTake(fs: seq<Fragment>, gs: seq<Fragment>, n: nat)
    requires AlikeAll(fs, gs) && n <= Total(fs) && n <= Total(gs)
    ensures AlikeAll(Take(fs, n), Take(gs, n))
  {
    if fs != [] && n > 0 {
      TakeStep(fs, n);
      TakeStep(gs, n);
      if n >= fs[0].len {
        AlikeTake(fs[1..], gs[1..], n - fs[0].len);
      }
    }
  }

  lemma AlikeSlice(fs: seq<Fragment>, gs: seq<Fragment>, offset: nat, length: nat)
    requires AlikeAll(fs, gs) && offset + length <= Total(fs) && offset + length <= Total(gs)
    ensures AlikeAll(Slice(fs, offset, length), Slice(gs, offset, length))
  {
    DropTotal(fs, offset);
    DropTotal(gs, offset);
    AlikeDrop(fs, gs, offset);
    AlikeTake(Drop(fs, offset), Drop(gs, offset), length);
  }

  lemma {:induction false} AlikeWindow(fs: seq<Fragment>, gs: seq<Fragment>, skip: nat, n: nat)
    requires AlikeAll(fs, gs)
    ensures AlikeAll(Window(fs, skip, n), Window(gs, skip, n))
  {
    if fs != [] && n > 0 {
      WindowStep(fs, skip, n);
      WindowStep(gs, skip, n);
      if skip >= fs[0].len {
        AlikeWindow(fs[1..], gs[1..], skip - fs[0].len, n);
      } else {
        AlikeWindow(fs[1..], gs[1..], 0, n - Min(fs[0].len - skip, n));
      }
    }
  }

  lemma {:induction false} AlikeDense(fs: seq<Fragment>, gs: seq<Fragment>)
    requires AlikeAll(fs, gs)
    ensures AlikeAll(Dense(fs), Dense(gs))
  {
    if fs != [] {
      AlikeDense(fs[1..], gs[1..]);
    }
  }

  lemma {:induction false} AlikePacks(fs: seq<Fragment>, gs: seq<Fragment>, room: nat)
    requires AlikeAll(fs, gs)
    ensures PackCount(fs, room) == PackCount(gs, room)
  {
    if fs != [] && fs[0].len <= room {
      AlikePacks(fs[1..], gs[1..], room - fs[0].len);
    }
  }

  // ----- open lists -----

  predicate AlikeOpen(o: Open, p: Open) {
    AlikeAll(o.fragments, p.fragments) && o.retained == p.retained && o.used == p.used && o.last == p.last
  }

  lemma AlikeShown(o: Open, p: Open)
    requires o.Ok() && p.Ok() && AlikeOpen(o, p)
    ensures o.Capacity() == p.Capacity() && AlikeAll(o.Shown(), p.Shown())
  {
  }

  lemma AlikeOpened(config: Config, o: Open, p: Open, n: nat, o': Open, p': Open)
    requires config.Valid() && o.Ok() && p.Ok() && AlikeOpen(o, p)
    requires Opened(config, o, n, o') && Opened(config, p, n, p')
    ensures AlikeOpen(o', p')
  {
    AlikeShown(o, p);
  }

  lemma AlikeCopiedIn(config: Config, o: Open, p: Open, n: nat, o': Open, p': Open)
    requires config.Valid() && o.Ok() && p.Ok() && AlikeOpen(o, p)
    requires CopiedIn(config, o, n, o') && CopiedIn(config, p, n, p')
    ensures AlikeOpen(o', p')
  {
    AlikeShown(o, p);
    if n <= PACK_COPY_THRESHOLD && n > o.Capacity() {
      AlikeOpened(config, o, p, n, o'.(used := 0), p'.(used := 0));
    }
  }

  lemma AlikeReserved(config: Config, o: Open, p: Open, n: nat, o': Open, p': Open)
    requires config.Valid() && o.Ok() && p.Ok() && AlikeOpen(o, p)
    requires Reserved(config, o, n, o') && Reserved(config, p, n, p')
    ensures AlikeOpen(o', p')
  {
    AlikeShown(o, p);
    if n > o.Capacity() {
      AlikeOpened(config, o, p, n, o', p');
    }
  }

  lemma AlikeStretched(o: Open, p: Open, ts: seq<nat>, n: nat, o': Open, p': Open)
    requires AlikeOpen(o, p) && Stretched(o, ts, n, o') && Stretched(p, ts, n, p')
    ensures AlikeOpen(o', p')
  {
    var k := |o.fragments|;
    AlikeSizes(o'.fragments[k..], p'.fragments[k..], ts);
    forall i | 0 <= i < |o'.fragments| ensures AlikeOne(o'.fragments[i], p'.fragments[i]) {
      if i < k {
        assert o'.fragments[..k][i] == o.fragments[i] && p'.fragments[..k][i] == p.fragments[i];
      } else {
        assert o'.fragments[k..][i - k] == o'.fragments[i] && p'.fragments[k..][i - k] == p'.fragments[i];
      }
    }
  }

  lemma AlikeAppended(config: Config, o: Open, p: Open, n: nat, o': Open, p': Open)
    requires Shaped(config, o) && Shaped(config, p) && AlikeOpen(o, p)
    requires Appended(config, o, n, o') && Appended(config, p, n, p')
    ensures AlikeOpen(o', p')
  {
    AlikeShown(o, p);
    var more := Past(n, o.Capacity());
    AlikeStretched(o.Wrote(n - more), p.Wrote(n - more), Tails(config, o.last, more), more, o', p');
  }

  lemma AlikeSplice(o: Open, p: Open, fs: seq<Fragment>, gs: seq<Fragment>)
    requires o.Ok() && p.Ok() && AlikeOpen(o, p) && AlikeAll(fs, gs)
    requires Fits(o.retained + Retained(fs)) && Fits(p.retained + Retained(gs))
    ensures AlikeOpen(Splice(o, fs), Splice(p, gs))
  {
    AlikeShown(o, p);
    AlikeTotals(fs, gs);
    AlikeConcat(o.Shown(), p.Shown(), fs, gs);
  }

  /** The same number is packed, and the bytes and backing on either side of the cut are the same. */
  lemma AlikeCut(fs: seq<Fragment>, gs: seq<Fragment>, count: nat)
    requires AlikeAll(fs, gs) && count <= |fs|
    ensures AlikeAll(fs[..count], gs[..count]) && AlikeAll(fs[count..], gs[count..])
    ensures Total(fs[..count]) == Total(gs[..count])
    ensures Retained(fs[..count]) == Retained(gs[..count]) && Retained(fs[count..]) == Retained(gs[count..])
  {
    AlikeTotals(fs[..count], gs[..count]);
    AlikeTotals(fs[count..], gs[count..]);
  }

  lemma AlikeDonation(o: Open, p: Open, fs: seq<Fragment>, gs: seq<Fragment>)
    requires o.Ok() && p.Ok() && AlikeOpen(o, p) && AlikeAll(fs, gs)
    ensures Packs(o, fs) == Packs(p, gs)
    ensures
      Fits(o.retained + Retained(fs[Packs(o, fs)..])) && Fits(p.retained + Retained(gs[Packs(p, gs)..])) ==>
      AlikeOpen(Donation(o, fs), Donation(p, gs))
  {
    AlikeShown(o, p);
    AlikePacks(fs, gs, Min(PACK_COPY_THRESHOLD, o.Capacity()));
    var count := Packs(o, fs);
    AlikeCut(fs, gs, count);
    if Fits(o.retained + Retained(fs[count..])) {
      var n := Total(fs[..count]);
      AlikeSplice(o.Wrote(n), p.Wrote(n), fs[count..], gs[count..]);
    }
  }

  // ----- scenes -----

  predicate AlikeBuilder(u: BuilderView, v: BuilderView) {
    u.config == v.config && u.finished == v.finished && u.content == v.content && AlikeOpen(u.open, v.open)
  }

  predicate AlikeBuffer(g: BufferView, h: BufferView) {
    g.bytes == h.bytes && AlikeAll(g.fragments, h.fragments)
  }

  ghost predicate AlikeScene(w: Scene, x: Scene) {
    && |w.builders| == |x.builders| && |w.pool| == |x.pool|
    && (forall i :: 0 <= i < |w.builders| ==> AlikeBuilder(w.builders[i], x.builders[i]))
    && (forall k :: 0 <= k < |w.pool| ==> AlikeBuffer(w.pool[k], x.pool[k]))
  }

  lemma SameTaking(u: BuilderView, v: BuilderView, n: nat)
    requires SaneBuilder(u) && SaneBuilder(v) && AlikeBuilder(u, v)
    ensures TakesBytes(u, n) <==> TakesBytes(v, n)
    ensures TakesRange(u, n) <==> TakesRange(v, n)
    ensures HasRoom(u, n) <==> HasRoom(v, n)
  {
    AlikeShown(u.open, v.open);
  }

  lemma SameGiving(u: BuilderView, v: BuilderView, g: BufferView, h: BufferView, count: nat)
    requires SaneBuilder(u) && SaneBuilder(v) && AlikeBuilder(u, v) && AlikeBuffer(g, h)
    ensures TakesBuffer(u, g) <==> TakesBuffer(v, h)
    ensures TakesLeading(u, g.fragments, count) <==> TakesLeading(v, h.fragments, count)
  {
    AlikeDonation(u.open, v.open, g.fragments, h.fragments);
    AlikeCut(g.fragments, h.fragments, Packs(u.open, g.fragments));
    if count <= |g.fragments| {
      AlikeCut(g.fragments, h.fragments, count);
    }
  }

  /** Whether an operation is refused does not depend on where storage lies. */
  lemma SameRefusals(w: Scene, x: Scene, op: Op)
    requires Sane(w) && Sane(x) && AlikeScene(w, x)
    ensures Refuses(w, op) <==> Refuses(x, op)
  {
    if (op.Append? || op.AppendCopy? || op.Reserve?) && op.i < |w.builders| {
      SameTaking(w.builders[op.i], x.builders[op.i], if op.Reserve? then op.room else |op.bytes|);
    } else if (op.GiveBuffer? || op.GiveFragments?) && op.i < |w.builders| && op.k < |w.pool| {
      SameGiving(w.builders[op.i], x.builders[op.i], w.pool[op.k], x.pool[op.k],
                 if op.GiveFragments? then op.count else 0);
    }
  }

  /** Two scenes that stay alike when one view of each is replaced, or one is added. */
  lemma AlikeGrown(w: Scene, x: Scene, w': Scene, x': Scene, g: BufferView, h: BufferView)
    requires AlikeScene(w, x) && AlikeBuffer(g, h) && Grown(w, w', g) && Grown(x, x', h)
    ensures AlikeScene(w', x')
  {
  }

  /** A buffer more. */
  lemma MadeAlike(w: Scene, x: Scene, op: Op, w': Scene, x': Scene)
    requires op.NewBuffer? || op.CopyBuffer? || op.SliceBuffer? || op.Share?
    requires Sane(w) && Sane(x) && AlikeScene(w, x) && !Refuses(w, op) && !Refuses(x, op)
    requires Sane(w') && Sane(x') && Accepted(w, op, w') && Accepted(x, op, x')
    ensures AlikeScene(w', x')
  {
    var g, h := w'.pool[|w.pool|], x'.pool[|x.pool|];
    if op.SliceBuffer? {
      AlikeSlice(w.pool[op.k].fragments, x.pool[op.k].fragments, op.offset, op.length);
    } else if op.Share? {
      var u, v := w.builders[op.i].open, x.builders[op.i].open;
      AlikeShown(u, v);
      AlikeWindow(u.Shown(), v.Shown(), op.offset, op.length);
    }
    AlikeGrown(w, x, w', x', g, h);
  }

  /** The views one operation replaced in each scene are alike, and so are the scenes. */
  lemma ReplacedAlike(w: Scene, x: Scene, i: nat, w': Scene, x': Scene)
    requires AlikeScene(w, x) && i < |w.builders|
    requires |w'.builders| == |w.builders| && w' == WithBuilder(w, i, w'.builders[i])
    requires |x'.builders| == |x.builders| && x' == WithBuilder(x, i, x'.builders[i])
    requires AlikeBuilder(w'.builders[i], x'.builders[i])
    ensures AlikeScene(w', x')
  {
  }

  lemma AlikeExtended(u: BuilderView, v: BuilderView, bytes: seq<byte>, u': BuilderView, v': BuilderView)
    requires AlikeBuilder(u, v) && BuilderExtended(u, u', bytes) && BuilderExtended(v, v', bytes)
    requires AlikeOpen(u'.open, v'.open)
    ensures AlikeBuilder(u', v')
  {
  }

  lemma ExtendedAlike(w: Scene, x: Scene, op: Op, w': Scene, x': Scene)
    requires op.Append? || op.AppendCopy? || op.Reserve?
    requires Sane(w) && Sane(x) && AlikeScene(w, x) && !Refuses(w, op) && !Refuses(x, op)
    requires Sane(w') && Sane(x') && Accepted(w, op, w') && Accepted(x, op, x')
    ensures AlikeScene(w', x')
  {
    var u, v, u', v' := w.builders[op.i], x.builders[op.i], w'.builders[op.i], x'.builders[op.i];
    assert AlikeBuilder(u, v);
    if op.Append? {
      AlikeAppended(u.config, u.open, v.open, |op.bytes|, u'.open, v'.open);
      AlikeExtended(u, v, op.bytes, u', v');
    } else if op.AppendCopy? {
      AlikeCopiedIn(u.config, u.open, v.open, |op.bytes|, u'.open, v'.open);
      AlikeExtended(u, v, op.bytes, u', v');
    } else {
      AlikeReserved(u.config, u.open, v.open, op.room, u'.open, v'.open);
      AlikeExtended(u, v, [], u', v');
    }
    ReplacedAlike(w, x, op.i, w', x');
  }

  /** The same for an operation that moves n bytes from buffer k to builder i. */
  lemma MovedAlike(w: Scene, x: Scene, i: nat, k: nat, n: nat, w': Scene, x': Scene)
    requires AlikeScene(w, x) && Given(w, w', i, k, n) && Given(x, x', i, k, n)
    requires AlikeOpen(w'.builders[i].open, x'.builders[i].open)
    requires AlikeAll(w'.pool[k].fragments, x'.pool[k].fragments)
    ensures AlikeScene(w', x')
  {
    AlikeExtended(w.builders[i], x.builders[i], w.pool[k].bytes[..n], w'.builders[i], x'.builders[i]);
  }

  lemma AlikeTaken(u: BuilderView, v: BuilderView, g: BufferView, h: BufferView)
    requires SaneBuilder(u) && SaneBuilder(v) && AlikeBuilder(u, v) && AlikeBuffer(g, h)
    requires TakesBuffer(u, g) && TakesBuffer(v, h)
    ensures AlikeOpen(Donation(u.open, g.fragments), Donation(v.open, h.fragments))
  {
    AlikeDonation(u.open, v.open, g.fragments, h.fragments);
  }

  lemma DonatedAlike(w: Scene, x: Scene, op: Op, w': Scene, x': Scene)
    requires op.GiveBuffer?
    requires Sane(w) && Sane(x) && AlikeScene(w, x) && !Refuses(w, op) && !Refuses(x, op)
    requires Sane(w') && Sane(x') && Accepted(w, op, w') && Accepted(x, op, x')
    ensures AlikeScene(w', x')
  {
    var u, v, g, h := w.builders[op.i], x.builders[op.i], w.pool[op.k], x.pool[op.k];
    assert AlikeBuilder(u, v) && AlikeBuffer(g, h);
    AlikeTaken(u, v, g, h);
    MovedAlike(w, x, op.i, op.k, |g.bytes|, w', x');
  }

  lemma SplicedAlike(w: Scene, x: Scene, op: Op, w': Scene, x': Scene)
    requires op.GiveFragments?
    requires Sane(w) && Sane(x) && AlikeScene(w, x) && !Refuses(w, op) && !Refuses(x, op)
    requires Sane(w') && Sane(x') && Accepted(w, op, w') && Accepted(x, op, x')
    ensures AlikeScene(w', x')
  {
    var u, v, g, h := w.builders[op.i], x.builders[op.i], w.pool[op.k], x.pool[op.k];
    assert AlikeBuilder(u, v) && AlikeBuffer(g, h);
    var front, also := g.fragments[..op.count], h.fragments[..op.count];
    AlikeCut(g.fragments, h.fragments, op.count);
    AlikeSplice(u.open, v.open, front, also);
    MovedAlike(w, x, op.i, op.k, Total(front), w', x');
  }

  lemma TrimmedAlike(w: Scene, x: Scene, op: Op, w': Scene, x': Scene)
    requires op.TrimBuffer?
    requires Sane(w) && Sane(x) && AlikeScene(w, x) && !Refuses(w, op) && !Refuses(x, op)
    requires Sane(w') && Sane(x') && Accepted(w, op, w') && Accepted(x, op, x')
    ensures AlikeScene(w', x')
  {
    var g, h := w.pool[op.k], x.pool[op.k];
    assert AlikeBuffer(g, h);
    if op.front {
      AlikeDrop(g.fragments, h.fragments, op.n);
    } else {
      AlikeTake(g.fragments, h.fragments, |g.bytes| - op.n);
    }
  }

  lemma FinishedAlike(w: Scene, x: Scene, op: Op, w': Scene, x': Scene)
    requires op.Finish?
    requires Sane(w) && Sane(x) && AlikeScene(w, x) && !Refuses(w, op) && !Refuses(x, op)
    requires Sane(w') && Sane(x') && Accepted(w, op, w') && Accepted(x, op, x')
    ensures AlikeScene(w', x')
  {
    var u, v := w.builders[op.i], x.builders[op.i];
    assert AlikeBuilder(u, v);
    AlikeShown(u.open, v.open);
    AlikeDense(u.open.Shown(), v.open.Shown());
    ReplacedAlike(w, x, op.i, WithBuilder(w, op.i, Shut(u)), WithBuilder(x, op.i, Shut(v)));
  }

  /** One operation on scenes that are alike has one outcome and leaves them alike. */
  lemma SameStep(w: Scene, x: Scene, op: Op, out: Outcome, also: Outcome, w': Scene, x': Scene)
    requires AlikeScene(w, x) && Next(w, op, out, w') && Next(x, op, also, x')
    ensures out == also && AlikeScene(w', x')
  {
    SameRefusals(w, x, op);
    if out.Refused? {
    } else if op.NewBuffer? || op.CopyBuffer? || op.SliceBuffer? || op.Share? {
      MadeAlike(w, x, op, w', x');
    } else if op.Append? || op.AppendCopy? || op.Reserve? {
      ExtendedAlike(w, x, op, w', x');
    } else if op.GiveBuffer? {
      DonatedAlike(w, x, op, w', x');
    } else if op.GiveFragments? {
      SplicedAlike(w, x, op, w', x');
    } else if op.TrimBuffer? {
      TrimmedAlike(w, x, op, w', x');
    } else if op.Finish? {
      FinishedAlike(w, x, op, w', x');
    }
  }

  lemma OneLonger(outs: seq<Outcome>, also: seq<Outcome>, i: nat)
    requires i < |outs| == |also| && outs[..i] == also[..i] && outs[i] == also[i]
    ensures outs[..i + 1] == also[..i + 1]
  {
    assert outs[..i + 1] == outs[..i] + [outs[i]] && also[..i + 1] == also[..i] + [also[i]];
  }

  /** Every run is settled by its operations: two replays have the same outcomes, and after every operation the
      same contents in windows of the same sizes, with the same accounts. */
  lemma {:induction false} ReplaysAgree(ops: seq<Op>, outs: seq<Outcome>, states: seq<Scene>,
                                        also: seq<Outcome>, others: seq<Scene>, n: nat)
    requires Replayed(ops, outs, states) && Replayed(ops, also, others) && n <= |ops|
    ensures AlikeScene(states[n], others[n]) && outs[..n] == also[..n]
  {
    if n > 0 {
      var i := n - 1;
      ReplaysAgree(ops, outs, states, also, others, i);
      var one, two := states[i + 1], others[i + 1];
      assert Next(states[i], ops[i], outs[i], one);
      assert Next(others[i], ops[i], also[i], two);
      SameStep(states[i], others[i], ops[i], outs[i], also[i], one, two);
      OneLonger(outs, also, i);
    }
  }
}
