/**
 Each operation on a world of builders and buffers, against the scene it presents
 (src/bytes/fragmented_buffer_builder.cc, src/bytes/fragmented_buffer.cc).
 */
module BuilderRuns {
  import opened Units
  import opened Fragments
  import opened FragmentedBuffers
  import opened OpenTail
  import opened BufferBuilder
  import opened DeepCopy
  import opened BuilderScene
  import opened BuilderWorld

  ghost predicate Shows(x: Builder, u: BuilderView)
    reads x, if x.Valid() then Arrays(x.open.Shown()) else {}
  {
    x.Valid() && u == BuilderView(x.config, x.open, x.finished, x.Content())
  }

  ghost predicate Holding(buffer: FragmentedBuffer, g: BufferView)
    reads buffer, if buffer.Valid() then Arrays(buffer.fragments) else {}
  {
    buffer.Valid() && g == BufferView(buffer.fragments, buffer.Content())
  }

  // ----- one builder -----

  method AppendTo(x: Builder, bytes: seq<byte>, ghost u: BuilderView) returns (out: Outcome, ghost next: BuilderView)
    requires Shows(x, u) && SaneBuilder(u)
    modifies x, x.open.SpareArray()
    ensures Shows(x, next) && Keeps(old(x.open), [], x.open)
    ensures BytesTaken(u, bytes, out, next)
  {
    var r := x.Append(bytes);
    out := if r.Ok? then Done else Refused;
    next := BuilderView(x.config, x.open, x.finished, x.Content());
  }

  method ReserveIn(x: Builder, room: nat, ghost u: BuilderView) returns (out: Outcome, ghost next: BuilderView)
    requires Shows(x, u) && SaneBuilder(u)
    modifies x
    ensures Shows(x, next) && Keeps(old(x.open), [], x.open)
    ensures RoomMade(u, room, out, next)
  {
    var r := x.Reserve(room);
    out := if r.Ok? then Done else Refused;
    next := BuilderView(x.config, x.open, x.finished, x.Content());
  }

  method CopyTo(x: Builder, src: Fragment, ghost u: BuilderView) returns (out: Outcome, ghost next: BuilderView)
    requires Shows(x, u) && SaneBuilder(u) && src.InRange() && x.open.Clear(src)
    modifies x, x.open.SpareArray()
    ensures Shows(x, next) && Keeps(old(x.open), [], x.open)
    ensures RangeTaken(u, old(src.Bytes()), out, next)
  {
    var r := x.AppendFragmentCopy(src);
    out := if r.Ok? then Done else Refused;
    next := BuilderView(x.config, x.open, x.finished, x.Content());
  }

  method GiveTo(x: Builder, buffer: FragmentedBuffer, ghost u: BuilderView, ghost g: BufferView)
    returns (out: Outcome, ghost next: BuilderView, ghost rest: BufferView)
    requires Shows(x, u) && SaneBuilder(u) && Holding(buffer, g) && AllClear(x.open, buffer.fragments)
    modifies x, buffer, x.open.SpareArray()
    ensures Shows(x, next) && Holding(buffer, rest) && Keeps(old(x.open), g.fragments, x.open)
    ensures AllGiven(u, g, out, next, rest)
  {
    var r := x.AppendBuffer(buffer);
    out := if r.Ok? then Done else Refused;
    next := BuilderView(x.config, x.open, x.finished, x.Content());
    rest := BufferView(buffer.fragments, buffer.Content());
  }

  /** Some of a donor's leading fragments, or none, and nothing written. */
  twostate lemma LeadingKeeps(h: Held, new count: nat)
    requires h.before.Ok() && AllOk(h.windows) && count <= |h.windows|
    requires Fits(h.before.retained + Retained(h.windows[..count]))
    requires h.before.Capacity() > 0 ==> unchanged(h.before.Tail().data)
    ensures var after := Splice(h.before, h.windows[..count]); after.Ok() && Keeps(h.before, h.windows, after)
  {
    if count > 0 {
      SpliceKeeps(h.before, h.windows[..count], h.windows);
    } else {
      KeepsSame(h.before, h.windows);
    }
  }

  method GiveLeadingTo(x: Builder, buffer: FragmentedBuffer, count: nat, ghost u: BuilderView, ghost g: BufferView)
    returns (out: Outcome, ghost next: BuilderView, ghost rest: BufferView)
    requires Shows(x, u) && SaneBuilder(u) && Holding(buffer, g)
    modifies x, buffer
    ensures Shows(x, next) && Holding(buffer, rest) && LeadingGiven(u, g, count, out, next, rest)
  {
    var r;
    ghost var moved;
    r, moved := x.AppendFragments(buffer, count);
    out := if r.Ok? then Done else Refused;
    next := BuilderView(x.config, x.open, x.finished, x.Content());
    rest := BufferView(buffer.fragments, buffer.Content());
  }

  method GiveLeading(x: Builder, buffer: FragmentedBuffer, count: nat, ghost u: BuilderView, ghost g: BufferView)
    returns (out: Outcome, ghost next: BuilderView, ghost rest: BufferView)
    requires Shows(x, u) && SaneBuilder(u) && Holding(buffer, g)
    modifies x, buffer
    ensures Shows(x, next) && Holding(buffer, rest) && Keeps(old(x.open), g.fragments, x.open)
    ensures LeadingGiven(u, g, count, out, next, rest) && Within(rest.fragments, g.fragments)
  {
    out, next, rest := GiveLeadingTo(x, buffer, count, u, g);
    if out.Done? {
      LeadingKeeps(Held(u.open, g.fragments), count);
    } else {
      KeepsSame(u.open, g.fragments);
    }
  }

  ghost predicate Within(some: seq<Fragment>, all: seq<Fragment>) {
    forall n :: 0 <= n < |some| ==> some[n] in all
  }

  // ----- one builder among the others -----

  /** A step of builder i, told by its view before and after. */
  twostate lemma BuilderStepped(m: Moment, new i: nat, new u: BuilderView)
    requires old(Agrees(m.b, m.w)) && Stepped(m.b, i, -1) && m.donor == []
    requires Traced(old(m.b.builders[i].open), [], m.b.builders[i].open) && Shows(m.b.builders[i], u)
    ensures Agrees(m.b, WithBuilder(m.w, i, u)) && Sane(WithBuilder(m.w, i, u))
  {
    OneStepped(m, i, u);
    AgreesSane(m.b, WithBuilder(m.w, i, u));
  }

  /** The step of builder i has left the others alone, and this is what it shows. */
  twostate predicate Took(b: World, new i: nat, new given: int, new donor: seq<Fragment>, new u: BuilderView)
    reads *
  {
    && Stepped(b, i, given) && Shows(b.builders[i], u)
    && Traced(old(b.builders[i].open), donor, b.builders[i].open)
  }

  method AppendAmong(b: World, i: nat, bytes: seq<byte>, ghost w: Scene) returns (out: Outcome, ghost next: BuilderView)
    requires Agrees(b, w) && i < |b.builders|
    modifies b.builders[i], b.builders[i].open.SpareArray()
    ensures Took(b, i, -1, [], next)
    ensures Sane(w) && BytesTaken(w.builders[i], bytes, out, next)
  {
    assert BuilderAgrees(b.builders, i, w.builders[i]);
    AgreesSane(b, w);
    out, next := AppendTo(b.builders[i], bytes, w.builders[i]);
  }

  method OnAppend(b: World, i: nat, bytes: seq<byte>, ghost w: Scene) returns (out: Outcome, ghost v: Scene)
    requires Agrees(b, w) && i < |b.builders|
    modifies b.builders[i], b.builders[i].open.SpareArray()
    ensures Agrees(b, v) && Next(w, Append(i, bytes), out, v)
    ensures SpareFrom(old(b.builders[i].open), b.builders[i].open)
  {
    ghost var next;
    out, next := AppendAmong(b, i, bytes, w);
    BuilderStepped(Moment(b, w, []), i, next);
    BuilderNext(w, Append(i, bytes), out, i, next);
    v := WithBuilder(w, i, next);
  }

  method ReserveAmong(b: World, i: nat, room: nat, ghost w: Scene) returns (out: Outcome, ghost next: BuilderView)
    requires Agrees(b, w) && i < |b.builders|
    modifies b.builders[i]
    ensures Took(b, i, -1, [], next)
    ensures Sane(w) && RoomMade(w.builders[i], room, out, next)
  {
    assert BuilderAgrees(b.builders, i, w.builders[i]);
    AgreesSane(b, w);
    out, next := ReserveIn(b.builders[i], room, w.builders[i]);
  }

  method OnReserve(b: World, i: nat, room: nat, ghost w: Scene) returns (out: Outcome, ghost v: Scene)
    requires Agrees(b, w) && i < |b.builders|
    modifies b.builders[i]
    ensures Agrees(b, v) && Next(w, Reserve(i, room), out, v)
    ensures SpareFrom(old(b.builders[i].open), b.builders[i].open)
  {
    ghost var next;
    out, next := ReserveAmong(b, i, room, w);
    BuilderStepped(Moment(b, w, []), i, next);
    BuilderNext(w, Reserve(i, room), out, i, next);
    v := WithBuilder(w, i, next);
  }

  /** Bytes in storage of their own, as any caller's are; everything alive is unaffected. */
  method NewWindow(b: World, i: nat, bytes: seq<byte>, ghost w: Scene) returns (src: Fragment)
    requires Agrees(b, w) && i < |b.builders|
    ensures Agrees(b, w) && src.InRange() && src.len == |bytes| && src.Bytes() == bytes
    ensures b.builders[i].open.Clear(src)
  {
    var storage := new byte[|bytes|](n requires 0 <= n < |bytes| => bytes[n]);
    NothingTouched(Moment(b, w, []));
    src := Fragment(storage, 0, |bytes|, |bytes|);
  }

  method CopyAmong(b: World, i: nat, src: Fragment, ghost w: Scene) returns (out: Outcome, ghost next: BuilderView)
    requires Agrees(b, w) && i < |b.builders| && src.InRange() && b.builders[i].open.Clear(src)
    modifies b.builders[i], b.builders[i].open.SpareArray()
    ensures Took(b, i, -1, [], next)
    ensures Sane(w) && RangeTaken(w.builders[i], old(src.Bytes()), out, next)
  {
    assert BuilderAgrees(b.builders, i, w.builders[i]);
    AgreesSane(b, w);
    out, next := CopyTo(b.builders[i], src, w.builders[i]);
  }

  method CopyWindow(b: World, i: nat, src: Fragment, ghost bytes: seq<byte>, ghost w: Scene)
    returns (out: Outcome, ghost v: Scene)
    requires Agrees(b, w) && i < |b.builders| && src.InRange() && b.builders[i].open.Clear(src) && src.Bytes() == bytes
    modifies b.builders[i], b.builders[i].open.SpareArray()
    ensures Agrees(b, v) && Next(w, AppendCopy(i, bytes), out, v)
    ensures SpareFrom(old(b.builders[i].open), b.builders[i].open)
  {
    ghost var next;
    out, next := CopyAmong(b, i, src, w);
    BuilderStepped(Moment(b, w, []), i, next);
    BuilderNext(w, AppendCopy(i, bytes), out, i, next);
    v := WithBuilder(w, i, next);
  }

  method OnAppendCopy(b: World, i: nat, bytes: seq<byte>, ghost w: Scene) returns (out: Outcome, ghost v: Scene)
    requires Agrees(b, w) && i < |b.builders|
    modifies b.builders[i], b.builders[i].open.SpareArray()
    ensures Agrees(b, v) && Next(w, AppendCopy(i, bytes), out, v)
    ensures SpareFrom(old(b.builders[i].open), b.builders[i].open)
  {
    var src := NewWindow(b, i, bytes, w);
    out, v := CopyWindow(b, i, src, bytes, w);
  }

  /** A donation leaves both where their views say, among the others. */
  twostate lemma Donated(m: Moment, new i: nat, new k: nat, new u: BuilderView, new g: BufferView)
    requires old(Agrees(m.b, m.w)) && k < |m.b.pool| && m.donor == m.w.pool[k].fragments && Stepped(m.b, i, k)
    requires Traced(old(m.b.builders[i].open), m.donor, m.b.builders[i].open)
    requires Shows(m.b.builders[i], u) && Holding(m.b.pool[k], g)
    requires Within(g.fragments, m.donor)
    ensures Agrees(m.b, WithBoth(m.w, i, u, k, g)) && Sane(WithBoth(m.w, i, u, k, g))
  {
    assert old(BufferAgrees(m.b.builders, m.b.pool[k], m.w.pool[k]));
    StillOutOfReach(Seen(m.b.builders, m.donor), i);
    SomeOutOfReach(m.b.builders, m.donor, g.fragments);
    TwoStepped(m, i, k, u, g);
    AgreesSane(m.b, WithBoth(m.w, i, u, k, g));
  }

  lemma SomeOutOfReach(builders: seq<Builder>, ws: seq<Fragment>, some: seq<Fragment>)
    requires OutOfReach(builders, ws) && Within(some, ws)
    ensures OutOfReach(builders, some)
  {
    forall j | 0 <= j < |builders| ensures AllClear(builders[j].open, some) {
      forall n | 0 <= n < |some| ensures builders[j].open.Clear(some[n]) {
        var m :| 0 <= m < |ws| && ws[m] == some[n];
        assert builders[j].open.Clear(ws[m]);
      }
    }
  }

  method GiveAmong(b: World, i: nat, k: nat, ghost w: Scene)
    returns (out: Outcome, ghost next: BuilderView, ghost rest: BufferView)
    requires Agrees(b, w) && i < |b.builders| && k < |b.pool|
    modifies b.builders[i], b.pool[k], b.builders[i].open.SpareArray()
    ensures Took(b, i, k, w.pool[k].fragments, next) && Holding(b.pool[k], rest)
    ensures Sane(w) && AllGiven(w.builders[i], w.pool[k], out, next, rest)
  {
    assert BuilderAgrees(b.builders, i, w.builders[i]) && BufferAgrees(b.builders, b.pool[k], w.pool[k]);
    AgreesSane(b, w);
    out, next, rest := GiveTo(b.builders[i], b.pool[k], w.builders[i], w.pool[k]);
  }

  method OnGiveBuffer(b: World, i: nat, k: nat, ghost w: Scene) returns (out: Outcome, ghost v: Scene)
    requires Agrees(b, w) && i < |b.builders| && k < |b.pool|
    modifies b.builders[i], b.pool[k], b.builders[i].open.SpareArray()
    ensures Agrees(b, v) && Next(w, GiveBuffer(i, k), out, v)
    ensures SpareFrom(old(b.builders[i].open), b.builders[i].open)
  {
    ghost var next, rest;
    out, next, rest := GiveAmong(b, i, k, w);
    Donated(Moment(b, w, w.pool[k].fragments), i, k, next, rest);
    v := WithBoth(w, i, next, k, rest);
    GiveBufferNext(w, out, i, next, k, rest);
  }

  method GiveLeadingAmong(b: World, i: nat, k: nat, count: nat, ghost w: Scene)
    returns (out: Outcome, ghost next: BuilderView, ghost rest: BufferView)
    requires Agrees(b, w) && i < |b.builders| && k < |b.pool|
    modifies b.builders[i], b.pool[k]
    ensures Took(b, i, k, w.pool[k].fragments, next) && Holding(b.pool[k], rest)
    ensures Sane(w) && LeadingGiven(w.builders[i], w.pool[k], count, out, next, rest)
    ensures Within(rest.fragments, w.pool[k].fragments)
  {
    assert BuilderAgrees(b.builders, i, w.builders[i]) && BufferAgrees(b.builders, b.pool[k], w.pool[k]);
    AgreesSane(b, w);
    out, next, rest := GiveLeading(b.builders[i], b.pool[k], count, w.builders[i], w.pool[k]);
  }

  method OnGiveFragments(b: World, i: nat, k: nat, count: nat, ghost w: Scene) returns (out: Outcome, ghost v: Scene)
    requires Agrees(b, w) && i < |b.builders| && k < |b.pool|
    modifies b.builders[i], b.pool[k]
    ensures Agrees(b, v) && Next(w, GiveFragments(i, k, count), out, v)
    ensures SpareFrom(old(b.builders[i].open), b.builders[i].open)
  {
    ghost var next, rest;
    out, next, rest := GiveLeadingAmong(b, i, k, count, w);
    Donated(Moment(b, w, w.pool[k].fragments), i, k, next, rest);
    v := WithBoth(w, i, next, k, rest);
    GiveFragmentsNext(w, out, i, next, k, rest, count);
  }

  /** The same builders and buffers, and at most one new buffer. */
  twostate predicate Extends(b: World, new c: World) {
    && c.builders == b.builders
    && (c.pool == b.pool || (|c.pool| == |b.pool| + 1 && c.pool[..|b.pool|] == b.pool && fresh(c.pool[|b.pool|])))
  }

  /** A new buffer, out of reach of every builder, joins the pool. */
  method WithBuffer(b: World, buffer: FragmentedBuffer, ghost w: Scene) returns (c: World, ghost v: Scene)
    requires Agrees(b, w) && buffer.Valid() && OutOfReach(b.builders, buffer.fragments) && buffer !in b.pool
    ensures c == b.(pool := b.pool + [buffer])
    ensures v == w.(pool := w.pool + [BufferView(buffer.fragments, buffer.Content())])
    ensures Agrees(c, v) && Sane(v) && Sane(w)
  {
    c := b.(pool := b.pool + [buffer]);
    v := w.(pool := w.pool + [BufferView(buffer.fragments, buffer.Content())]);
    OneMoreBuffer(b, w, buffer, v.pool[|w.pool|]);
    AgreesSane(c, v);
    AgreesSane(b, w);
  }

  lemma WindowOutOfReach(builders: seq<Builder>, ws: seq<Fragment>, offset: nat, length: nat)
    requires OutOfReach(builders, ws)
    ensures OutOfReach(builders, Window(ws, offset, length))
  {
    forall j | 0 <= j < |builders| ensures AllClear(builders[j].open, Window(ws, offset, length)) {
      WindowClear(builders[j].open, ws, offset, length);
    }
  }

  method ShareOne(b: World, i: nat, offset: nat, length: nat, ghost w: Scene) returns (r: Result<FragmentedBuffer>)
    requires Agrees(b, w) && i < |b.builders| && Fits(offset) && Fits(length)
    ensures Agrees(b, w)
    ensures r.Ok? <==> !w.builders[i].finished && offset + length <= |w.builders[i].content|
    ensures r.Ok? ==>
      && fresh(r.value) && r.value.Valid() && OutOfReach(b.builders, r.value.fragments)
      && r.value.fragments == Window(w.builders[i].open.Shown(), offset, length)
      && r.value.Content() == w.builders[i].content[offset..offset + length]
  {
    assert BuilderAgrees(b.builders, i, w.builders[i]);
    r := b.builders[i].Share(offset, length);
    NothingTouched(Moment(b, w, []));
    WindowOutOfReach(b.builders, w.builders[i].open.Shown(), offset, length);
  }

  method OnShare(b: World, i: nat, offset: nat, length: nat, ghost w: Scene)
    returns (out: Outcome, c: World, ghost v: Scene)
    requires Agrees(b, w) && i < |b.builders| && Fits(offset) && Fits(length)
    ensures Agrees(c, v) && Next(w, Share(i, offset, length), out, v) && Extends(b, c)
  {
    AgreesSane(b, w);
    var r := ShareOne(b, i, offset, length, w);
    if r.Err? {
      return Refused, b, w;
    }
    c, v := WithBuffer(b, r.value, w);
    out := Done;
    BufferNext(w, Share(i, offset, length), v, v.pool[|w.pool|]);
  }

  twostate lemma StillOutOfReach(h: Seen, new i: nat)
    requires i < |h.builders| && old(OutOfReach(h.builders, h.windows)) && h.builders[i].Valid()
    requires SpareFrom(old(h.builders[i].open), h.builders[i].open)
    requires forall j :: 0 <= j < |h.builders| && j != i ==> unchanged(h.builders[j])
    ensures OutOfReach(h.builders, h.windows)
  {
    StaysClear(Held(old(h.builders[i].open), h.windows), h.builders[i].open);
  }

  lemma DenseOutOfReach(builders: seq<Builder>, ws: seq<Fragment>)
    requires OutOfReach(builders, ws)
    ensures OutOfReach(builders, Dense(ws))
  {
    forall j | 0 <= j < |builders| ensures AllClear(builders[j].open, Dense(ws)) {
      DenseClear(builders[j].open, ws);
    }
  }

  lemma {:induction false} DenseClear(o: Open, ws: seq<Fragment>)
    requires o.Ok() && AllClear(o, ws)
    ensures AllClear(o, Dense(ws))
  {
    if ws != [] {
      assert o.Clear(ws[0]);
      DenseClear(o, ws[1..]);
    }
  }

  method FinishOne(b: World, i: nat, ghost w: Scene) returns (r: Result<FragmentedBuffer>)
    requires Agrees(b, w) && i < |b.builders|
    modifies b.builders[i]
    ensures Agrees(b, WithBuilder(w, i, Shut(w.builders[i])))
    ensures r.Ok? <==> !w.builders[i].finished
    ensures r.Ok? ==>
      && fresh(r.value) && r.value.Valid() && OutOfReach(b.builders, r.value.fragments)
      && r.value.fragments == Dense(w.builders[i].open.Shown()) && r.value.Content() == w.builders[i].content
    ensures b.builders[i].open == NOTHING
  {
    assert BuilderAgrees(b.builders, i, w.builders[i]);
    ghost var shown := w.builders[i].open.Shown();
    r := b.builders[i].Finish();
    BuilderStepped(Moment(b, w, []), i, Shut(w.builders[i]));
    PublishedOutOfReach(Seen(b.builders, shown), i);
  }

  twostate lemma PublishedOutOfReach(h: Seen, new i: nat)
    requires i < |h.builders| && old(OutOfReach(h.builders, h.windows)) && h.builders[i].Valid()
    requires SpareFrom(old(h.builders[i].open), h.builders[i].open)
    requires forall j :: 0 <= j < |h.builders| && j != i ==> unchanged(h.builders[j])
    ensures OutOfReach(h.builders, Dense(h.windows))
  {
    StillOutOfReach(h, i);
    DenseOutOfReach(h.builders, h.windows);
  }

  method OnFinish(b: World, i: nat, ghost w: Scene) returns (out: Outcome, c: World, ghost v: Scene)
    requires Agrees(b, w) && i < |b.builders|
    modifies b.builders[i]
    ensures Agrees(c, v) && Next(w, Finish(i), out, v) && Extends(b, c)
    ensures b.builders[i].open == NOTHING
  {
    AgreesSane(b, w);
    var r := FinishOne(b, i, w);
    ghost var w1 := WithBuilder(w, i, Shut(w.builders[i]));
    if r.Err? {
      assert SaneBuilder(w.builders[i]);
      SameBuilder(w, i, Shut(w.builders[i]));
      return Refused, b, w;
    }
    c, v := WithBuffer(b, r.value, w1);
    out := Done;
    FinishNext(w, out, i, v);
  }

  // ----- buffers -----

  method OnNewBuffer(b: World, bytes: seq<byte>, ghost w: Scene) returns (out: Outcome, c: World, ghost v: Scene)
    requires Agrees(b, w)
    ensures Agrees(c, v) && Next(w, NewBuffer(bytes), out, v) && Extends(b, c)
  {
    AgreesSane(b, w);
    var r := CopyOf(bytes);
    NothingTouched(Moment(b, w, []));
    if r.Err? {
      return Refused, b, w;
    }
    c, v := WithBuffer(b, r.value, w);
    out := Done;
    BufferNext(w, NewBuffer(bytes), v, v.pool[|w.pool|]);
  }

  method OnCopyBuffer(b: World, k: nat, ghost w: Scene) returns (out: Outcome, c: World, ghost v: Scene)
    requires Agrees(b, w) && k < |b.pool|
    ensures Agrees(c, v) && Next(w, CopyBuffer(k), out, v) && Extends(b, c)
  {
    assert BufferAgrees(b.builders, b.pool[k], w.pool[k]);
    AgreesSane(b, w);
    var copied := Copy(b.pool[k]);
    FlatKept(b.pool[k].fragments);
    NothingTouched(Moment(b, w, []));
    c, v := WithBuffer(b, copied, w);
    out := Done;
    BufferNext(w, CopyBuffer(k), v, v.pool[|w.pool|]);
  }

  method SliceOne(b: World, k: nat, offset: nat, length: nat, ghost w: Scene) returns (r: Result<FragmentedBuffer>)
    requires Agrees(b, w) && k < |b.pool| && Fits(offset) && Fits(length)
    ensures Agrees(b, w)
    ensures r.Ok? <==> offset + length <= |w.pool[k].bytes|
    ensures r.Ok? ==>
      && fresh(r.value) && r.value.Valid() && OutOfReach(b.builders, r.value.fragments)
      && r.value.fragments == Slice(w.pool[k].fragments, offset, length)
      && r.value.Content() == w.pool[k].bytes[offset..offset + length]
  {
    assert BufferAgrees(b.builders, b.pool[k], w.pool[k]);
    r := b.pool[k].Share(offset, length);
    NothingTouched(Moment(b, w, []));
    if r.Ok? {
      SliceOutOfReach(b.builders, b.pool[k].fragments, offset, length);
    }
  }

  method OnSlice(b: World, k: nat, offset: nat, length: nat, ghost w: Scene)
    returns (out: Outcome, c: World, ghost v: Scene)
    requires Agrees(b, w) && k < |b.pool| && Fits(offset) && Fits(length)
    ensures Agrees(c, v) && Next(w, SliceBuffer(k, offset, length), out, v) && Extends(b, c)
  {
    AgreesSane(b, w);
    var r := SliceOne(b, k, offset, length, w);
    if r.Err? {
      return Refused, b, w;
    }
    c, v := WithBuffer(b, r.value, w);
    out := Done;
    BufferNext(w, SliceBuffer(k, offset, length), v, v.pool[|w.pool|]);
  }

  lemma SliceOutOfReach(builders: seq<Builder>, ws: seq<Fragment>, offset: nat, length: nat)
    requires OutOfReach(builders, ws) && offset + length <= Total(ws)
    ensures OutOfReach(builders, Slice(ws, offset, length))
  {
    forall j | 0 <= j < |builders| ensures AllClear(builders[j].open, Slice(ws, offset, length)) {
      SliceClear(builders[j].open, ws, offset, length);
    }
  }

  /** A trim of one buffer, from the front or from the back. */
  method TrimOne(buffer: FragmentedBuffer, front: bool, n: nat, ghost g: BufferView)
    returns (out: Outcome, ghost rest: BufferView)
    requires Holding(buffer, g)
    modifies buffer
    ensures Holding(buffer, rest)
    ensures out.Done? <==> n <= |g.bytes|
    ensures out.Done? ==>
      rest.bytes == Trimmed(g.bytes, front, n) && rest.fragments == Cropped(g, front, n)
    ensures out.Refused? ==> rest == g
  {
    var r;
    if front {
      r := buffer.TrimFront(n);
    } else {
      r := buffer.TrimBack(n);
    }
    FlatKept(g.fragments);
    out := if r.Ok? then Done else Refused;
    rest := BufferView(buffer.fragments, buffer.Content());
  }

  lemma TrimOutOfReach(builders: seq<Builder>, g: BufferView, front: bool, n: nat)
    requires OutOfReach(builders, g.fragments) && n <= |g.bytes| == Total(g.fragments)
    ensures OutOfReach(builders, Cropped(g, front, n))
  {
    forall j | 0 <= j < |builders| ensures AllClear(builders[j].open, Cropped(g, front, n)) {
      if front {
        DropClear(builders[j].open, g.fragments, n);
      } else {
        TakeClear(builders[j].open, g.fragments, |g.bytes| - n);
      }
    }
  }

  lemma TrimmedAgrees(builders: seq<Builder>, buffer: FragmentedBuffer, g: BufferView, out: Outcome, front: bool,
                      n: nat, rest: BufferView)
    requires OutOfReach(builders, g.fragments) && SaneBuffer(g) && Holding(buffer, rest)
    requires if out.Done? then n <= |g.bytes| && rest.fragments == Cropped(g, front, n) else rest == g
    ensures BufferAgrees(builders, buffer, rest)
  {
    if out.Done? {
      TrimOutOfReach(builders, g, front, n);
    }
  }

  /** One buffer presents what is left of it, or there were grounds not to trim it. */
  ghost predicate Cut(g: BufferView, front: bool, n: nat, out: Outcome, rest: BufferView)
    requires SaneBuffer(g)
  {
    && (out.Done? <==> n <= |g.bytes|)
    && rest == if n <= |g.bytes| then BufferView(Cropped(g, front, n), Trimmed(g.bytes, front, n)) else g
  }

  method TrimAmong(b: World, k: nat, front: bool, n: nat, ghost w: Scene) returns (out: Outcome, ghost rest: BufferView)
    requires Agrees(b, w) && k < |b.pool|
    modifies b.pool[k]
    ensures Untouching(b, k) && BufferAgrees(b.builders, b.pool[k], rest)
    ensures Sane(w) && Cut(w.pool[k], front, n, out, rest)
  {
    assert BufferAgrees(b.builders, b.pool[k], w.pool[k]);
    AgreesSane(b, w);
    out, rest := TrimOne(b.pool[k], front, n, w.pool[k]);
    TrimmedAgrees(b.builders, b.pool[k], w.pool[k], out, front, n, rest);
  }

  method OnTrim(b: World, k: nat, front: bool, n: nat, ghost w: Scene) returns (out: Outcome, ghost v: Scene)
    requires Agrees(b, w) && k < |b.pool|
    modifies b.pool[k]
    ensures Agrees(b, v) && Next(w, TrimBuffer(k, front, n), out, v)
  {
    ghost var rest;
    out, rest := TrimAmong(b, k, front, n, w);
    OneTrimmed(Moment(b, w, []), k, rest);
    v := w.(pool := w.pool[k := rest]);
    AgreesSane(b, v);
    TrimNext(w, out, k, front, n, rest);
  }

  lemma TrimNext(w: Scene, out: Outcome, k: nat, front: bool, n: nat, rest: BufferView)
    requires Sane(w) && k < |w.pool| && Sane(w.(pool := w.pool[k := rest])) && Cut(w.pool[k], front, n, out, rest)
    ensures Next(w, TrimBuffer(k, front, n), out, w.(pool := w.pool[k := rest]))
  {
    if out.Refused? {
      assert w.pool[k := rest] == w.pool;
    }
  }
}
