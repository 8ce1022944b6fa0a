/**
 Builders and buffers alive at once: nothing any of the builders may still write
 is presented by a buffer or by another builder, and no step changes what the
 others present.
 */
module BuilderWorld {
  import opened Units
  import opened Fragments
  import opened FragmentedBuffers
  import opened OpenTail
  import opened BufferBuilder
  import opened BuilderScene

  datatype World = World(builders: seq<Builder>, pool: seq<FragmentedBuffer>)

  /** No builder will write these windows. */
  ghost predicate OutOfReach(builders: seq<Builder>, ws: seq<Fragment>)
    reads builders
  {
    forall j :: 0 <= j < |builders| ==> builders[j].Valid() && AllClear(builders[j].open, ws)
  }

  ghost predicate Presented(builders: seq<Builder>, ws: seq<Fragment>, bytes: seq<byte>)
    reads builders, Arrays(ws)
  {
    AllOk(ws) && OutOfReach(builders, ws) && Flat(ws) == bytes
  }

  /** No two builders may write the same array. */
  ghost predicate Apart(builders: seq<Builder>)
    reads builders
  {
    && (forall j :: 0 <= j < |builders| ==> builders[j].Valid())
    && forall i, j :: 0 <= i < j < |builders| ==>
         builders[i] != builders[j] && builders[i].open.SpareArray() !! builders[j].open.SpareArray()
  }

  ghost predicate BuilderAgrees(builders: seq<Builder>, j: nat, u: BuilderView)
    requires j < |builders|
    reads *
  {
    && builders[j].Valid()
    && builders[j].config == u.config && builders[j].open == u.open && builders[j].finished == u.finished
    && Presented(builders, u.open.Shown(), u.content)
  }

  ghost predicate BufferAgrees(builders: seq<Builder>, buffer: FragmentedBuffer, u: BufferView)
    reads *
  {
    buffer.Valid() && buffer.fragments == u.fragments && Presented(builders, u.fragments, u.bytes)
  }

  ghost predicate Agrees(b: World, w: Scene)
    reads *
  {
    && |b.builders| == |w.builders| && |b.pool| == |w.pool|
    && Apart(b.builders)
    && (forall i, j :: 0 <= i < j < |b.pool| ==> b.pool[i] != b.pool[j])
    && (forall j :: 0 <= j < |b.builders| ==> BuilderAgrees(b.builders, j, w.builders[j]))
    && (forall k :: 0 <= k < |b.pool| ==> BufferAgrees(b.builders, b.pool[k], w.pool[k]))
  }

  lemma AgreesSane(b: World, w: Scene)
    requires Agrees(b, w)
    ensures Sane(w)
  {
    forall i | 0 <= i < |w.builders| ensures SaneBuilder(w.builders[i]) {
      assert BuilderAgrees(b.builders, i, w.builders[i]);
    }
    forall k | 0 <= k < |w.pool| ensures SaneBuffer(w.pool[k]) {
      assert BufferAgrees(b.builders, b.pool[k], w.pool[k]);
    }
  }

  // ----- what a step of one builder leaves alone -----

  datatype Seen = Seen(builders: seq<Builder>, windows: seq<Fragment>)

  /** Windows out of reach keep their bytes and stay out of reach. */
  twostate lemma StillPresented(h: Seen, new i: nat, new bytes: seq<byte>)
    requires i < |h.builders| && old(Presented(h.builders, h.windows, bytes)) && h.builders[i].Valid()
    requires Respects(old(h.builders[i].open), h.builders[i].open)
    requires forall j :: 0 <= j < |h.builders| && j != i ==> unchanged(h.builders[j])
    requires forall m :: 0 <= m < |h.windows| && h.windows[m].data !in old(h.builders[i].open.SpareArray()) ==>
               unchanged(h.windows[m].data)
    ensures Presented(h.builders, h.windows, bytes)
  {
    Untouched(Held(old(h.builders[i].open), h.windows));
    StaysClear(Held(old(h.builders[i].open), h.windows), h.builders[i].open);
  }

  /** And where no builder and no array they lie on has changed, all the more. */
  twostate lemma PresentedKept(h: Seen, new bytes: seq<byte>)
    requires old(Presented(h.builders, h.windows, bytes))
    requires forall j :: 0 <= j < |h.builders| ==> unchanged(h.builders[j])
    requires forall m :: 0 <= m < |h.windows| ==> unchanged(h.windows[m].data)
    ensures Presented(h.builders, h.windows, bytes)
  {
    FlatKept(h.windows);
  }

  /** What builder i may have written, in a step that leaves the others and all buffers but one alone. */
  twostate predicate Stepped(b: World, new i: nat, new given: int)
    reads *
  {
    && i < |b.builders| && b.builders[i].Valid() && old(b.builders[i].Valid())
    && Respects(old(b.builders[i].open), b.builders[i].open)
    && (forall j :: 0 <= j < |b.builders| && j != i ==> unchanged(b.builders[j]))
    && (forall k :: 0 <= k < |b.pool| && k != given ==> unchanged(b.pool[k]))
    && (forall j, m :: 0 <= j < |b.builders| && j != i && 0 <= m < |b.builders[j].open.fragments| ==>
          b.builders[j].open.fragments[m].data !in old(b.builders[i].open.SpareArray()) ==>
            unchanged(b.builders[j].open.fragments[m].data))
    && (forall k, m :: 0 <= k < |b.pool| && k != given && 0 <= m < |b.pool[k].fragments| ==>
          b.pool[k].fragments[m].data !in old(b.builders[i].open.SpareArray()) ==>
            unchanged(b.pool[k].fragments[m].data))
  }

  /** A world, what it presents, and the windows one of its builders is about to take over. */
  datatype Moment = Moment(b: World, w: Scene, donor: seq<Fragment>)

  twostate lemma OtherBuilder(m: Moment, new i: nat, new given: int, new j: nat)
    requires old(Agrees(m.b, m.w)) && Stepped(m.b, i, given) && j < |m.b.builders| && j != i
    ensures BuilderAgrees(m.b.builders, j, m.w.builders[j])
  {
    var builders, u := m.b.builders, m.w.builders[j];
    assert old(BuilderAgrees(builders, j, u));
    var ws := u.open.Shown();
    forall n | 0 <= n < |ws| ensures ws[n].data == builders[j].open.fragments[n].data {
    }
    StillPresented(Seen(builders, ws), i, u.content);
  }

  twostate lemma OtherBuffer(m: Moment, new i: nat, new given: int, new k: nat)
    requires old(Agrees(m.b, m.w)) && Stepped(m.b, i, given) && k < |m.b.pool| && k != given
    ensures BufferAgrees(m.b.builders, m.b.pool[k], m.w.pool[k])
  {
    var buffer, u := m.b.pool[k], m.w.pool[k];
    assert old(BufferAgrees(m.b.builders, buffer, u));
    assert buffer.fragments == u.fragments;
    StillPresented(Seen(m.b.builders, u.fragments), i, u.bytes);
  }

  datatype Two = Two(before: Open, other: Open)

  /** What is spare was spare, or is new. */
  twostate lemma SpareApart(p: Two, new after: Open)
    requires p.before.Ok() && p.other.Ok() && after.Ok() && SpareFrom(p.before, after)
    requires p.before.SpareArray() !! p.other.SpareArray()
    ensures after.SpareArray() !! p.other.SpareArray()
  {
  }

  twostate lemma StayApart(b: World, new i: nat, new given: int)
    requires old(Apart(b.builders)) && Stepped(b, i, given)
    ensures Apart(b.builders)
  {
    forall j, k | 0 <= j < k < |b.builders|
      ensures b.builders[j].open.SpareArray() !! b.builders[k].open.SpareArray()
    {
      assert old(b.builders[j].open.SpareArray() !! b.builders[k].open.SpareArray());
      if j == i {
        SpareApart(Two(old(b.builders[j].open), b.builders[k].open), b.builders[j].open);
      } else if k == i {
        SpareApart(Two(old(b.builders[k].open), b.builders[j].open), b.builders[k].open);
      }
    }
  }

  /** What one builder shows after a step is out of another's reach if what it showed and took was. */
  twostate lemma TracedClear(p: Two, new donor: seq<Fragment>, new after: Open)
    requires p.before.Ok() && p.other.Ok() && after.Ok() && Traced(p.before, donor, after)
    requires AllClear(p.other, p.before.Shown()) && AllClear(p.other, donor)
    requires p.before.SpareArray() !! p.other.SpareArray()
    ensures AllClear(p.other, after.Shown())
  {
    forall k | 0 <= k < |after.Shown()| ensures p.other.Clear(after.Shown()[k]) {
      var f := after.Shown()[k];
      assert TracedOne(p.before, donor, f);
      if f in p.before.Shown() {
        var m :| 0 <= m < |p.before.Shown()| && p.before.Shown()[m] == f;
        assert p.other.Clear(p.before.Shown()[m]);
      } else if f in donor {
        var m :| 0 <= m < |donor| && donor[m] == f;
        assert p.other.Clear(donor[m]);
      }
    }
  }

  /** The builder that took the step, as it is now. */
  twostate lemma Stepper(m: Moment, new i: nat, new given: int, new u: BuilderView)
    requires old(Agrees(m.b, m.w)) && Stepped(m.b, i, given) && old(OutOfReach(m.b.builders, m.donor))
    requires Traced(old(m.b.builders[i].open), m.donor, m.b.builders[i].open)
    requires var x := m.b.builders[i]; u == BuilderView(x.config, x.open, x.finished, x.Content())
    ensures BuilderAgrees(m.b.builders, i, u)
  {
    var builders := m.b.builders;
    var after := builders[i].open;
    assert old(BuilderAgrees(builders, i, m.w.builders[i]));
    forall j | 0 <= j < |builders| ensures builders[j].Valid() && AllClear(builders[j].open, after.Shown()) {
      if j == i {
        ShownClear(after);
      } else {
        TracedClear(Two(old(builders[i].open), old(builders[j].open)), m.donor, after);
      }
    }
  }

  /** After a step of builder i, which took from buffer `given` or from none. */
  twostate lemma AllAgree(m: Moment, new i: nat, new given: int, new u: BuilderView)
    requires old(Agrees(m.b, m.w)) && Stepped(m.b, i, given) && old(OutOfReach(m.b.builders, m.donor))
    requires Traced(old(m.b.builders[i].open), m.donor, m.b.builders[i].open)
    requires var x := m.b.builders[i]; u == BuilderView(x.config, x.open, x.finished, x.Content())
    ensures Apart(m.b.builders)
    ensures BuilderAgrees(m.b.builders, i, u)
    ensures forall j :: 0 <= j < |m.b.builders| && j != i ==> BuilderAgrees(m.b.builders, j, m.w.builders[j])
    ensures forall k :: 0 <= k < |m.b.pool| && k != given ==> BufferAgrees(m.b.builders, m.b.pool[k], m.w.pool[k])
  {
    StayApart(m.b, i, given);
    Stepper(m, i, given, u);
    forall j | 0 <= j < |m.b.builders| && j != i ensures BuilderAgrees(m.b.builders, j, m.w.builders[j]) {
      OtherBuilder(m, i, given, j);
    }
    forall k | 0 <= k < |m.b.pool| && k != given ensures BufferAgrees(m.b.builders, m.b.pool[k], m.w.pool[k]) {
      OtherBuffer(m, i, given, k);
    }
  }

  /** After a step of builder i alone. */
  twostate lemma OneStepped(m: Moment, new i: nat, new u: BuilderView)
    requires old(Agrees(m.b, m.w)) && Stepped(m.b, i, -1) && old(OutOfReach(m.b.builders, m.donor))
    requires Traced(old(m.b.builders[i].open), m.donor, m.b.builders[i].open)
    requires var x := m.b.builders[i]; u == BuilderView(x.config, x.open, x.finished, x.Content())
    ensures Agrees(m.b, m.w.(builders := m.w.builders[i := u]))
  {
    AllAgree(m, i, -1, u);
  }

  /** After a step of builder i that took from buffer k. */
  twostate lemma TwoStepped(m: Moment, new i: nat, new k: nat, new u: BuilderView, new g: BufferView)
    requires old(Agrees(m.b, m.w)) && Stepped(m.b, i, k) && k < |m.b.pool| && old(OutOfReach(m.b.builders, m.donor))
    requires Traced(old(m.b.builders[i].open), m.donor, m.b.builders[i].open)
    requires var x := m.b.builders[i]; u == BuilderView(x.config, x.open, x.finished, x.Content())
    requires BufferAgrees(m.b.builders, m.b.pool[k], g)
    ensures Agrees(m.b, Scene(m.w.builders[i := u], m.w.pool[k := g]))
  {
    AllAgree(m, i, k, u);
  }

  /** No builder has changed, and of the buffers at most this one. */
  twostate predicate Untouching(b: World, new given: int)
    reads *
  {
    && (forall j :: 0 <= j < |b.builders| ==> unchanged(b.builders[j]))
    && (forall k :: 0 <= k < |b.pool| && k != given ==> unchanged(b.pool[k]))
    && (forall j, n :: 0 <= j < |b.builders| && 0 <= n < |b.builders[j].open.fragments| ==>
          unchanged(b.builders[j].open.fragments[n].data))
    && (forall k, n :: 0 <= k < |b.pool| && k != given && 0 <= n < |b.pool[k].fragments| ==>
          unchanged(b.pool[k].fragments[n].data))
  }

  twostate lemma BuilderUntouched(m: Moment, new given: int, new j: nat)
    requires old(Agrees(m.b, m.w)) && Untouching(m.b, given) && j < |m.b.builders|
    ensures BuilderAgrees(m.b.builders, j, m.w.builders[j])
  {
    var builders := m.b.builders;
    assert old(BuilderAgrees(builders, j, m.w.builders[j]));
    var ws := m.w.builders[j].open.Shown();
    forall n | 0 <= n < |ws| ensures ws[n].data == builders[j].open.fragments[n].data {
    }
    PresentedKept(Seen(builders, ws), m.w.builders[j].content);
  }

  twostate lemma BufferUntouched(m: Moment, new given: int, new k: nat)
    requires old(Agrees(m.b, m.w)) && Untouching(m.b, given) && k < |m.b.pool| && k != given
    ensures BufferAgrees(m.b.builders, m.b.pool[k], m.w.pool[k])
  {
    assert old(BufferAgrees(m.b.builders, m.b.pool[k], m.w.pool[k]));
    assert m.b.pool[k].fragments == m.w.pool[k].fragments;
    PresentedKept(Seen(m.b.builders, m.w.pool[k].fragments), m.w.pool[k].bytes);
  }

  /** New objects alone: everything alive is as it was. */
  twostate lemma NothingTouched(m: Moment)
    requires old(Agrees(m.b, m.w)) && Untouching(m.b, -1)
    ensures Agrees(m.b, m.w)
  {
    forall j | 0 <= j < |m.b.builders| ensures BuilderAgrees(m.b.builders, j, m.w.builders[j]) {
      BuilderUntouched(m, -1, j);
    }
    forall k | 0 <= k < |m.b.pool| ensures BufferAgrees(m.b.builders, m.b.pool[k], m.w.pool[k]) {
      BufferUntouched(m, -1, k);
    }
  }

  /** One buffer has other windows, out of reach; nothing else has changed. */
  twostate lemma OneTrimmed(m: Moment, new k: nat, new g: BufferView)
    requires old(Agrees(m.b, m.w)) && k < |m.b.pool| && Untouching(m.b, k)
    requires BufferAgrees(m.b.builders, m.b.pool[k], g)
    ensures Agrees(m.b, m.w.(pool := m.w.pool[k := g]))
  {
    forall j | 0 <= j < |m.b.builders| ensures BuilderAgrees(m.b.builders, j, m.w.builders[j]) {
      BuilderUntouched(m, k, j);
    }
    forall n | 0 <= n < |m.b.pool| && n != k ensures BufferAgrees(m.b.builders, m.b.pool[n], m.w.pool[n]) {
      BufferUntouched(m, k, n);
    }
  }

  /** One buffer more, out of everyone's reach. */
  lemma OneMoreBuffer(b: World, w: Scene, buffer: FragmentedBuffer, u: BufferView)
    requires Agrees(b, w) && BufferAgrees(b.builders, buffer, u) && buffer !in b.pool
    ensures Agrees(b.(pool := b.pool + [buffer]), w.(pool := w.pool + [u]))
  {
  }
}
