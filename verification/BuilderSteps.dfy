/**
 The steps a builder takes on its fragments: growing, filling, packing, splicing,
 slicing and publishing (src/bytes/fragmented_buffer_builder.cc).
 */
module BuilderSteps {
  import opened Units
  import opened Fragments
  import opened FragmentedBuffers
  import opened OpenTail

  /** A new tail in new storage, unless that would pass the fragment or the retained bound. */
  method GrowTail(config: Config, o: Open, requested: nat) returns (r: Option<Open>)
    requires Shaped(config, o)
    ensures Flat(o.Shown()) == old(Flat(o.Shown()))
    ensures r.Some? <==> Opens(config, o, requested)
    ensures r.Some? ==>
      && Shaped(config, r.value) && Opened(config, o, requested, r.value)
      && fresh(r.value.Tail().data)
      && Flat(r.value.Shown()) == old(Flat(o.Shown()))
  {
    if |o.fragments| == config.maxFragments {
      return None;
    }
    var allocation := NextAllocation(config, o.last, requested);
    if o.retained + allocation > config.maxRetained {
      return None;
    }
    NextAllocationBounds(config, o.last, requested);
    var storage := new byte[allocation];
    FlatKept(o.Shown());
    var f := Fragment(storage, 0, allocation, allocation);
    var grown := o.Push(f, 0).(last := allocation);
    PushOpens(config, o, requested, f, grown);
    return Some(grown);
  }

  lemma PushOpens(config: Config, o: Open, requested: nat, f: Fragment, grown: Open)
    requires Shaped(config, o) && f.Ok() && f.len == f.retained == NextAllocation(config, o.last, requested)
    requires |o.fragments| < config.maxFragments && o.retained + f.retained <= config.maxRetained
    requires forall i :: 0 <= i < |o.fragments| ==> o.fragments[i].data != f.data
    requires grown == o.Push(f, 0).(last := f.len)
    ensures Shaped(config, grown) && Opened(config, o, requested, grown) && grown.Tail() == f
    ensures Flat(grown.Shown()) == Flat(o.Shown())
  {
    NextAllocationBounds(config, o.last, requested);
    ShapedPush(config, o, f, 0);
    FlatShown(grown);
  }

  /** As much of `src` as the tail has room for. */
  method FillTail(config: Config, o: Open, src: seq<byte>) returns (n: nat, r: Open)
    requires Shaped(config, o)
    modifies o.SpareArray()
    ensures n == Min(o.Capacity(), |src|) && r == o.Wrote(n) && Shaped(config, r)
    ensures Flat(r.Shown()) == old(Flat(o.Shown())) + src[..n]
    ensures o.Capacity() > 0 ==> WrittenOnly(o.Tail(), o.used, o.Tail().len)
  {
    n := Min(o.Capacity(), |src|);
    var front := src[..n];
    if n > 0 {
      WriteTail(o, front);
    }
    ShapedWrote(config, o, n);
    r := o.Wrote(n);
  }

  /** As much of `src` as fits a tail that was opened for it behind o, which was full. */
  method FillOpened(config: Config, o: Open, t: Open, src: seq<byte>) returns (n: nat, q: Open)
    requires Shaped(config, o) && o.Capacity() == 0 && src != []
    requires Shaped(config, t) && Opened(config, o, |src|, t)
    modifies t.Tail().data
    ensures var size := NextAllocation(config, o.last, |src|);
      n == Min(|src|, size) && Shaped(config, q) && Filled(o, size, n, q)
    ensures q.fragments == t.fragments && Flat(q.Shown()) == old(Flat(t.Shown())) + src[..n]
  {
    n, q := FillTail(config, t, src);
    OpenedFilled(config, o, |src|, t, n);
  }

  /** One round of an append to a full tail: as much of `src`, which is `need` bytes, as fits a new one. */
  method Fill(config: Config, o: Open, src: seq<byte>, ghost need: nat) returns (r: Option<Open>, n: nat)
    requires Shaped(config, o) && o.Capacity() == 0 && src != [] && need == |src|
    ensures r.Some? <==> Opens(config, o, need)
    ensures r.Some? ==>
      && Shaped(config, r.value) && r.value.last == NextAllocation(config, o.last, need)
      && n == Min(need, r.value.last) && Filled(o, r.value.last, n, r.value)
    ensures r.Some? ==>
      fresh(r.value.Tail().data) && Flat(r.value.Shown()) == old(Flat(o.Shown())) + src[..n]
  {
    n := 0;
    r := GrowTail(config, o, |src|);
    if r.Some? {
      var q;
      n, q := FillOpened(config, o, r.value, src);
      r := Some(q);
    }
  }

  /** The same as a round of an append. */
  method FillRound(config: Config, o: Open, r: Open, src: seq<byte>, ghost all: seq<nat>, ghost written: nat,
                   ghost need: nat, ghost done: seq<nat>, ghost left: seq<nat>)
    returns (q: Option<Open>, n: nat, ghost rest: nat, ghost did: seq<nat>, ghost todo: seq<nat>)
    requires Rounds(config, o, all, r, written, need, done, left) && 0 < need == |src|
    ensures q.None? ==> Flat(r.Shown()) == old(Flat(r.Shown())) && !Affords(config, o, all)
    ensures
      q.Some? ==>
      0 < n <= need && rest == need - n && Rounds(config, o, all, q.value, written + n, rest, did, todo)
    ensures q.Some? ==> q.value.fragments != [] && q.value.Sealed() == r.fragments && fresh(q.value.Tail().data)
    ensures q.Some? ==> Flat(q.value.Shown()) == old(Flat(r.Shown())) + src[..n]
  {
    rest, did, todo := need, done, left;
    q, n := Fill(config, r, src, need);
    if q.None? {
      FlatKept(r.Shown());
      RoundsStuck(config, o, all, r, written, need, done, left);
    } else {
      rest, did, todo := RoundsFilled(config, o, all, r, written, need, done, left, n, q.value);
    }
  }

  /** And as a step through the bytes: `before` is what was shown before the first of them. */
  method NextRound(config: Config, o: Open, r: Open, bytes: seq<byte>, written: nat, ghost before: seq<byte>,
                   ghost all: seq<nat>, ghost need: nat, ghost done: seq<nat>, ghost left: seq<nat>)
    returns (ok: bool, q: Open, w: nat, ghost rest: nat, ghost did: seq<nat>, ghost todo: seq<nat>)
    requires Rounds(config, o, all, r, written, need, done, left) && 0 < need == |bytes| - written
    requires Flat(r.Shown()) == before + bytes[..written]
    ensures w + rest == |bytes| && Rounds(config, o, all, q, w, rest, did, todo)
    ensures Flat(q.Shown()) == before + bytes[..w]
    ensures q == r || (q.fragments != [] && q.Sealed() == r.fragments && fresh(q.Tail().data))
    ensures if ok then written < w else !Affords(config, o, all)
  {
    ghost var shown := Flat(r.Shown());
    var next, n;
    next, n, rest, did, todo := FillRound(config, o, r, bytes[written..], all, written, need, done, left);
    ok := next.Some?;
    if ok {
      q, w := next.value, written + n;
      Onward(before, shown, Flat(q.Shown()), bytes, written, n);
    } else {
      q, w, rest, did, todo := r, written, need, done, left;
    }
  }

  /** The rounds of an append once the tail is full: they write new storage alone, and come to an end exactly
      when there are slots and backing for all the tails. */
  method AppendNew(config: Config, o: Open, bytes: seq<byte>, ghost all: seq<nat>) returns (ok: bool, r: Open)
    requires Shaped(config, o) && o.Capacity() == 0 && all == Tails(config, o.last, |bytes|)
    ensures Shaped(config, r) && Beyond(config, o, r) && Added(o, r)
    ensures ok <==> Affords(config, o, all)
    ensures ok ==> Stretched(o, all, |bytes|, r) && Flat(r.Shown()) == old(Flat(o.Shown())) + bytes
  {
    ghost var before, done, left := Flat(o.Shown()), [], all;
    ghost var need: nat := |bytes|;
    var written: nat := 0;
    ok, r := true, o;
    RoundsStart(config, o, all, need);
    assert bytes[..0] == [];
    while written < |bytes| && ok
      invariant written + need == |bytes| && Rounds(config, o, all, r, written, need, done, left)
      invariant Flat(r.Shown()) == before + bytes[..written]
      invariant Added(o, r) && (ok || !Affords(config, o, all))
      decreases ok, |bytes| - written
    {
      ghost var was := r;
      ok, r, written, need, done, left := NextRound(config, o, r, bytes, written, before, all, need, done, left);
      AddedRound(o, was, r);
    }
    RoundsBeyond(config, o, all, r, written, need, done, left);
    if ok {
      RoundsDone(config, o, all, r, written, need, done, left);
      Everything(bytes, written);
    }
  }

  lemma Everything(bytes: seq<byte>, n: nat)
    requires n == |bytes|
    ensures bytes[..n] == bytes
  {
  }

  lemma Onward(before: seq<byte>, shown: seq<byte>, after: seq<byte>, bytes: seq<byte>, written: nat, n: nat)
    requires written + n <= |bytes|
    requires shown == before + bytes[..written] && after == shown + bytes[written..][..n]
    ensures after == before + bytes[..written + n]
  {
  }

  lemma FrontAndRest(bytes: seq<byte>, n: nat)
    requires n <= |bytes|
    ensures bytes == bytes[..n] + bytes[n..]
  {
  }

  /** The rounds for what the tail had no room for, if anything. */
  method WriteRest(config: Config, o: Open, bytes: seq<byte>, ghost more: nat, ghost all: seq<nat>)
    returns (ok: bool, r: Open)
    requires Shaped(config, o) && (bytes != [] ==> o.Capacity() == 0)
    requires more == |bytes| && all == Tails(config, o.last, more)
    ensures Shaped(config, r) && Beyond(config, o, r) && Added(o, r)
    ensures ok <==> Affords(config, o, all)
    ensures ok ==> Stretched(o, all, more, r) && Flat(r.Shown()) == old(Flat(o.Shown())) + bytes
  {
    if bytes == [] {
      return true, o;
    }
    ok, r := AppendNew(config, o, bytes, all);
  }

  /** The tail's room first, then tail after tail; on failure as far as it got. */
  method WriteOn(config: Config, o: Open, bytes: seq<byte>) returns (ok: bool, r: Open)
    requires Shaped(config, o)
    modifies o.SpareArray()
    ensures Shaped(config, r) && WroteOn(o, config, r)
    ensures ok ==> Flat(r.Shown()) == old(Flat(o.Shown())) + bytes
    ensures ok <==> Accepts(config, o, |bytes|)
    ensures ok ==> Appended(config, o, |bytes|, r)
  {
    ghost var before, more := Flat(o.Shown()), Past(|bytes|, o.Capacity());
    var n;
    n, r := FillTail(config, o, bytes);
    ghost var filled, all := Flat(r.Shown()), Tails(config, o.last, more);
    var rest := bytes[n..];
    ok, r := WriteRest(config, r, rest, more, all);
    WroteThenAdded(o, config, n, r);
    if ok {
      FrontAndRest(bytes, n);
      Glued(before, filled, Flat(r.Shown()), bytes[..n], rest, bytes);
    }
  }

  /** Copies the bytes in. On failure it rewinds to where it started, though spare bytes may have been written. */
  method AppendBytes(config: Config, o: Open, bytes: seq<byte>) returns (ok: bool, r: Open)
    requires Shaped(config, o)
    modifies o.SpareArray()
    ensures Shaped(config, r) && Keeps(o, [], r)
    ensures ok <==> Accepts(config, o, |bytes|)
    ensures ok ==> Appended(config, o, |bytes|, r) && Flat(r.Shown()) == old(Flat(o.Shown())) + bytes
    ensures !ok ==> r == o && Flat(r.Shown()) == old(Flat(o.Shown()))
  {
    ok, r := WriteOn(config, o, bytes);
    TracedBeyond(o, config, r);
    if !ok {
      RewindRestores(config, o, r);
      r := Rewind(r, |o.fragments|, o.used, o.last, o.retained);
      ShownClear(o);
      Untouched(Held(o, o.Shown()));
      TracedSame(o, []);
    }
  }

  /** A tail with room for n more bytes: the present one, or a new one. */
  method Room(config: Config, o: Open, n: nat) returns (r: Option<Open>)
    requires Shaped(config, o) && 0 < n <= config.maxFragment
    ensures Flat(o.Shown()) == old(Flat(o.Shown())) && (r.Some? <==> n <= o.Capacity() || Opens(config, o, n))
    ensures r.Some? ==>
      && Shaped(config, r.value) && n <= r.value.Capacity() && Flat(r.value.Shown()) == old(Flat(o.Shown()))
      && Reserved(config, o, n, r.value) && (r.value == o || fresh(r.value.Tail().data))
  {
    if o.Capacity() < n {
      r := GrowTail(config, o, n);
      NextAllocationBounds(config, o.last, n);
    } else {
      r := Some(o);
    }
  }

  /** And nothing else is touched. */
  method MakeRoom(config: Config, o: Open, n: nat) returns (r: Option<Open>)
    requires Shaped(config, o) && 0 < n <= config.maxFragment
    ensures Flat(o.Shown()) == old(Flat(o.Shown())) && (r.Some? <==> ReserveFits(config, o, n))
    ensures r.Some? ==>
      && Shaped(config, r.value) && n <= r.value.Capacity() && Flat(r.value.Shown()) == old(Flat(o.Shown()))
      && Reserved(config, o, n, r.value) && Keeps(o, [], r.value)
  {
    r := Room(config, o, n);
    if r.Some? && r.value != o {
      PushKeeps(o, r.value);
    } else {
      KeepsSame(o, []);
    }
  }

  /** A small range goes into the tail, which is replaced if it lacks the room. */
  method PackIn(config: Config, o: Open, src: seq<byte>, ghost n: nat) returns (r: Option<Open>)
    requires Shaped(config, o) && 0 < n == |src| <= Min(config.maxFragment, PACK_COPY_THRESHOLD)
    modifies o.SpareArray()
    ensures r.Some? <==> CopyFits(config, o, n)
    ensures r.None? ==> Flat(o.Shown()) == old(Flat(o.Shown())) && Keeps(o, [], o)
    ensures r.Some? ==>
      && Shaped(config, r.value) && Keeps(o, [], r.value) && CopiedIn(config, o, n, r.value)
      && Flat(r.value.Shown()) == old(Flat(o.Shown())) + src
  {
    if |src| <= o.Capacity() {
      ShapedWrote(config, o, |src|);
      WriteTail(o, src);
      TracedWrote(o, |src|);
      r := Some(o.Wrote(|src|));
    } else {
      r := PackNew(config, o, src, n);
      if r.None? {
        KeepsSame(o, []);
      }
    }
  }

  method PackNew(config: Config, o: Open, src: seq<byte>, ghost n: nat) returns (r: Option<Open>)
    requires Shaped(config, o) && o.Capacity() < n == |src| <= Min(config.maxFragment, PACK_COPY_THRESHOLD)
    ensures r.Some? <==> CopyFits(config, o, n)
    ensures r.None? ==> Flat(o.Shown()) == old(Flat(o.Shown()))
    ensures r.Some? ==>
      && Shaped(config, r.value) && Keeps(o, [], r.value) && CopiedIn(config, o, n, r.value)
      && Flat(r.value.Shown()) == old(Flat(o.Shown())) + src
  {
    r := GrowTail(config, o, |src|);
    if r.None? {
      return;
    }
    var t := r.value;
    ghost var after := OpenedWrote(config, o, n, t);
    WriteTail(t, src);
    r := Some(t.Wrote(|src|));
    PushKeeps(o, after);
  }

  lemma OpenedWrote(config: Config, o: Open, n: nat, t: Open) returns (after: Open)
    requires Shaped(config, o) && o.Capacity() < n <= Min(config.maxFragment, PACK_COPY_THRESHOLD)
    requires Shaped(config, t) && Opened(config, o, n, t)
    ensures n <= t.Capacity() && after == t.Wrote(n) && Shaped(config, after) && CopiedIn(config, o, n, after)
    ensures after.fragments != [] && after.Sealed() == o.Shown() && after.Tail() == t.Tail()
  {
    NextAllocationBounds(config, o.last, n);
    ShapedWrote(config, t, n);
    after := t.Wrote(n);
  }

  /** A larger one is cloned into storage of its own. */
  method CloneIn(config: Config, o: Open, src: seq<byte>, ghost n: nat) returns (r: Option<Open>)
    requires Shaped(config, o) && PACK_COPY_THRESHOLD < n == |src| <= config.maxFragment
    ensures r.Some? <==> CopyFits(config, o, n)
    ensures r.None? ==> Flat(o.Shown()) == old(Flat(o.Shown())) && Keeps(o, [], o)
    ensures r.Some? ==>
      && Shaped(config, r.value) && Keeps(o, [], r.value) && CopiedIn(config, o, n, r.value)
      && Flat(r.value.Shown()) == old(Flat(o.Shown())) + src
  {
    if |o.fragments| == config.maxFragments || o.retained + |src| > config.maxRetained {
      KeepsSame(o, []);
      return None;
    }
    var storage := new byte[|src|](i requires 0 <= i < |src| => src[i]);
    FlatKept(o.Shown());
    var f := Fragment(storage, 0, |src|, |src|);
    assert f.Cut(0, |src|).Bytes() == src;
    ShapedPush(config, o, f, |src|);
    FlatShown(o.Push(f, |src|));
    PushKeeps(o, o.Push(f, |src|));
    return Some(o.Push(f, |src|));
  }

  method CopyRange(config: Config, o: Open, src: seq<byte>, ghost n: nat) returns (r: Option<Open>)
    requires Shaped(config, o) && n == |src| <= config.maxFragment
    modifies o.SpareArray()
    ensures r.Some? <==> CopyFits(config, o, n)
    ensures r.None? ==> Flat(o.Shown()) == old(Flat(o.Shown())) && Keeps(o, [], o)
    ensures r.Some? ==>
      && Shaped(config, r.value) && Keeps(o, [], r.value) && CopiedIn(config, o, n, r.value)
      && Flat(r.value.Shown()) == old(Flat(o.Shown())) + src
  {
    if src == [] {
      KeepsSame(o, []);
      r := Some(o);
    } else if |src| <= PACK_COPY_THRESHOLD {
      r := PackIn(config, o, src, n);
    } else {
      r := CloneIn(config, o, src, n);
    }
  }

  /** One contiguous range, in whole. Its bytes must not overlap those that are written. */
  method CopyIn(config: Config, o: Open, src: Fragment) returns (r: Option<Open>)
    requires Shaped(config, o) && src.InRange() && src.len <= config.maxFragment && o.Clear(src)
    modifies o.SpareArray()
    ensures r.Some? <==> CopyFits(config, o, src.len)
    ensures r.None? ==> Flat(o.Shown()) == old(Flat(o.Shown())) && Keeps(o, [], o)
    ensures r.Some? ==>
      && Shaped(config, r.value) && Keeps(o, [], r.value) && CopiedIn(config, o, src.len, r.value)
      && Flat(r.value.Shown()) == old(Flat(o.Shown())) + old(src.Bytes())
  {
    var bytes := src.data[src.off..src.off + src.len];
    assert bytes == src.Bytes();
    r := CopyRange(config, o, bytes, src.len);
  }

  /** How many complete leading fragments fit `room` bytes, and the backing of the others. */
  method CountPacked(gs: seq<Fragment>, room: nat) returns (packed: nat, backing: nat)
    ensures packed == PackCount(gs, room) && backing == Retained(gs[packed..])
  {
    packed, backing := 0, Retained(gs);
    var left: nat := room;
    assert gs[0..] == gs;
    while packed < |gs| && gs[packed].len <= left
      invariant packed <= |gs| && packed + PackCount(gs[packed..], left) == PackCount(gs, room)
      invariant backing == Retained(gs[packed..])
    {
      assert gs[packed..][1..] == gs[packed + 1..];
      left := left - gs[packed].len;
      backing := Sub64(backing, gs[packed].retained);
      packed := packed + 1;
    }
  }

  /** The bytes and the backing of the first `count` fragments. */
  method SumLeading(gs: seq<Fragment>, count: nat) returns (logical: nat, backing: nat)
    requires count <= |gs| && Fits(Total(gs)) && Fits(Retained(gs))
    ensures logical == Total(gs[..count]) && backing == Retained(gs[..count])
  {
    logical, backing := 0, 0;
    for i := 0 to count
      invariant logical == Total(gs[..i]) && backing == Retained(gs[..i])
    {
      TotalAt(gs, i);
      logical := Add64(logical, gs[i].len);
      backing := Add64(backing, gs[i].retained);
    }
  }

  /** Part way through the slice loop: `rest` is still to be visited. */
  ghost predicate Sharing(target: seq<Fragment>, shared: seq<Fragment>, kept: nat, rest: seq<Fragment>,
                          skip: nat, remaining: nat)
  {
    && target == shared + Window(rest, skip, remaining) && kept == Retained(shared)
    && (remaining == 0 || skip + remaining <= Total(rest))
  }

  lemma ShareOne(target: seq<Fragment>, shared: seq<Fragment>, kept: nat, rest: seq<Fragment>,
                 skip: nat, remaining: nat, take: nat)
    returns (next: seq<Fragment>)
    requires rest != [] && skip < rest[0].len && remaining > 0 && take == Min(rest[0].len - skip, remaining)
    requires Sharing(target, shared, kept, rest, skip, remaining)
    ensures next == rest[1..]
    ensures Sharing(target, shared + [rest[0].Cut(skip, take)], kept + rest[0].retained, next, 0, remaining - take)
  {
    next := rest[1..];
    var cut := rest[0].Cut(skip, take);
    TotalSnoc(shared, cut);
    Regroup(shared, cut, Window(next, 0, remaining - take));
  }

  /** The slice loop of a builder: `fs` is what it shows, and may hold empty fragments. The fragment
      ceiling and the shortage cannot be met inside what is shown. */
  method ShareWindows(fs: seq<Fragment>, offset: nat, length: nat)
    returns (failed: Option<Errc>, shared: seq<Fragment>, kept: nat)
    requires |fs| <= MAX_FRAGMENTS && offset + length <= Total(fs) && Fits(Retained(fs))
    ensures failed.None? && shared == Window(fs, offset, length) && kept == Retained(shared)
  {
    ghost var target, rest := Window(fs, offset, length), fs;
    shared, kept := [], 0;
    var skip: nat, remaining: nat, index: nat := offset, length, 0;
    while index < |fs| && remaining != 0
      invariant index <= |fs| && |shared| <= index && rest == fs[index..]
      invariant kept + Retained(rest) <= Retained(fs) && Sharing(target, shared, kept, rest, skip, remaining)
    {
      assert fs[index] == rest[0];
      var used := fs[index].len;
      if skip >= used {
        rest := rest[1..];
        skip := skip - used;
        index := index + 1;
        continue;
      }
      var take := Min(used - skip, remaining);
      if |shared| == MAX_FRAGMENTS {
        return Some(ResourceExhausted), shared, kept;
      }
      rest := ShareOne(target, shared, kept, rest, skip, remaining, take);
      shared := shared + [fs[index].Cut(skip, take)];
      kept := Add64(kept, fs[index].retained);
      skip := 0;
      remaining := remaining - take;
      index := index + 1;
    }
    if remaining != 0 {
      return Some(OutOfRange), shared, kept;
    }
    return None, shared, kept;
  }

  /** Erases the empty fragments, and their backing from the account. */
  method DropEmpty(fs: seq<Fragment>, backing: nat) returns (dense: seq<Fragment>, kept: nat)
    requires backing == Retained(fs)
    ensures dense == Dense(fs) && kept == Retained(dense)
  {
    dense, kept := fs, backing;
    var index: nat := 0;
    ghost var target := Dense(fs);
    assert fs[..0] == [] && fs[0..] == fs;
    while index < |dense|
      invariant index <= |dense| && kept == Retained(dense)
      invariant target == dense[..index] + Dense(dense[index..])
    {
      var rest := dense[index + 1..];
      assert dense[index..][1..] == rest;
      if dense[index].len != 0 {
        Regroup(dense[..index], dense[index], Dense(rest));
        assert dense[..index + 1] == dense[..index] + [dense[index]];
        index := index + 1;
        continue;
      }
      TotalAt(dense, index);
      TotalSplit(dense, index + 1);
      TotalConcat(dense[..index], rest);
      kept := Sub64(kept, dense[index].retained);
      assert (dense[..index] + rest)[..index] == dense[..index] && (dense[..index] + rest)[index..] == rest;
      dense := dense[..index] + rest;
    }
    assert dense[..index] == dense && dense[index..] == [];
  }

  /** One complete fragment, which may lie on the tail's own array, into the tail's room. */
  method PackOne(config: Config, ghost o: Open, r: Open, gs: seq<Fragment>, i: nat, ghost p: seq<seq<byte>>,
                 ghost before: seq<byte>)
    returns (q: Open)
    requires o.Ok() && o.fragments != [] && i < |gs|
    requires Packed(config, o, r, gs, p, i, before) && Total(gs) <= o.Capacity()
    requires gs[i].Ok() && gs[i].len > 0 && o.Clear(gs[i]) && gs[i].Bytes() == p[i]
    modifies o.Tail().data
    ensures Packed(config, o, q, gs, p, i + 1, before)
    ensures WrittenOnly(o.Tail(), o.used, o.Tail().len)
  {
    TotalAt(gs, i);
    var f := gs[i];
    ghost var shown := Flat(r.Shown());
    ShapedWrote(config, r, f.len);
    var bytes := f.data[f.off..f.off + f.len];
    assert bytes == p[i];
    WriteTail(r, bytes);
    q := r.Wrote(f.len);
    JoinSnoc(p, i);
    Glued(before, shown, Flat(q.Shown()), Join(p[..i]), bytes, Join(p[..i + 1]));
  }

  /** Copies complete fragments into the tail's room. */
  method PackLeading(config: Config, o: Open, gs: seq<Fragment>) returns (r: Open)
    requires Shaped(config, o) && Sound(gs) && AllClear(o, gs) && Total(gs) <= o.Capacity()
    modifies o.SpareArray()
    ensures r == o.Wrote(Total(gs)) && Shaped(config, r)
    ensures Flat(r.Shown()) == old(Flat(o.Shown())) + old(Flat(gs))
    ensures o.Capacity() > 0 ==> WrittenOnly(o.Tail(), o.used, o.Tail().len)
  {
    r := o;
    if gs == [] {
      return;
    }
    ghost var p, before := Views(gs), Flat(o.Shown());
    for index := 0 to |gs|
      invariant Packed(config, o, r, gs, p, index, before)
      invariant WrittenOnly(o.Tail(), o.used, o.Tail().len)
    {
      WindowKept(Held(o, gs), index);
      r := PackOne(config, o, r, gs, index, p, before);
    }
    PackedAll(config, o, r, gs, p, before);
  }

  /** Copies the complete leading fragments that fit the tail's room, up to the packing threshold, and
      splices the others in behind it. Both bounds are checked before anything is written. */
  method TakeFragments(config: Config, o: Open, gs: seq<Fragment>) returns (r: Option<Open>)
    requires Shaped(config, o) && Sound(gs) && AllClear(o, gs)
    modifies o.SpareArray()
    ensures r.None? ==> Flat(o.Shown()) == old(Flat(o.Shown())) && Flat(gs) == old(Flat(gs)) && Keeps(o, gs, o)
    ensures r.Some? <==> DonationFits(config, o, gs)
    ensures r.Some? ==>
      && Shaped(config, r.value) && Keeps(o, gs, r.value) && r.value == Donation(o, gs)
      && Flat(r.value.Shown()) == old(Flat(o.Shown())) + old(Flat(gs))
  {
    var packed, backing := CountPacked(gs, Min(PACK_COPY_THRESHOLD, o.Capacity()));
    FlatKept(o.Shown());
    FlatKept(gs);
    TracedSame(o, gs);
    if |o.fragments| + |gs| - packed > config.maxFragments || o.retained + backing > config.maxRetained {
      return None;
    }
    var taken := PackAndSplice(config, o, gs, packed);
    return Some(taken);
  }

  /** Some of a donor's fragments copied into the tail's room, the others taken over. */
  twostate lemma PackedKeeps(h: Held, new packed: nat, new t: Open, new back: seq<Fragment>)
    requires h.before.Ok() && AllOk(h.windows) && packed <= |h.windows| && back == h.windows[packed..]
    requires Total(h.windows[..packed]) <= h.before.Capacity() && t == h.before.Wrote(Total(h.windows[..packed]))
    requires Fits(t.retained + Retained(back))
    requires h.before.Capacity() > 0 ==> WrittenOnly(h.before.Tail(), h.before.used, h.before.Tail().len)
    ensures Splice(t, back).Ok() && Keeps(h.before, h.windows, Splice(t, back))
  {
    TracedWrote(h.before, Total(h.windows[..packed]));
    TracedDonor(h.before, t, back, h.windows);
  }

  method PackAndSplice(config: Config, o: Open, gs: seq<Fragment>, packed: nat) returns (r: Open)
    requires Shaped(config, o) && Sound(gs) && AllClear(o, gs) && packed <= |gs| && Total(gs[..packed]) <= o.Capacity()
    requires |o.fragments| + |gs| - packed <= config.maxFragments
    requires o.retained + Retained(gs[packed..]) <= config.maxRetained
    modifies o.SpareArray()
    ensures Shaped(config, r) && Keeps(o, gs, r) && r == Splice(o.Wrote(Total(gs[..packed])), gs[packed..])
    ensures Flat(r.Shown()) == old(Flat(o.Shown())) + old(Flat(gs))
  {
    var front, back := gs[..packed], gs[packed..];
    ghost var before, lead, rest, whole := Flat(o.Shown()), Flat(front), Flat(back), Flat(gs);
    SplitFlat(gs, packed);
    var t := PackLeading(config, o, front);
    Untouched(Held(o, back));
    ShapedSplice(config, t, back);
    r := Splice(t, back);
    Glued(before, Flat(t.Shown()), Flat(r.Shown()), lead, rest, whole);
    PackedKeeps(Held(o, gs), packed, t, back);
  }

  lemma SplitFlat(gs: seq<Fragment>, k: nat)
    requires k <= |gs| && AllOk(gs)
    ensures Flat(gs) == Flat(gs[..k]) + Flat(gs[k..])
  {
    assert gs == gs[..k] + gs[k..];
    FlatConcat(gs[..k], gs[k..]);
  }

  /** Makes a published buffer of what was shown. Neither of the two checks can fail. */
  method Publish(fs: seq<Fragment>, count: nat, backing: nat) returns (r: Result<FragmentedBuffer>)
    requires AllOk(fs) && |fs| <= MAX_FRAGMENTS
    requires count == Total(fs) <= MAX_BYTES && backing == Retained(fs) <= MAX_BYTES
    ensures r.Ok? && fresh(r.value) && r.value.Valid()
    ensures r.value.fragments == Dense(fs) && r.value.retained <= backing
    ensures r.value.Content() == old(Flat(fs))
  {
    var dense, kept := DropEmpty(fs, backing);
    DenseSound(fs);
    var total, _ := SumLeading(dense, |dense|);
    assert dense[..|dense|] == dense;
    if total != count {
      return Err(MalformedData);
    }
    if |dense| > MAX_FRAGMENTS {
      return Err(ResourceExhausted);
    }
    var published := new FragmentedBuffer.Of(dense, count, kept);
    FlatKept(fs);
    DenseSound(fs);
    return Ok(published);
  }

  lemma SplitBytes(whole: seq<byte>, lead: seq<byte>, rest: seq<byte>)
    requires whole == lead + rest
    ensures whole[..|lead|] == lead && whole[|lead|..] == rest
  {
  }

  /** The bytes of the first fragments, and of those behind them. */
  lemma LeadingBytes(gs: seq<Fragment>, k: nat, front: seq<Fragment>, rest: seq<Fragment>, n: nat)
    requires AllOk(gs) && k <= |gs| && front == gs[..k] && rest == gs[k..] && n == Total(front)
    ensures n <= |Flat(gs)| && Flat(front) == Flat(gs)[..n] && Flat(rest) == Flat(gs)[n..]
  {
    SplitFlat(gs, k);
    SplitBytes(Flat(gs), Flat(front), Flat(rest));
  }
}
