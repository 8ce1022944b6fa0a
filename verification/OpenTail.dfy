/**
 A list of fragments whose last one still has room to write: what it presents,
 which bytes are spare, and how it grows (src/bytes/fragmented_buffer_builder.cc
 and its header).
 */
module OpenTail {
  import opened Units
  import opened Fragments
  import opened SizeClasses

  const PACK_COPY_THRESHOLD: nat := 4096

  datatype Config = Config(initialFragment: nat, maxFragment: nat, maxTotal: nat, maxRetained: nat, maxFragments: nat) {
    predicate Valid() {
      && initialFragment > 0
      && maxTotal > 0
      && 0 < maxFragments <= MAX_FRAGMENTS
      && initialFragment <= maxFragment <= Min(maxTotal, MAX_CONTIGUOUS)
      && maxTotal <= maxRetained <= MAX_BYTES
    }
  }

  /** The size of the next tail: half again the previous one, at least what is asked for, never over
      the ceiling, and rounded to what the allocator serves when that fits. */
  function NextAllocation(config: Config, last: nat, requested: nat): nat
    requires config.Valid()
  {
    var ceiling := config.maxFragment;
    var grown: nat :=
      if last == 0 then config.initialFragment
      else if last > ceiling - last / 2 then ceiling
      else last + last / 2;
    var target := Min(Max(Min(grown, ceiling), requested), ceiling);
    var served := Served(target);
    if served <= ceiling then served else target
  }

  /** No tail was allocated yet, or the latest was within its bounds. */
  predicate LastOk(config: Config, last: nat) {
    last == 0 || config.initialFragment <= last <= config.maxFragment
  }

  lemma NextAllocationBounds(config: Config, last: nat, requested: nat)
    requires config.Valid() && LastOk(config, last)
    ensures var n := NextAllocation(config, last, requested);
      Max(config.initialFragment, Min(requested, config.maxFragment)) <= n <= config.maxFragment
  {
    ServedAtLeast(config.maxFragment);
    var ceiling := config.maxFragment;
    var grown: nat :=
      if last == 0 then config.initialFragment
      else if last > ceiling - last / 2 then ceiling
      else last + last / 2;
    ServedAtLeast(Min(Max(Min(grown, ceiling), requested), ceiling));
  }

  /** What is wanted of a new tail: what was asked for, and half as much again as the latest one, up to the ceiling. */
  function Wanted(config: Config, last: nat, requested: nat): nat {
    Min(config.maxFragment, Max(requested, if last == 0 then config.initialFragment else last + last / 2))
  }

  /** A tail is the least size the allocator serves exactly that covers what is wanted, if one is within the ceiling,
      and otherwise just what is wanted. */
  lemma NextAllocationLeast(config: Config, last: nat, requested: nat, m: nat)
    requires config.Valid() && LastOk(config, last)
    ensures var n, wanted := NextAllocation(config, last, requested), Wanted(config, last, requested);
      && wanted <= n <= config.maxFragment && (n == wanted || Served(n) == n)
      && (wanted <= m <= config.maxFragment && Served(m) == m ==> n <= m && Served(n) == n)
  {
    var wanted := Wanted(config, last, requested);
    ServedAtLeast(wanted);
    ServedIdempotent(wanted);
    if wanted <= m {
      ServedMonotone(wanted, m);
    }
  }

  lemma ServedAtLeast(n: nat)
    ensures n <= Served(n)
  {
    if n > 0 {
      ServedBounds(Max(n, MINIMUM_CELL));
    }
  }

  // ----- fragments with an open tail -----

  /** A builder's fragments and accounting. Of the last fragment `used` bytes have been written;
      `last` is the size of the latest tail allocation. */
  datatype Open = Open(fragments: seq<Fragment>, retained: nat, used: nat, last: nat) {
    ghost predicate Ok() {
      && AllOk(fragments)
      && if fragments == [] then used == 0 else used <= Tail().len
    }

    function Tail(): Fragment
      requires fragments != []
    {
      fragments[|fragments| - 1]
    }

    function Sealed(): seq<Fragment>
      requires fragments != []
    {
      fragments[..|fragments| - 1]
    }

    function Capacity(): nat
      requires Ok()
    {
      if fragments == [] then 0 else Tail().len - used
    }

    /** What is presented: all of each fragment but the tail, and what has been written of that. */
    function Shown(): (r: seq<Fragment>)
      requires Ok()
      ensures |r| == |fragments| && AllOk(r)
    {
      if fragments == [] then [] else Sealed() + [Tail().Cut(0, used)]
    }

    /** Seals the tail at what was written to it, and makes `f`, with n bytes written, the tail. */
    function Push(f: Fragment, n: nat): (o: Open)
      requires Ok() && f.Ok() && n <= f.len && Fits(retained + f.retained)
      ensures o.Ok() && o.fragments == Shown() + [f] && o.Tail() == f && o.Sealed() == Shown()
    {
      Open(Shown() + [f], Add64(retained, f.retained), n, last)
    }

    function Wrote(n: nat): Open
      requires Ok() && n <= Capacity()
    {
      this.(used := used + n)
    }

    /** No earlier fragment lies on the array of a tail with spare room. */
    ghost predicate Private()
      requires Ok()
    {
      Capacity() > 0 ==> forall i :: 0 <= i < |fragments| - 1 ==> fragments[i].data != Tail().data
    }

    /** A window that does not meet the spare bytes of the tail. */
    ghost predicate Clear(f: Fragment)
      requires Ok()
    {
      || Capacity() == 0
      || f.data != Tail().data
      || f.off + f.len <= Tail().off + used
      || Tail().off + Tail().len <= f.off
    }

    /** The one array a step may write: the tail's, while it has spare bytes. */
    ghost function SpareArray(): set<array<byte>>
      requires Ok()
    {
      if Capacity() == 0 then {} else {Tail().data}
    }
  }

  /** What holds of a builder even in the middle of an append. */
  ghost predicate Shaped(config: Config, o: Open) {
    && config.Valid()
    && o.Ok()
    && o.Private()
    && |o.fragments| <= config.maxFragments
    && o.retained == Retained(o.fragments) <= config.maxRetained
    && LastOk(config, o.last)
  }

  const NOTHING: Open := Open([], 0, 0, 0)

  lemma NothingShaped(config: Config)
    requires config.Valid()
    ensures Shaped(config, NOTHING) && NOTHING.Shown() == []
  {
  }

  lemma ShownTotals(o: Open)
    requires o.Ok()
    ensures Retained(o.Shown()) == Retained(o.fragments)
    ensures Total(o.Shown()) == if o.fragments == [] then 0 else Total(o.Sealed()) + o.used
  {
    if o.fragments != [] {
      assert o.fragments == o.Sealed() + [o.Tail()];
      TotalSnoc(o.Sealed(), o.Tail());
      TotalSnoc(o.Sealed(), o.Tail().Cut(0, o.used));
    }
  }

  lemma ShapedPush(config: Config, o: Open, f: Fragment, n: nat)
    requires Shaped(config, o) && f.Ok() && n <= f.len
    requires |o.fragments| < config.maxFragments && o.retained + f.retained <= config.maxRetained
    requires n < f.len ==> forall i :: 0 <= i < |o.fragments| ==> o.fragments[i].data != f.data
    ensures Shaped(config, o.Push(f, n))
    ensures Total(o.Push(f, n).Shown()) == Total(o.Shown()) + n
  {
    ShownTotals(o);
    TotalSnoc(o.Shown(), f);
    ShownTotals(o.Push(f, n));
  }

  lemma ShapedWrote(config: Config, o: Open, n: nat)
    requires Shaped(config, o) && n <= o.Capacity()
    ensures Shaped(config, o.Wrote(n))
    ensures Total(o.Wrote(n).Shown()) == Total(o.Shown()) + n
  {
    ShownTotals(o);
    ShownTotals(o.Wrote(n));
  }

  lemma FlatShown(o: Open)
    requires o.Ok() && o.fragments != []
    ensures Flat(o.Shown()) == Flat(o.Sealed()) + o.Tail().Cut(0, o.used).Bytes()
  {
    FlatSnoc(o.Sealed(), o.Tail().Cut(0, o.used));
  }

  lemma Glue(before: seq<byte>, after: seq<byte>, rest: seq<byte>, tail: seq<byte>, grown: seq<byte>, src: seq<byte>)
    requires before == rest + tail && grown == tail + src && after == rest + grown
    ensures after == before + src
  {
  }

  lemma CutWritten(t: Fragment, before: seq<byte>, src: seq<byte>)
    requires t.Ok() && |before| + |src| <= t.len
    requires t.data[t.off..t.off + |before|] == before
    requires t.data[t.off + |before|..t.off + |before| + |src|] == src
    ensures t.Cut(0, |before| + |src|).Bytes() == before + src
  {
  }

  /** Nothing of the window's array changed but its bytes from..to. */
  twostate predicate WrittenOnly(f: Fragment, new from: nat, new to: nat)
    reads f.data
  {
    forall i :: 0 <= i < f.data.Length && !(f.off + from <= i < f.off + to) ==> f.data[i] == old(f.data[i])
  }

  method PatchTail(tail: Fragment, used: nat, src: seq<byte>)
    requires tail.Ok() && used + |src| <= tail.len
    modifies tail.data
    ensures tail.Cut(0, used + |src|).Bytes() == old(tail.Cut(0, used).Bytes()) + src
    ensures WrittenOnly(tail, used, used + |src|)
  {
    ghost var before := tail.Cut(0, used).Bytes();
    MemCopy(tail.data, tail.off + used, src);
    CutWritten(tail, before, src);
  }

  /** Writes just past what has been written of the tail. */
  method WriteTail(o: Open, src: seq<byte>)
    requires o.Ok() && o.Private() && 0 < |src| <= o.Capacity()
    modifies o.Tail().data
    ensures Flat(o.Wrote(|src|).Shown()) == old(Flat(o.Shown())) + src
    ensures WrittenOnly(o.Tail(), o.used, o.Tail().len)
  {
    ghost var before, rest, shown := o.Tail().Cut(0, o.used).Bytes(), Flat(o.Sealed()), Flat(o.Shown());
    FlatShown(o);
    PatchTail(o.Tail(), o.used, src);
    FlatKept(o.Sealed());
    ghost var more := o.Wrote(|src|);
    FlatShown(more);
    Glue(shown, Flat(more.Shown()), rest, before, more.Tail().Cut(0, more.used).Bytes(), src);
  }

  /** There is a slot for another tail, and backing for it. */
  predicate Opens(config: Config, o: Open, requested: nat)
    requires config.Valid()
  {
    |o.fragments| < config.maxFragments && o.retained + NextAllocation(config, o.last, requested) <= config.maxRetained
  }

  /** A new tail of that size, with nothing written, follows what was shown. */
  ghost predicate Opened(config: Config, o: Open, requested: nat, grown: Open)
    requires config.Valid() && o.Ok()
  {
    && grown.fragments != [] && grown.Tail().Ok() && grown.Tail().Whole(NextAllocation(config, o.last, requested))
    && Fits(o.retained + grown.Tail().retained)
    && grown == o.Push(grown.Tail(), 0).(last := grown.Tail().len)
  }

  /** Slots and backing for the fragments as they are. */
  predicate Spliceable(config: Config, o: Open, gs: seq<Fragment>) {
    |o.fragments| + |gs| <= config.maxFragments && o.retained + Retained(gs) <= config.maxRetained
  }

  // ----- the tails an append opens -----

  function Sum(ts: seq<nat>): nat {
    if ts == [] then 0 else Sum(ts[..|ts| - 1]) + ts[|ts| - 1]
  }

  lemma {:induction false} SumConcat(a: seq<nat>, b: seq<nat>)
    ensures Sum(a + b) == Sum(a) + Sum(b)
  {
    if b == [] {
      assert a + b == a;
    } else {
      assert (a + b)[..|a + b| - 1] == a + b[..|b| - 1];
      SumConcat(a, b[..|b| - 1]);
    }
  }

  /** What is left of n bytes once a tail of this size is full, or all of them are written. */
  function Past(n: nat, size: nat): nat {
    if n <= size then 0 else n - size
  }

  /** Their sizes, for n bytes once the tail there was is full. */
  function Tails(config: Config, last: nat, n: nat): (ts: seq<nat>)
    requires config.Valid() && LastOk(config, last)
    ensures ts == [] <==> n == 0
    ensures forall i :: 0 <= i < |ts| ==> config.initialFragment <= ts[i] <= config.maxFragment
    decreases n
  {
    if n == 0 then []
    else
      NextAllocationBounds(config, last, n);
      var size := NextAllocation(config, last, n);
      [size] + Tails(config, size, Past(n, size))
  }

  lemma FirstTail(config: Config, last: nat, n: nat, size: nat) returns (rest: seq<nat>)
    requires config.Valid() && LastOk(config, last) && n > 0 && size == NextAllocation(config, last, n)
    ensures config.initialFragment <= size <= config.maxFragment && rest == Tails(config, size, Past(n, size))
    ensures Tails(config, last, n) == [size] + rest
  {
    NextAllocationBounds(config, last, n);
    rest := Tails(config, size, Past(n, size));
  }

  lemma OneMoreTail(size: nat, rest: seq<nat>, n: nat, least: nat, most: nat)
    requires 0 < least <= size <= most && n > 0
    requires
      if n <= size then rest == []
      else rest != [] && Times(|rest| - 1, least) < n - size && Sum(rest) < n - size + most
    ensures Times(|[size] + rest| - 1, least) < n && Sum([size] + rest) < n + most
  {
    SumConcat([size], rest);
    assert [size][..0] == [];
    assert Sum([size]) == size;
  }

  predicate HalfAgain(config: Config, before: nat, size: nat) {
    size >= if before == 0 then config.initialFragment else Min(config.maxFragment, before + before / 2)
  }

  /** Each tail is half as large again as the one before, until the ceiling is reached. */
  lemma {:induction false} TailsGrow(config: Config, last: nat, n: nat, i: nat)
    requires config.Valid() && LastOk(config, last) && i < |Tails(config, last, n)|
    ensures var ts := Tails(config, last, n); HalfAgain(config, if i == 0 then last else ts[i - 1], ts[i])
    decreases n
  {
    var size := NextAllocation(config, last, n);
    var rest := FirstTail(config, last, n, size);
    if i == 0 {
      NextAllocationLeast(config, last, n, 0);
    } else {
      TailsGrow(config, size, Past(n, size), i - 1);
    }
  }

  /** So many bytes take tails that are no more, and no larger together, than this. */
  ghost predicate Few(config: Config, ts: seq<nat>, n: nat) {
    ts != [] && Times(|ts| - 1, config.initialFragment) < n && Sum(ts) < n + config.maxFragment
  }

  lemma {:induction false} TailsFew(config: Config, last: nat, n: nat)
    requires config.Valid() && LastOk(config, last) && n > 0
    ensures Few(config, Tails(config, last, n), n)
    decreases n, 1
  {
    var size := NextAllocation(config, last, n);
    var rest := FirstTail(config, last, n, size);
    FewBehind(config, size, rest, n);
  }

  lemma {:induction false} FewBehind(config: Config, size: nat, rest: seq<nat>, n: nat)
    requires config.Valid() && config.initialFragment <= size <= config.maxFragment && n > 0
    requires rest == Tails(config, size, Past(n, size))
    ensures Few(config, [size] + rest, n)
    decreases n, 0
  {
    if n > size {
      TailsFew(config, size, Past(n, size));
    }
    OneMoreTail(size, rest, n, config.initialFragment, config.maxFragment);
  }

  /** There are slots for them, and backing. */
  ghost predicate Affords(config: Config, o: Open, ts: seq<nat>) {
    |o.fragments| + |ts| <= config.maxFragments && o.retained + Sum(ts) <= config.maxRetained
  }

  /** Exactly when n more bytes can be appended: there are slots and backing for what the tail has no room for. */
  ghost predicate Accepts(config: Config, o: Open, n: nat)
    requires Shaped(config, o)
  {
    Affords(config, o, Tails(config, o.last, Past(n, o.Capacity())))
  }

  /** Tails of these sizes behind o, which was full: n bytes in all, and only the last may have room left. */
  ghost predicate Stretched(o: Open, ts: seq<nat>, n: nat, r: Open) {
    && r.Ok() && |o.fragments| <= |r.fragments|
    && r.fragments[..|o.fragments|] == o.fragments && OfSizes(r.fragments[|o.fragments|..], ts)
    && r.retained == o.retained + Sum(ts)
    && if ts == [] then r == o && n == 0 else r.last == ts[|ts| - 1] && Sum(ts[..|ts| - 1]) + r.used == n
  }

  /** What n appended bytes make of a builder's fragments. */
  ghost predicate Appended(config: Config, o: Open, n: nat, r: Open)
    requires Shaped(config, o)
  {
    var more := Past(n, o.Capacity());
    Stretched(o.Wrote(n - more), Tails(config, o.last, more), more, r)
  }

  /** One more tail, with n bytes written, behind o, which was full. */
  ghost predicate Filled(o: Open, size: nat, n: nat, r: Open) {
    && r.Ok() && r.fragments != [] && r.Sealed() == o.fragments && r.Tail().Whole(size)
    && r.used == n && r.last == size && r.retained == o.retained + size
  }

  lemma StretchedMore(o: Open, ts: seq<nat>, n: nat, r: Open, size: nat, m: nat, q: Open)
    requires Stretched(o, ts, n, r) && r.Capacity() == 0 && Filled(r, size, m, q)
    ensures Stretched(o, ts + [size], n + m, q)
  {
    var k := |o.fragments|;
    assert q.fragments == r.fragments + [q.Tail()];
    assert q.fragments[..k] == r.fragments[..k] && q.fragments[k..] == r.fragments[k..] + [q.Tail()];
    assert (ts + [size])[..|ts|] == ts;
    if ts != [] {
      assert r.Tail() == r.fragments[k..][|ts| - 1];
    }
  }

  /** The rounds of an append: tails of the sizes `done` hold what is written, and those of the sizes `left` are to
      take the `need` bytes to come. */
  ghost predicate Rounds(config: Config, o: Open, all: seq<nat>, r: Open, written: nat, need: nat,
                         done: seq<nat>, left: seq<nat>)
  {
    && Shaped(config, r) && Stretched(o, done, written, r) && (r.Capacity() == 0 || need == 0)
    && all == done + left && left == Tails(config, r.last, need)
  }

  lemma RoundsStart(config: Config, o: Open, all: seq<nat>, need: nat)
    requires Shaped(config, o) && o.Capacity() == 0 && all == Tails(config, o.last, need)
    ensures Rounds(config, o, all, o, 0, need, [], all)
  {
  }

  /** One round more. */
  lemma RoundsFilled(config: Config, o: Open, all: seq<nat>, r: Open, written: nat, need: nat, done: seq<nat>,
                     left: seq<nat>, n: nat, q: Open)
    returns (rest: nat, did: seq<nat>, todo: seq<nat>)
    requires Rounds(config, o, all, r, written, need, done, left) && need > 0
    requires q.last == NextAllocation(config, r.last, need) && n == Min(need, q.last)
    requires Shaped(config, q) && Filled(r, q.last, n, q)
    ensures n > 0 && rest == need - n && Rounds(config, o, all, q, written + n, rest, did, todo)
  {
    todo := FirstTail(config, r.last, need, q.last);
    StretchedMore(o, done, written, r, q.last, n, q);
    rest, did := Past(need, q.last), done + [q.last];
    MoveOver(done, q.last, todo);
  }

  lemma MoveOver(done: seq<nat>, size: nat, todo: seq<nat>)
    ensures done + ([size] + todo) == (done + [size]) + todo
  {
  }

  /** No slot or no backing for the next tail: then not for all of them. */
  lemma RoundsStuck(config: Config, o: Open, all: seq<nat>, r: Open, written: nat, need: nat, done: seq<nat>,
                    left: seq<nat>)
    requires Rounds(config, o, all, r, written, need, done, left) && need > 0 && !Opens(config, r, need)
    ensures !Affords(config, o, all)
  {
    var size := NextAllocation(config, r.last, need);
    var rest := FirstTail(config, r.last, need, size);
    SumConcat(done, left);
    SumConcat([size], rest);
    assert [size][..0] == [];
    assert Sum([size]) == size;
  }

  lemma RoundsDone(config: Config, o: Open, all: seq<nat>, r: Open, written: nat, need: nat, done: seq<nat>,
                   left: seq<nat>)
    requires Rounds(config, o, all, r, written, need, done, left) && need == 0
    ensures Affords(config, o, all) && Stretched(o, all, written, r)
  {
    assert done + [] == done;
  }

  lemma RoundsBeyond(config: Config, o: Open, all: seq<nat>, r: Open, written: nat, need: nat, done: seq<nat>,
                     left: seq<nat>)
    requires o.Ok() && Rounds(config, o, all, r, written, need, done, left)
    requires forall i :: 0 <= i < |all| ==> config.initialFragment <= all[i] <= config.maxFragment
    ensures Beyond(config, o, r)
  {
    StretchedBeyond(config, o, done, written, r, all);
  }

  lemma StretchedBeyond(config: Config, o: Open, ts: seq<nat>, n: nat, r: Open, all: seq<nat>)
    requires o.Ok() && Stretched(o, ts, n, r) && ts <= all
    requires forall i :: 0 <= i < |all| ==> config.initialFragment <= all[i] <= config.maxFragment
    ensures Beyond(config, o, r)
  {
    var k := |o.fragments|;
    forall i | k <= i < |r.fragments|
      ensures config.initialFragment <= r.fragments[i].len == r.fragments[i].retained <= config.maxFragment
    {
      assert r.fragments[i] == r.fragments[k..][i - k] && ts[i - k] == all[i - k];
    }
  }

  /** Bytes that fit the tail open no other. */
  lemma FitsTail(config: Config, o: Open, n: nat)
    requires Shaped(config, o) && n <= o.Capacity()
    ensures Accepts(config, o, n) && forall r :: Appended(config, o, n, r) ==> r == o.Wrote(n)
  {
  }

  lemma AppendedBeyond(config: Config, o: Open, n: nat, r: Open)
    requires Shaped(config, o) && Appended(config, o, n, r)
    ensures Beyond(config, o, r)
  {
    var more := Past(n, o.Capacity());
    var ts := Tails(config, o.last, more);
    StretchedBeyond(config, o.Wrote(n - more), ts, more, r, ts);
    BeyondWrote(config, o, n - more, r);
  }

  /** What any number of rounds keep: the fragments there were, but for the bytes used of the tail,
      and after them whole allocations from the configured first size up to the ceiling. */
  ghost predicate Beyond(config: Config, o: Open, r: Open)
    requires o.Ok()
  {
    && r.Ok()
    && |o.fragments| <= |r.fragments|
    && r.fragments[..|o.fragments|] == o.fragments
    && (|o.fragments| == |r.fragments| ==> r == o.(used := r.used) && o.used <= r.used)
    && NewChunky(config, o, r)
  }

  ghost predicate NewChunky(config: Config, o: Open, r: Open) {
    forall i :: |o.fragments| <= i < |r.fragments| ==>
      config.initialFragment <= r.fragments[i].len == r.fragments[i].retained <= config.maxFragment
  }

  /** rewind: back to a mark of the fragment count, tail use, allocation and retained bytes. */
  function Rewind(r: Open, count: nat, used: nat, last: nat, retained: nat): Open
    requires count <= |r.fragments|
  {
    Open(r.fragments[..count], retained, if count == 0 then 0 else Min(used, r.fragments[count - 1].len), last)
  }

  lemma RewindRestores(config: Config, o: Open, r: Open)
    requires o.Ok() && Beyond(config, o, r)
    ensures Rewind(r, |o.fragments|, o.used, o.last, o.retained) == o
  {
  }

  lemma ShownFull(o: Open)
    requires o.Ok() && o.Capacity() == 0
    ensures o.Shown() == o.fragments
  {
    if o.fragments != [] {
      assert o.Tail().Cut(0, o.used) == o.Tail();
    }
  }

  lemma OpenedFilled(config: Config, o: Open, requested: nat, t: Open, n: nat)
    requires config.Valid() && o.Ok() && o.Capacity() == 0 && Opened(config, o, requested, t) && n <= t.Capacity()
    ensures Filled(o, NextAllocation(config, o.last, requested), n, t.Wrote(n))
  {
    ShownFull(o);
  }

  /** The bytes spare afterwards were spare before, or are in new storage. */
  twostate predicate SpareFrom(before: Open, new after: Open)
    requires before.Ok() && after.Ok()
  {
    || after.Capacity() == 0
    || fresh(after.Tail().data)
    || (&& before.fragments != []
        && after.Tail().data == before.Tail().data
        && before.Tail().off + before.used <= after.Tail().off + after.used
        && after.Tail().off + after.Tail().len <= before.Tail().off + before.Tail().len)
  }

  /** A step that wrote spare bytes only. */
  twostate predicate Respects(before: Open, new after: Open)
    requires before.Ok() && after.Ok()
    reads before.SpareArray()
  {
    && (before.Capacity() > 0 ==> WrittenOnly(before.Tail(), before.used, before.Tail().len))
    && SpareFrom(before, after)
  }

  /** Where what is shown comes from: new storage, the bytes that were spare, what was shown, or the donor. */
  twostate predicate Traced(before: Open, new donor: seq<Fragment>, new after: Open)
    requires before.Ok() && after.Ok()
  {
    forall k :: 0 <= k < |after.Shown()| ==> TracedOne(before, donor, after.Shown()[k])
  }

  twostate predicate TracedOne(before: Open, new donor: seq<Fragment>, new f: Fragment)
    requires before.Ok()
  {
    fresh(f.data) || f.data in before.SpareArray() || f in before.Shown() || f in donor
  }

  /** All that others need to know of a step: what it wrote, what it may write next, what it shows. */
  twostate predicate Keeps(before: Open, new donor: seq<Fragment>, new after: Open)
    requires before.Ok() && after.Ok()
    reads before.SpareArray()
  {
    Respects(before, after) && Traced(before, donor, after)
  }

  /** Everything behind the fragments there were is in new storage. */
  twostate predicate Added(o: Open, new r: Open) {
    |o.fragments| <= |r.fragments| && forall i :: |o.fragments| <= i < |r.fragments| ==> fresh(r.fragments[i].data)
  }

  /** Bytes in the tail's room, and whatever rounds came after. */
  twostate predicate WroteOn(o: Open, new config: Config, new r: Open)
    requires o.Ok()
    reads o.SpareArray()
  {
    Beyond(config, o, r) && Added(o, r) && Respects(o, r)
  }

  twostate lemma WroteThenAdded(o: Open, new config: Config, new n: nat, new r: Open)
    requires o.Ok() && n <= o.Capacity() && Beyond(config, o.Wrote(n), r) && Added(o.Wrote(n), r)
    requires o.Capacity() > 0 ==> WrittenOnly(o.Tail(), o.used, o.Tail().len)
    requires |o.fragments| < |r.fragments| ==> n == o.Capacity()
    ensures WroteOn(o, config, r)
  {
    BeyondWrote(config, o, n, r);
  }

  /** One more round, or none. */
  twostate lemma AddedRound(o: Open, new r: Open, new q: Open)
    requires Added(o, r) && (q == r || (q.fragments != [] && q.Sealed() == r.fragments && fresh(q.Tail().data)))
    ensures Added(o, q)
  {
    forall i | |o.fragments| <= i < |q.fragments| ensures fresh(q.fragments[i].data) {
      if q != r && i < |q.fragments| - 1 {
        assert q.fragments[i] == q.Sealed()[i];
      }
    }
  }

  twostate lemma TracedSame(o: Open, new donor: seq<Fragment>)
    requires o.Ok()
    ensures Traced(o, donor, o)
  {
  }

  /** Bytes written to the tail, and fragments behind it. */
  twostate lemma TracedBeyond(o: Open, new config: Config, new r: Open)
    requires o.Ok() && Beyond(config, o, r) && Added(o, r)
    ensures Traced(o, [], r)
  {
    forall k | 0 <= k < |r.Shown()| ensures TracedOne(o, [], r.Shown()[k]) {
      if k < |o.fragments| {
        assert r.fragments[k] == r.fragments[..|o.fragments|][k] == o.fragments[k];
        if k < |o.fragments| - 1 {
          assert o.Shown()[k] == o.fragments[k];
        } else if o.Capacity() == 0 {
          ShownFull(o);
        }
      }
    }
  }

  twostate lemma TracedWrote(o: Open, new n: nat)
    requires o.Ok() && n <= o.Capacity()
    ensures Traced(o, [], o.Wrote(n))
  {
    var r := o.Wrote(n);
    forall k | 0 <= k < |r.Shown()| ensures TracedOne(o, [], r.Shown()[k]) {
      if k < |o.fragments| - 1 {
        assert r.Shown()[k] == o.Shown()[k];
      } else if o.Capacity() == 0 {
        assert r == o;
      }
    }
  }

  /** A sealed list with one new fragment behind it. */
  twostate lemma TracedPush(o: Open, new r: Open)
    requires o.Ok() && r.Ok() && r.fragments != [] && r.Sealed() == o.Shown() && fresh(r.Tail().data)
    ensures Traced(o, [], r)
  {
    forall k | 0 <= k < |r.Shown()| ensures TracedOne(o, [], r.Shown()[k]) {
      if k < |o.fragments| {
        assert r.Shown()[k] == o.Shown()[k];
      }
    }
  }

  /** And so it keeps what there was. */
  twostate lemma PushKeeps(o: Open, new r: Open)
    requires o.Ok() && r.Ok() && r.fragments != [] && r.Sealed() == o.Shown() && fresh(r.Tail().data)
    requires o.Capacity() > 0 ==> unchanged(o.Tail().data)
    ensures Keeps(o, [], r)
  {
    TracedPush(o, r);
  }

  datatype Held = Held(before: Open, windows: seq<Fragment>)

  /** Every step leaves alone all windows clear of the spare bytes, wherever their storage came from. */
  twostate lemma Untouched(h: Held)
    requires h.before.Ok() && AllOk(h.windows) && AllClear(h.before, h.windows)
    requires h.before.Capacity() > 0 ==> WrittenOnly(h.before.Tail(), h.before.used, h.before.Tail().len)
    requires forall i ::
      0 <= i < |h.windows| && h.windows[i].data !in h.before.SpareArray() ==> unchanged(h.windows[i].data)
    ensures Flat(h.windows) == old(Flat(h.windows))
  {
    FlatKept(h.windows);
  }

  /** One of them, as it was. */
  twostate lemma WindowKept(h: Held, new i: nat)
    requires h.before.Ok() && AllOk(h.windows) && AllClear(h.before, h.windows) && i < |h.windows|
    requires h.before.Capacity() > 0 ==> WrittenOnly(h.before.Tail(), h.before.used, h.before.Tail().len)
    requires h.windows[i].data !in h.before.SpareArray() ==> unchanged(h.windows[i].data)
    ensures h.windows[i].Bytes() == old(h.windows[i].Bytes())
  {
    assert h.before.Clear(h.windows[i]);
  }

  ghost predicate AllClear(o: Open, gs: seq<Fragment>)
    requires o.Ok()
  {
    forall i :: 0 <= i < |gs| ==> o.Clear(gs[i])
  }

  /** And they stay clear of what is spare after it. */
  twostate lemma StaysClear(h: Held, new after: Open)
    requires h.before.Ok() && after.Ok() && AllClear(h.before, h.windows) && SpareFrom(h.before, after)
    ensures AllClear(after, h.windows)
  {
  }

  /** What a builder presents is clear of its own spare bytes. */
  lemma ShownClear(o: Open)
    requires o.Ok() && o.Private()
    ensures AllClear(o, o.Shown())
  {
  }

  lemma BeyondWrote(config: Config, o: Open, n: nat, r: Open)
    requires o.Ok() && n <= o.Capacity() && Beyond(config, o.Wrote(n), r)
    ensures Beyond(config, o, r)
  {
  }

  lemma BeyondOn(config: Config, o: Open, p: Open, r: Open)
    requires o.Ok() && Beyond(config, o, p) && Beyond(config, p, r)
    ensures Beyond(config, o, r)
  {
    forall i | 0 <= i < |p.fragments| ensures r.fragments[i] == p.fragments[i] {
      assert r.fragments[i] == r.fragments[..|p.fragments|][i];
    }
    assert r.fragments[..|o.fragments|] == p.fragments[..|o.fragments|];
  }

  lemma BeyondOpened(config: Config, o: Open, requested: nat, r: Open)
    requires Shaped(config, o) && o.Capacity() == 0 && Opened(config, o, requested, r)
    ensures Beyond(config, o, r)
  {
    ShownFull(o);
    NextAllocationBounds(config, o.last, requested);
  }

  /** Every fragment is at least as long as the configured first one: true of a builder that has
      only been appended to. */
  ghost predicate Chunky(config: Config, o: Open) {
    forall i :: 0 <= i < |o.fragments| ==> config.initialFragment <= o.fragments[i].len
  }

  lemma {:induction false} LongFragments(fs: seq<Fragment>, least: nat)
    requires forall i :: 0 <= i < |fs| ==> least <= fs[i].len
    ensures |fs| * least <= Total(fs)
  {
    if fs != [] {
      LongFragments(fs[1..], least);
      assert |fs| * least == |fs[1..]| * least + least;
    }
  }

  /** So the number of fragments is bounded by the bytes written. */
  lemma ChunkyBound(config: Config, o: Open)
    requires o.Ok() && Chunky(config, o) && o.fragments != []
    ensures (|o.fragments| - 1) * config.initialFragment <= Total(o.Shown())
  {
    ShownTotals(o);
    LongFragments(o.Sealed(), config.initialFragment);
  }

  // ----- room for several appends -----

  /** Room for n more bytes however they come: whatever is left of the tail and of the slots, at the smallest
      size, and backing to spare for one tail that is not filled. */
  ghost predicate Plenty(config: Config, o: Open, n: nat)
    requires o.Ok()
  {
    && |o.fragments| <= config.maxFragments
    && n <= o.Capacity() + Times(config.maxFragments - |o.fragments|, config.initialFragment)
    && o.retained + n + config.maxFragment <= config.maxRetained + o.Capacity()
  }

  lemma PlentyAccepts(config: Config, o: Open, n: nat)
    requires Shaped(config, o) && Plenty(config, o, n)
    ensures Accepts(config, o, n)
  {
    var more := Past(n, o.Capacity());
    if more > 0 {
      TailsFew(config, o.last, more);
      FewAfford(config, o, Tails(config, o.last, more), more);
    }
  }

  lemma FewAfford(config: Config, o: Open, ts: seq<nat>, n: nat)
    requires |o.fragments| <= config.maxFragments && Few(config, ts, n)
    requires n <= Times(config.maxFragments - |o.fragments|, config.initialFragment)
    requires o.retained + n + config.maxFragment <= config.maxRetained
    ensures Affords(config, o, ts)
  {
    SlotsEnough(|ts|, config.maxFragments - |o.fragments|, config.initialFragment, n);
  }

  lemma SlotsEnough(count: nat, slots: nat, least: nat, n: nat)
    requires count > 0 && Times(count - 1, least) < n <= Times(slots, least)
    ensures count <= slots
  {
    if count > slots {
      TimesMonotone(slots, count - 1, least);
    }
  }

  lemma {:induction false} NewTails(fs: seq<Fragment>, least: nat)
    requires forall i :: 0 <= i < |fs| ==> least <= fs[i].len == fs[i].retained
    ensures Times(|fs|, least) <= Total(fs) == Retained(fs)
  {
    if fs != [] {
      NewTails(fs[1..], least);
    }
  }

  lemma CapacityIs(o: Open)
    requires o.Ok()
    ensures Total(o.Shown()) + o.Capacity() == Total(o.fragments)
  {
    if o.fragments != [] {
      assert o.fragments == o.Sealed() + [o.Tail()];
      TotalSnoc(o.Sealed(), o.Tail());
      ShownTotals(o);
    }
  }

  /** Rounds add tails of at least the first size, backed byte for byte. */
  lemma AddedTails(config: Config, o: Open, r: Open)
    requires o.Ok() && Beyond(config, o, r)
    ensures var added := |r.fragments| - |o.fragments|;
      && Times(added, config.initialFragment) <= Total(r.fragments) - Total(o.fragments)
      && Total(r.fragments) - Total(o.fragments) == Retained(r.fragments) - Retained(o.fragments)
  {
    TotalSplit(r.fragments, |o.fragments|);
    NewTails(r.fragments[|o.fragments|..], config.initialFragment);
  }

  /** An append uses up its own bytes of that room and no more. */
  lemma PlentyLeft(config: Config, o: Open, r: Open, n: nat, left: nat)
    requires Shaped(config, o) && Shaped(config, r) && Beyond(config, o, r)
    requires Total(r.Shown()) == Total(o.Shown()) + n && Plenty(config, o, n + left)
    ensures Plenty(config, r, left)
  {
    AddedTails(config, o, r);
    CapacityIs(o);
    CapacityIs(r);
    TimesSplit(config.maxFragments - |r.fragments|, |r.fragments| - |o.fragments|, config.initialFragment);
  }

  // ----- publishing windows of a list that may hold empty fragments -----

  /** The windows of n bytes, `skip` bytes in: none of them empty. */
  ghost function Window(fs: seq<Fragment>, skip: nat, n: nat): seq<Fragment> {
    if fs == [] || n == 0 then []
    else if skip >= fs[0].len then Window(fs[1..], skip - fs[0].len, n)
    else
      var take := Min(fs[0].len - skip, n);
      [fs[0].Cut(skip, take)] + Window(fs[1..], 0, n - take)
  }

  lemma {:induction false} WindowSound(fs: seq<Fragment>, skip: nat, n: nat)
    requires AllOk(fs) && skip + n <= Total(fs)
    ensures var w := Window(fs, skip, n);
      Sound(w) && Total(w) == n && |w| <= |fs| && Retained(w) <= Retained(fs)
  {
    if fs == [] || n == 0 {
    } else if skip >= fs[0].len {
      WindowSound(fs[1..], skip - fs[0].len, n);
    } else {
      var take := Min(fs[0].len - skip, n);
      WindowSound(fs[1..], 0, n - take);
      FlatCons(fs[0].Cut(skip, take), Window(fs[1..], 0, n - take));
    }
  }

  lemma SliceBeyond(b: seq<byte>, rest: seq<byte>, skip: nat, n: nat)
    requires |b| <= skip && skip + n <= |b| + |rest|
    ensures (b + rest)[skip..skip + n] == rest[skip - |b|..skip - |b| + n]
  {
  }

  lemma SliceAcross(b: seq<byte>, rest: seq<byte>, skip: nat, n: nat, take: nat)
    requires skip < |b| && skip + n <= |b| + |rest| && take == Min(|b| - skip, n)
    ensures (b + rest)[skip..skip + n] == b[skip..skip + take] + rest[0..0 + (n - take)]
  {
  }

  lemma WindowStep(fs: seq<Fragment>, skip: nat, n: nat)
    requires fs != [] && n > 0
    ensures skip >= fs[0].len ==> Window(fs, skip, n) == Window(fs[1..], skip - fs[0].len, n)
    ensures skip < fs[0].len ==>
      var take := Min(fs[0].len - skip, n);
      Window(fs, skip, n) == [fs[0].Cut(skip, take)] + Window(fs[1..], 0, n - take)
  {
  }

  /** A cut of the first fragment, and more from the front of the others. */
  lemma CutAcross(first: Fragment, rest: seq<Fragment>, more: seq<Fragment>, skip: nat, n: nat, take: nat)
    requires first.Ok() && AllOk(rest) && AllOk(more)
    requires skip < first.len && skip + n <= first.len + Total(rest) && take == Min(first.len - skip, n)
    requires Flat(more) == Flat(rest)[0..0 + (n - take)]
    ensures var cut := first.Cut(skip, take);
      AllOk([cut] + more) && Flat([cut] + more) == (first.Bytes() + Flat(rest))[skip..skip + n]
  {
    SliceAcross(first.Bytes(), Flat(rest), skip, n, take);
    CutBytes(first, skip, take);
    FlatCons(first.Cut(skip, take), more);
  }

  /** Windows w of fs present its bytes skip..skip + n. */
  ghost predicate Presents(w: seq<Fragment>, fs: seq<Fragment>, skip: nat, n: nat)
    requires AllOk(fs) && skip + n <= Total(fs)
    reads Arrays(w), Arrays(fs)
  {
    AllOk(w) && Flat(w) == Flat(fs)[skip..skip + n]
  }

  lemma PresentsBeyond(w: seq<Fragment>, fs: seq<Fragment>, skip: nat, n: nat)
    requires AllOk(fs) && fs != [] && fs[0].len <= skip && skip + n <= Total(fs)
    requires Presents(w, fs[1..], skip - fs[0].len, n)
    ensures Presents(w, fs, skip, n)
  {
    FlatSplit(fs);
    SliceBeyond(fs[0].Bytes(), Flat(fs[1..]), skip, n);
  }

  lemma PresentsAcross(more: seq<Fragment>, fs: seq<Fragment>, skip: nat, n: nat, take: nat)
    requires AllOk(fs) && fs != [] && skip < fs[0].len && skip + n <= Total(fs) && take == Min(fs[0].len - skip, n)
    requires Presents(more, fs[1..], 0, n - take)
    ensures Presents([fs[0].Cut(skip, take)] + more, fs, skip, n)
  {
    FlatSplit(fs);
    CutAcross(fs[0], fs[1..], more, skip, n, take);
  }

  lemma {:induction false} WindowFlat(fs: seq<Fragment>, skip: nat, n: nat)
    requires AllOk(fs) && skip + n <= Total(fs)
    ensures Presents(Window(fs, skip, n), fs, skip, n)
  {
    if fs == [] || n == 0 {
    } else if skip >= fs[0].len {
      WindowFlat(fs[1..], skip - fs[0].len, n);
      PresentsBeyond(Window(fs[1..], skip - fs[0].len, n), fs, skip, n);
      WindowStep(fs, skip, n);
    } else {
      var take := Min(fs[0].len - skip, n);
      WindowFlat(fs[1..], 0, n - take);
      PresentsAcross(Window(fs[1..], 0, n - take), fs, skip, n, take);
      WindowStep(fs, skip, n);
    }
  }

  lemma {:induction false} WindowClear(o: Open, fs: seq<Fragment>, skip: nat, n: nat)
    requires o.Ok() && AllClear(o, fs)
    ensures AllClear(o, Window(fs, skip, n))
  {
    if fs == [] || n == 0 {
    } else if skip >= fs[0].len {
      WindowClear(o, fs[1..], skip - fs[0].len, n);
    } else {
      var take := Min(fs[0].len - skip, n);
      assert o.Clear(fs[0]);
      WindowClear(o, fs[1..], 0, n - take);
    }
  }

  lemma {:induction false} DropClear(o: Open, fs: seq<Fragment>, n: nat)
    requires o.Ok() && AllClear(o, fs) && n <= Total(fs)
    ensures AllClear(o, Drop(fs, n))
  {
    if fs != [] && n > 0 {
      assert o.Clear(fs[0]);
      if n >= fs[0].len {
        DropClear(o, fs[1..], n - fs[0].len);
      }
    }
  }

  lemma {:induction false} TakeClear(o: Open, fs: seq<Fragment>, n: nat)
    requires o.Ok() && AllClear(o, fs) && n <= Total(fs)
    ensures AllClear(o, Take(fs, n))
  {
    if fs != [] && n > 0 {
      assert o.Clear(fs[0]);
      if n >= fs[0].len {
        TakeClear(o, fs[1..], n - fs[0].len);
      }
    }
  }

  lemma SliceClear(o: Open, fs: seq<Fragment>, offset: nat, length: nat)
    requires o.Ok() && AllClear(o, fs) && offset + length <= Total(fs)
    ensures AllClear(o, Slice(fs, offset, length))
  {
    DropTotal(fs, offset);
    DropClear(o, fs, offset);
    TakeClear(o, Drop(fs, offset), length);
  }

  /** The fragments that present anything. */
  function Dense(fs: seq<Fragment>): seq<Fragment> {
    if fs == [] then [] else if fs[0].len == 0 then Dense(fs[1..]) else [fs[0]] + Dense(fs[1..])
  }

  lemma {:induction false} DenseSound(fs: seq<Fragment>)
    requires AllOk(fs)
    ensures Sound(Dense(fs)) && Flat(Dense(fs)) == Flat(fs)
    ensures |Dense(fs)| <= |fs| && Total(Dense(fs)) == Total(fs) && Retained(Dense(fs)) <= Retained(fs)
  {
    if fs != [] {
      DenseSound(fs[1..]);
      if fs[0].len > 0 {
        FlatCons(fs[0], Dense(fs[1..]));
      }
    }
  }

  // ----- splicing whole fragments after the tail -----

  lemma SpliceFull(o: Open, gs: seq<Fragment>)
    requires o.Ok() && AllOk(gs) && gs != [] && Fits(o.retained + Retained(gs))
    ensures Splice(o, gs).Ok() && Splice(o, gs).Capacity() == 0 && Splice(o, gs).Shown() == o.Shown() + gs
  {
    assert Splice(o, gs).Tail() == gs[|gs| - 1];
    ShownFull(Splice(o, gs));
  }

  twostate lemma TracedDonor(o: Open, new t: Open, new gs: seq<Fragment>, new donor: seq<Fragment>)
    requires o.Ok() && t.Ok() && Traced(o, [], t) && AllOk(gs) && (forall i :: 0 <= i < |gs| ==> gs[i] in donor)
    requires Fits(t.retained + Retained(gs))
    ensures Splice(t, gs).Ok() && Traced(o, donor, Splice(t, gs))
  {
    if gs != [] {
      SpliceFull(t, gs);
    }
    var r := Splice(t, gs);
    forall k | 0 <= k < |r.Shown()| ensures TracedOne(o, donor, r.Shown()[k]) {
      if k < |t.Shown()| {
        assert r.Shown()[k] == t.Shown()[k] && TracedOne(o, [], t.Shown()[k]);
      }
    }
  }

  /** Nothing but fragments of the donor, and nothing written. */
  twostate lemma SpliceKeeps(o: Open, new gs: seq<Fragment>, new donor: seq<Fragment>)
    requires o.Ok() && AllOk(gs) && gs != [] && (forall i :: 0 <= i < |gs| ==> gs[i] in donor)
    requires Fits(o.retained + Retained(gs)) && (o.Capacity() > 0 ==> unchanged(o.Tail().data))
    ensures Splice(o, gs).Ok() && Keeps(o, donor, Splice(o, gs))
  {
    SpliceFull(o, gs);
  }

  twostate lemma KeepsSame(o: Open, new donor: seq<Fragment>)
    requires o.Ok() && (o.Capacity() > 0 ==> unchanged(o.Tail().data))
    ensures Keeps(o, donor, o)
  {
    TracedSame(o, donor);
  }

  function Splice(o: Open, gs: seq<Fragment>): Open
    requires o.Ok() && Fits(o.retained + Retained(gs))
  {
    if gs == [] then o else Open(o.Shown() + gs, Add64(o.retained, Retained(gs)), gs[|gs| - 1].len, o.last)
  }

  ghost predicate Spliced(o: Open, gs: seq<Fragment>, r: Open) {
    o.Ok() && Fits(o.retained + Retained(gs)) && r == Splice(o, gs)
  }

  lemma ShapedSplice(config: Config, o: Open, gs: seq<Fragment>)
    requires Shaped(config, o) && AllOk(gs)
    requires |o.fragments| + |gs| <= config.maxFragments && o.retained + Retained(gs) <= config.maxRetained
    ensures Shaped(config, Splice(o, gs)) && (gs != [] ==> Splice(o, gs).Capacity() == 0)
    ensures Total(Splice(o, gs).Shown()) == Total(o.Shown()) + Total(gs)
    ensures Flat(Splice(o, gs).Shown()) == Flat(o.Shown()) + Flat(gs)
  {
    if gs != [] {
      ShownTotals(o);
      TotalConcat(o.Shown(), gs);
      FlatConcat(o.Shown(), gs);
      ShownFull(Splice(o, gs));
    }
  }

  // ----- packing whole fragments into the tail's room -----

  /** The first `count` of the fragments, whose bytes are the parts p, have been copied behind `before`. */
  ghost predicate Packed(config: Config, o: Open, r: Open, gs: seq<Fragment>, p: seq<seq<byte>>, count: nat,
                         before: seq<byte>)
    requires o.Ok()
    reads Arrays(r.fragments)
  {
    && count <= |gs| == |p|
    && Total(gs[..count]) <= o.Capacity() && r == o.Wrote(Total(gs[..count]))
    && Shaped(config, r)
    && Flat(r.Shown()) == before + Join(p[..count])
  }

  lemma JoinSnoc(p: seq<seq<byte>>, i: nat)
    requires i < |p|
    ensures Join(p[..i + 1]) == Join(p[..i]) + p[i]
  {
    assert p[..i + 1] == p[..i] + [p[i]];
    JoinConcat(p[..i], [p[i]]);
    assert Join([p[i]]) == p[i];
  }

  lemma Glued(before: seq<byte>, shown: seq<byte>, after: seq<byte>, done: seq<byte>, part: seq<byte>, all: seq<byte>)
    requires shown == before + done && after == shown + part && all == done + part
    ensures after == before + all
  {
  }

  lemma PackedAll(config: Config, o: Open, r: Open, gs: seq<Fragment>, p: seq<seq<byte>>, before: seq<byte>)
    requires o.Ok() && Packed(config, o, r, gs, p, |gs|, before)
    ensures Total(gs) <= o.Capacity() && r == o.Wrote(Total(gs)) && Shaped(config, r)
    ensures Flat(r.Shown()) == before + Join(p)
  {
    assert gs[..|gs|] == gs && p[..|p|] == p;
  }

  // ----- one range, room ahead, and a donated buffer -----

  /** Exactly when there can be room for n bytes in the tail. */
  predicate ReserveFits(config: Config, o: Open, n: nat)
    requires config.Valid() && o.Ok()
  {
    n <= o.Capacity() || Opens(config, o, n)
  }

  ghost predicate Reserved(config: Config, o: Open, n: nat, r: Open)
    requires config.Valid() && o.Ok()
  {
    if n <= o.Capacity() then r == o else Opened(config, o, n, r)
  }

  /** Exactly when one range of n bytes can be copied in. */
  predicate CopyFits(config: Config, o: Open, n: nat)
    requires config.Valid() && o.Ok()
  {
    if n <= PACK_COPY_THRESHOLD then n <= o.Capacity() || Opens(config, o, n)
    else |o.fragments| < config.maxFragments && o.retained + n <= config.maxRetained
  }

  /** It goes into the tail there was, into a new one, or into an allocation of its own. */
  ghost predicate CopiedIn(config: Config, o: Open, n: nat, r: Open)
    requires config.Valid() && o.Ok()
  {
    if n > PACK_COPY_THRESHOLD then
      r.fragments != [] && r.Tail().Ok() && r.Tail().Whole(n) && Fits(o.retained + n) && r == o.Push(r.Tail(), n)
    else if n <= o.Capacity() then r == o.Wrote(n)
    else r.used == n && Opened(config, o, n, r.(used := 0))
  }

  /** How many complete leading fragments fit the room: as many as do. */
  function PackCount(gs: seq<Fragment>, room: nat): (p: nat)
    ensures p <= |gs| && Total(gs[..p]) <= room
    ensures p < |gs| ==> Total(gs[..p + 1]) > room
  {
    if gs == [] then 0
    else if gs[0].len > room then
      assert gs[..1][1..] == [];
      0
    else
      var q := PackCount(gs[1..], room - gs[0].len);
      assert gs[..1 + q][1..] == gs[1..][..q];
      assert q + 1 < |gs| ==> gs[..1 + q + 1][1..] == gs[1..][..q + 1];
      1 + q
  }

  /** How many of a donor's fragments are copied into the tail's room: as many as it and the packing threshold
      allow. */
  function Packs(o: Open, gs: seq<Fragment>): (p: nat)
    requires o.Ok()
    ensures p <= |gs| && Total(gs[..p]) <= Min(PACK_COPY_THRESHOLD, o.Capacity())
    ensures p < |gs| ==> Total(gs[..p + 1]) > Min(PACK_COPY_THRESHOLD, o.Capacity())
  {
    PackCount(gs, Min(PACK_COPY_THRESHOLD, o.Capacity()))
  }

  /** Exactly when a donor's fragments can be taken over. */
  predicate DonationFits(config: Config, o: Open, gs: seq<Fragment>)
    requires o.Ok()
  {
    Spliceable(config, o, gs[Packs(o, gs)..])
  }

  /** The leading ones copied into the tail's room, the others spliced in behind: no new storage. */
  function Donation(o: Open, gs: seq<Fragment>): Open
    requires o.Ok() && Fits(o.retained + Retained(gs[Packs(o, gs)..]))
  {
    Splice(o.Wrote(Total(gs[..Packs(o, gs)])), gs[Packs(o, gs)..])
  }

  /** A donor that fits the room and the threshold is packed whole: it needs neither a slot nor backing, and the
      fragments stay as they are. */
  lemma SmallDonation(config: Config, o: Open, gs: seq<Fragment>)
    requires Shaped(config, o) && Total(gs) <= Min(PACK_COPY_THRESHOLD, o.Capacity())
    ensures DonationFits(config, o, gs) && Donation(o, gs) == o.Wrote(Total(gs))
  {
    var p := Packs(o, gs);
    if p < |gs| {
      TotalAt(gs, p);
    }
    assert gs[..|gs|] == gs && gs[|gs|..] == [];
  }

  // ----- nothing is refused but to keep the bounds -----

  predicate WithinBounds(config: Config, r: Open) {
    |r.fragments| <= config.maxFragments && r.retained <= config.maxRetained
  }

  lemma OpensToBounds(config: Config, o: Open, requested: nat, r: Open)
    requires Shaped(config, o) && Opened(config, o, requested, r)
    ensures Opens(config, o, requested) <==> WithinBounds(config, r)
  {
  }

  lemma AppendsToBounds(config: Config, o: Open, n: nat, r: Open)
    requires Shaped(config, o) && Appended(config, o, n, r)
    ensures Accepts(config, o, n) <==> WithinBounds(config, r)
  {
    var ts := Tails(config, o.last, Past(n, o.Capacity()));
    assert |r.fragments[|o.fragments|..]| == |ts|;
  }

  lemma CopiesToBounds(config: Config, o: Open, n: nat, r: Open)
    requires Shaped(config, o) && CopiedIn(config, o, n, r)
    ensures CopyFits(config, o, n) <==> WithinBounds(config, r)
  {
  }

  lemma DonatesToBounds(config: Config, o: Open, gs: seq<Fragment>)
    requires Shaped(config, o) && Fits(o.retained + Retained(gs[Packs(o, gs)..]))
    ensures DonationFits(config, o, gs) <==> WithinBounds(config, Donation(o, gs))
  {
  }
}
