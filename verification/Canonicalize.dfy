/**
 Canonical order for an unordered collection: bounded runs are sorted, a heap of
 their heads is merged, and everything left is drained, all inside the work
 quantum and with an abort possible at every await (src/codec/collection.h).
 */
module Canonicalize {
  import opened Units
  import opened CooperativeWork
  import opened CanonicalPlan
  import opened Orders
  import opened RunHeap

  /** A checkpoint beside an indivisible leaf, and the poll after it. */
  method Pause(work: Work) returns (failed: Option<Errc>)
    requires work.Valid()
    modifies work
    ensures work.Valid() && (old(work.abortRequested) ==> work.abortRequested)
    ensures failed.Some? ==> failed.value == Aborted && work.abortRequested
  {
    var checked := work.Checkpoint();
    match checked {
      case Err(error) => return Some(error);
      case Ok(_) =>
    }
    work.Await();
    match work.Poll() {
      case Err(error) => return Some(error);
      case Ok(_) => return None;
    }
  }

  // ----- runs and merge -----

  /** Moves entries from the front of the input into one run. */
  method FillRun<T>(work: Work, input: seq<T>, size: nat, entry: nat) returns (failed: Option<Errc>, run: seq<T>,
                    rest: seq<T>)
    requires work.Valid() && size <= |input| && work.WithinQuantum(2 * entry, 4)
    modifies work
    ensures work.Valid() && (old(work.abortRequested) ==> work.abortRequested)
    ensures input == run + rest && (failed.None? ==> |run| == size)
    ensures failed.Some? ==> failed.value == Aborted && work.abortRequested
  {
    failed, run, rest := None, [], input;
    for i := 0 to size
      invariant work.Valid() && (old(work.abortRequested) ==> work.abortRequested)
      invariant run == input[..i] && rest == input[i..] && failed.None?
    {
      failed := work.Step(2 * entry, 4);
      if failed.Some? {
        return;
      }
      run, rest := run + [rest[0]], rest[1..];
    }
  }

  /** Moves one run out of the input and sorts it, with a checkpoint on both sides of the sort. */
  method NextRun<T(!new)>(work: Work, input: seq<T>, size: nat, entry: nat, less: (T, T) -> bool)
    returns (failed: Option<Errc>, run: seq<T>, left: seq<T>)
    requires work.Valid() && StrictWeak(less) && size <= |input| && work.WithinQuantum(2 * entry, 4)
    modifies work
    ensures work.Valid() && (old(work.abortRequested) ==> work.abortRequested)
    ensures multiset(left) + multiset(run) == multiset(input)
    ensures failed.None? ==> Sorted(run, less) && |run| == size && |left| == |input| - size
    ensures failed.Some? ==> failed.value == Aborted && work.abortRequested
  {
    failed, run, left := FillRun(work, input, size, entry);
    assert multiset(input) == multiset(run) + multiset(left);
    if failed.Some? {
      return;
    }
    failed := Pause(work);
    if failed.Some? {
      return;
    }
    var sorted := SortRun(run, less);
    SameSize(run, sorted);
    run := sorted;
    failed := Pause(work);
  }

  /** Cuts the input into runs and sorts each. On failure everything is still in one place or the other. */
  method BuildRuns<T(!new)>(work: Work, source: seq<T>, plan: Plan, entry: nat, less: (T, T) -> bool)
    returns (failed: Option<Errc>, rest: seq<T>, runs: seq<seq<T>>)
    requires work.Valid() && StrictWeak(less) && plan.runSize > 0 && work.WithinQuantum(2 * entry, 4)
    modifies work
    ensures work.Valid() && (old(work.abortRequested) ==> work.abortRequested)
    ensures multiset(rest) + Bag(runs) == multiset(source)
    ensures failed.None? ==> rest == [] && Heads(runs, less) && Lengths(runs) == RunSizes(|source|, plan.runSize)
    ensures failed.Some? ==> failed.value == Aborted && work.abortRequested
  {
    failed, rest, runs := None, source, [];
    while rest != []
      invariant work.Valid() && (old(work.abortRequested) ==> work.abortRequested)
      invariant multiset(rest) + Bag(runs) == multiset(source)
      invariant failed.None? && Heads(runs, less)
      invariant Lengths(runs) + RunSizes(|rest|, plan.runSize) == RunSizes(|source|, plan.runSize)
      decreases |rest|
    {
      failed := work.Step(0, 1);
      if failed.Some? {
        return;
      }
      var run, left;
      failed, run, left := NextRun(work, rest, Min(plan.runSize, |rest|), entry, less);
      BagSnoc(runs, run);
      if failed.None? {
        OneRunMore(runs, run, |left|, plan.runSize);
      }
      rest, runs := left, runs + [run];
      if failed.Some? {
        return;
      }
    }
  }

  function Lengths<T>(runs: seq<seq<T>>): (lengths: seq<nat>) {
    seq(|runs|, i requires 0 <= i < |runs| => |runs[i]|)
  }

  lemma OneRunMore<T>(runs: seq<seq<T>>, run: seq<T>, left: nat, size: nat)
    requires size > 0 && |run| == Min(size, |run| + left) && run != []
    ensures Lengths(runs + [run]) + RunSizes(left, size) == Lengths(runs) + RunSizes(|run| + left, size)
  {
    var lengths := Lengths(runs);
    assert Lengths(runs + [run]) == lengths + [|run|];
    assert RunSizes(|run| + left, size) == [|run|] + RunSizes(left, size);
  }

  lemma SameSize<T>(a: seq<T>, b: seq<T>)
    requires multiset(a) == multiset(b)
    ensures |a| == |b|
  {
    assert |a| == |multiset(a)| && |b| == |multiset(b)|;
  }

  /** Pushes the head of every run. */
  method FillHeap<T(!new)>(work: Work, runs: seq<seq<T>>, plan: Plan, less: (T, T) -> bool)
    returns (failed: Option<Errc>, heap: seq<HeapEntry<T>>)
    requires work.Valid() && plan.heapItems == StepItems(|runs|) && work.WithinQuantum(plan.heapBytes, plan.heapItems)
    requires StrictWeak(less) && Heads(runs, less)
    modifies work
    ensures work.Valid() && (old(work.abortRequested) ==> work.abortRequested)
    ensures |heap| <= |runs|
    ensures failed.None? ==> Merging(heap, runs, less) && Left(heap, runs) == Bag(runs)
    ensures failed.Some? ==> failed.value == Aborted && work.abortRequested
  {
    failed, heap := None, [];
    for i := 0 to |runs|
      invariant work.Valid() && (old(work.abortRequested) ==> work.abortRequested)
      invariant Merging(heap, runs, less) && Left(heap, runs) == Bag(runs[..i]) && failed.None? && |heap| == i
    {
      failed := work.Step(plan.heapBytes, plan.heapItems);
      if failed.Some? {
        return;
      }
      ghost var effort;
      heap, effort := PushRun(heap, HeapEntry(runs[i][0], i, 0), runs, less);
      WidthMonotone(i + 1, |runs|);
      assert effort <= plan.heapItems;
      OneMoreRun(runs, i);
    }
    assert runs[..|runs|] == runs;
  }

  lemma OneMoreRun<T>(runs: seq<seq<T>>, i: nat)
    requires i < |runs|
    ensures Bag(runs[..i + 1]) == Bag(runs[..i]) + multiset(runs[i]) && runs[i][0..] == runs[i]
  {
    assert runs[..i + 1] == runs[..i] + [runs[i]];
    BagSnoc(runs[..i], runs[i]);
  }

  /** A head the last output does not come before is its twin. */
  lemma MergeTwins<T(!new)>(output: seq<T>, left: multiset<T>, x: T, less: (T, T) -> bool)
    requires output != [] && x in left
    requires !less(output[|output| - 1], x) && !less(x, output[|output| - 1])
    ensures BagTwins(multiset(output) + left, less)
  {
    var m, o := multiset(output) + left, output[|output| - 1];
    assert o in multiset(output);
    assert o in m && x in m && Equivalent(o, x, less) && (o != x || m[o] > 1);
  }

  lemma IncreasingOn<T(!new)>(output: seq<T>, x: T, less: (T, T) -> bool)
    requires StrictWeak(less) && Increasing(output, less) && (output != [] ==> less(output[|output| - 1], x))
    ensures Increasing(output + [x], less)
  {
    forall j | 0 <= j < |output| ensures less(output[j], x) {
      if j < |output| - 1 {
        assert less(output[j], output[|output| - 1]);
      }
    }
  }

  /** Takes the least head, unless it is the twin of the last output. */
  method MergeOne<T(!new)>(runs: seq<seq<T>>, heap: seq<HeapEntry<T>>, output: seq<T>, less: (T, T) -> bool)
    returns (twin: bool, rest: seq<HeapEntry<T>>, more: seq<T>, ghost effort: nat)
    requires StrictWeak(less) && Heads(runs, less) && Merging(heap, runs, less)
    requires heap != [] && |heap| <= |runs| && Increasing(output, less)
    requires output != [] ==> NoneBefore(heap, runs, output[|output| - 1], less)
    ensures |rest| <= |heap| && effort <= StepItems(|runs|)
    ensures twin ==> BagTwins(multiset(output) + Left(heap, runs), less)
    ensures !twin ==>
      && Merging(rest, runs, less) && Increasing(more, less) && |more| == |output| + 1
      && multiset(more) + Left(rest, runs) == multiset(output) + Left(heap, runs)
      && NoneBefore(rest, runs, more[|output|], less)
  {
    var top;
    rest, top, effort := PopRun(heap, runs, less);
    effort := effort + 1;
    WidthMonotone(|heap|, |runs|);
    more := output;
    HeadIsLeft(top, runs);
    if output != [] && !less(output[|output| - 1], top.value) {
      HeadNotBefore(heap, runs, output[|output| - 1], top.value, less);
      MergeTwins(output, Left(heap, runs), top.value, less);
      return true, rest, more, effort;
    }
    IncreasingOn(output, top.value, less);
    ghost var pushing;
    rest, pushing := PushNext(rest, top, runs, less);
    effort := effort + pushing;
    more := output + [top.value];
    twin := false;
  }

  lemma HeadIsLeft<T>(e: HeapEntry<T>, runs: seq<seq<T>>)
    requires OnRun(e, runs)
    ensures e.value in multiset(Rest(e, runs))
  {
    assert Rest(e, runs)[0] == e.value;
  }

  /** What is left and not before x, said of the multiset. */
  lemma {:induction false} HeadNotBefore<T>(h: seq<HeapEntry<T>>, runs: seq<seq<T>>, x: T, y: T, less: (T, T) -> bool)
    requires NoneBefore(h, runs, x, less) && y in Left(h, runs)
    ensures !less(y, x)
  {
    if y in multiset(Rest(h[0], runs)) {
      assert Behind(Rest(h[0], runs), x, less);
    } else {
      HeadNotBefore(h[1..], runs, x, y, less);
    }
  }

  /** Part way through a merge: what is taken is in order, what is left is in the heap, and none of it comes before
      what was taken. */
  ghost predicate Midway<T>(heap: seq<HeapEntry<T>>, runs: seq<seq<T>>, output: seq<T>, less: (T, T) -> bool) {
    && Merging(heap, runs, less) && |heap| <= |runs| && Increasing(output, less)
    && multiset(output) + Left(heap, runs) == Bag(runs)
    && (output != [] ==> NoneBefore(heap, runs, output[|output| - 1], less))
  }

  method MergeNext<T(!new)>(runs: seq<seq<T>>, heap: seq<HeapEntry<T>>, output: seq<T>, less: (T, T) -> bool)
    returns (twin: bool, rest: seq<HeapEntry<T>>, more: seq<T>, ghost effort: nat)
    requires StrictWeak(less) && Heads(runs, less) && heap != [] && Midway(heap, runs, output, less)
    ensures effort <= StepItems(|runs|)
    ensures twin ==> BagTwins(Bag(runs), less)
    ensures !twin ==> Midway(rest, runs, more, less) && |Left(rest, runs)| < |Left(heap, runs)|
  {
    twin, rest, more, effort := MergeOne(runs, heap, output, less);
    if !twin {
      LeftShrinks(output, Left(heap, runs), more, Left(rest, runs));
    }
  }

  /** Takes least heads until the heap is empty or two entries turn out equivalent. */
  method Merge<T(!new)>(work: Work, runs: seq<seq<T>>, filled: seq<HeapEntry<T>>, plan: Plan, less: (T, T) -> bool)
    returns (failed: Option<Errc>, heap: seq<HeapEntry<T>>, output: seq<T>)
    requires work.Valid() && StrictWeak(less) && Heads(runs, less)
    requires Merging(filled, runs, less) && Left(filled, runs) == Bag(runs) && |filled| <= |runs|
    requires plan.heapItems == StepItems(|runs|) && work.WithinQuantum(plan.heapBytes, plan.heapItems)
    modifies work
    ensures work.Valid() && (old(work.abortRequested) ==> work.abortRequested)
    ensures failed.None? ==> heap == [] && Increasing(output, less) && multiset(output) == Bag(runs)
    ensures failed.Some? ==>
      || (failed.value == Aborted && work.abortRequested)
      || (failed.value == MalformedData && BagTwins(Bag(runs), less))
  {
    failed, heap, output := None, filled, [];
    while heap != []
      invariant work.Valid() && (old(work.abortRequested) ==> work.abortRequested)
      invariant failed.None? && Midway(heap, runs, output, less)
      decreases |Left(heap, runs)|
    {
      failed := work.Step(plan.heapBytes, plan.heapItems);
      if failed.Some? {
        return;
      }
      ghost var effort;
      var twin;
      twin, heap, output, effort := MergeNext(runs, heap, output, less);
      assert effort <= plan.heapItems;
      if twin {
        failed := Some(MalformedData);
        return;
      }
    }
  }

  lemma LeftShrinks<T>(output: seq<T>, left: multiset<T>, more: seq<T>, rest: multiset<T>)
    requires multiset(more) + rest == multiset(output) + left && |more| == |output| + 1
    ensures |rest| < |left|
  {
    assert |multiset(more) + rest| == |more| + |rest|;
    assert |multiset(output) + left| == |output| + |left|;
  }

  // ----- cleanup and the whole -----

  /** Drops entries one by one; each drain fits a quantum. */
  method DrainEntries<T>(work: Work, entries: seq<T>, entry: nat) returns (left: seq<T>)
    requires work.Valid() && (entries != [] ==> work.WithinQuantum(2 * entry, 2))
    modifies work
    ensures work.Valid() && (old(work.abortRequested) ==> work.abortRequested) && left == []
  {
    left := entries;
    while left != []
      invariant work.Valid() && (old(work.abortRequested) ==> work.abortRequested)
      decreases |left|
    {
      work.Drain(2 * entry, 2);
      left := left[1..];
    }
  }

  /** Teardown of whatever an exit path still holds. Heap entries, runs and reserved vectors exist only
      once the plan's explicit check has passed; entries only after the very first one. */
  method CleanUp<T>(work: Work, sizes: Sizes, planned: bool, heap: seq<HeapEntry<T>>, input: seq<T>, runs: seq<seq<T>>)
    requires work.Valid() && CanDrainEntries(work, sizes)
    requires planned ==> CanDrainAll(work, sizes)
    requires !planned ==> heap == [] && runs == []
    modifies work
    ensures work.Valid() && (old(work.abortRequested) ==> work.abortRequested)
  {
    var _ := DrainEntries(work, heap, sizes.heapEntry);
    if planned {
      work.Drain(2 * sizes.heapVector, 2);
    }
    var _ := DrainEntries(work, input, sizes.entry);
    var left := runs;
    while left != []
      invariant work.Valid() && (old(work.abortRequested) ==> work.abortRequested)
      invariant !planned ==> left == []
      decreases |left|
    {
      var _ := DrainEntries(work, left[|left| - 1], sizes.entry);
      work.Drain(2 * sizes.run, 2);
      left := left[..|left| - 1];
    }
    if planned {
      work.Drain(2 * sizes.runVector, 2);
    }
  }

  /** The runs, the heap of their heads and the merge, and what is left of each when one of them stops. */
  method RunAndMerge<T(!new)>(work: Work, source: seq<T>, sizes: Sizes, plan: Plan, less: (T, T) -> bool)
    returns (failed: Option<Errc>, input: seq<T>, runs: seq<seq<T>>, heap: seq<HeapEntry<T>>, output: seq<T>)
    requires work.Valid() && StrictWeak(less) && Planned(work, sizes, |source|, plan)
    modifies work
    ensures work.Valid() && (old(work.abortRequested) ==> work.abortRequested)
    ensures failed.None? ==>
      && Lengths(runs) == RunSizes(|source|, plan.runSize) && |output| == |source|
      && Increasing(output, less) && multiset(output) == multiset(source)
    ensures failed.Some? ==>
      || (failed.value == Aborted && work.abortRequested)
      || (failed.value == MalformedData && Twins(source, less))
  {
    heap, output := [], [];
    failed, input, runs := BuildRuns(work, source, plan, sizes.entry, less);
    if failed.Some? {
      return;
    }
    RunsCounted(|source|, plan.runSize);
    failed, heap := FillHeap(work, runs, plan, less);
    if failed.Some? {
      return;
    }
    failed, heap, output := Merge(work, runs, heap, plan, less);
    TwinsInBag(source, less);
    if failed.None? {
      SameSize(output, source);
    }
  }

  /** The plan, the runs and the merge, with the teardown that follows on every path. What was held by the end of a
      merge fits every bound: the runs it was made of, the vectors of the runs and of their heads, and the chunks of
      the source and of the output. */
  method SortAndMerge<T(!new)>(work: Work, source: seq<T>, sizes: Sizes, memory: Memory, limits: Limits,
                               charge: nat -> nat, less: (T, T) -> bool)
    returns (failed: Option<Errc>, output: seq<T>, ghost merged: seq<seq<T>>)
    requires work.Valid() && StrictWeak(less) && source != []
    requires sizes.entry > 0 && sizes.chunkEntries > 0 && CanDrainEntries(work, sizes) && Fits(limits.maxMetadata)
    modifies work
    ensures work.Valid() && (old(work.abortRequested) ==> work.abortRequested)
    ensures failed.None? ==>
      && Admissible(|source|, sizes, memory, limits, charge, work)
      && HeldFits(|output|, Lengths(merged), sizes, memory, limits, charge)
      && Increasing(output, less) && multiset(output) == multiset(source)
    ensures failed.Some? ==>
      || (failed.value == Aborted && work.abortRequested)
      || (failed.value == MalformedData && Twins(source, less))
      || (failed.value != MalformedData && !Admissible(|source|, sizes, memory, limits, charge, work))
  {
    var plan;
    output, merged := [], [];
    failed, plan := MakePlan(work, sizes, |source|, memory, limits, charge);
    if failed.Some? {
      CleanUp<T>(work, sizes, false, [], source, []);
      return;
    }
    var input, runs, heap;
    failed, input, runs, heap, output := RunAndMerge(work, source, sizes, plan, less);
    merged := runs;
    CleanUp(work, sizes, true, heap, input, runs);
  }

  /** What a caller must bring for anything but an abort or two equivalent entries to be the outcome. */
  ghost predicate Acceptable(count: nat, freeChunks: nat, memory: Memory, charge: Option<nat -> nat>, work: Work,
                             sizes: Sizes, limits: Limits)
    requires sizes.entry > 0 && sizes.chunkEntries > 0
  {
    && charge.Some? && freeChunks == 0
    && if count == 0 then work.itemQuantum > 0
       else CanDrainEntries(work, sizes) && Admissible(count, sizes, memory, limits, charge.value, work)
  }

  /** Returns a strictly increasing arrangement of the source exactly when no two of its entries are
      equivalent, and malformed data exactly when two are, for every acceptable call that is not aborted. */
  method CanonicalizeUnordered<T(!new)>(source: seq<T>, freeChunks: nat, memory: Memory, charge: Option<nat -> nat>,
                                       work: Work, sizes: Sizes, limits: Limits, less: (T, T) -> bool)
    returns (r: Result<seq<T>>)
    requires work.Valid() && StrictWeak(less) && sizes.entry > 0 && sizes.chunkEntries > 0 && Fits(limits.maxMetadata)
    modifies work
    ensures work.Valid() && (old(work.abortRequested) ==> work.abortRequested)
    ensures r.Ok? ==>
      && Acceptable(|source|, freeChunks, memory, charge, work, sizes, limits)
      && charge.Some? && freeChunks == 0 && |source| <= limits.maxEntries
      && Increasing(r.value, less) && multiset(r.value) == multiset(source) && !Twins(source, less)
    ensures r.Err? ==>
      || (r.error == Aborted && work.abortRequested)
      || (r.error == MalformedData && Twins(source, less))
      || (r.error != MalformedData && !Acceptable(|source|, freeChunks, memory, charge, work, sizes, limits))
  {
    if charge.None? || freeChunks != 0 {
      return Err(InvalidArgument);
    }
    if source != [] && (2 * sizes.entry > work.byteQuantum || work.itemQuantum < 2) {
      return Err(ResourceExhausted);
    }
    var failed: Option<Errc>, output: seq<T> := None, [];
    if source == [] {
      if work.Poll().Err? {
        return Err(Aborted);
      }
      failed := work.Step(0, 0);
      if failed.Some? {
        return Err(failed.value);
      }
    } else {
      ghost var merged;
      failed, output, merged := SortAndMerge(work, source, sizes, memory, limits, charge.value, less);
    }
    if failed.None? && work.Poll().Err? {
      failed := Some(Aborted);
    }
    if failed.Some? {
      if source != [] {
        var _ := DrainEntries(work, output, sizes.entry);
      }
      return Err(failed.value);
    }
    IncreasingHasNoTwins(source, output, less);
    return Ok(output);
  }
}
