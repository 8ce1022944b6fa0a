/**
 The checks canonicalization makes before anything but its input is held: how
 long a run may be, what the largest merge step and every cleanup step cost, and
 what all the blocks it will hold come to (src/codec/collection.h).
 */
module CanonicalPlan {
  import opened Units
  import opened CooperativeWork

  /** sizeof of what is held: an entry, a heap entry, the three kinds of vector, an input chunk. */
  datatype Sizes = Sizes(entry: nat, heapEntry: nat, heapVector: nat, run: nat, runVector: nat,
                         chunk: nat, chunkEntries: nat)

  datatype Limits = Limits(maxEntries: nat, maxAllocation: nat, maxScratch: nat, maxMetadata: nat, maxOperation: nat)

  datatype Memory = Memory(metadataRemaining: nat, operationRemaining: nat)

  const MAX_RUN: nat := 64
  const MAX_RUN_BYTES: nat := 8192

  /** What the first check of the coroutine leaves possible: draining an entry. */
  ghost predicate CanDrainEntries(work: Work, sizes: Sizes) {
    2 * sizes.entry <= work.byteQuantum && 2 <= work.itemQuantum
  }

  /** And what the explicit size check adds, before the first heap entry or run exists. */
  ghost predicate CanDrainAll(work: Work, sizes: Sizes) {
    && CanDrainEntries(work, sizes)
    && 2 * sizes.heapEntry <= work.byteQuantum
    && 2 * sizes.heapVector <= work.byteQuantum
    && 2 * sizes.run <= work.byteQuantum
    && 2 * sizes.runVector <= work.byteQuantum
  }

  datatype Plan = Plan(runSize: nat, heapBytes: nat, heapItems: nat)

  /** What a merge step is admitted for: 8 items for every level of a heap of all the runs, and 16 more. */
  function StepItems(runCount: nat): nat {
    8 * BitWidth(runCount) + 16
  }

  /** How long a run is for so many entries, and what a step of their merge is admitted for. */
  ghost predicate Planned(work: Work, sizes: Sizes, count: nat, plan: Plan) {
    && CanDrainAll(work, sizes)
    && 0 < plan.runSize <= MAX_RUN && plan.runSize * sizes.entry <= MAX_RUN_BYTES
    && plan.heapItems == StepItems(Chunks(count, plan.runSize))
    && plan.heapBytes == plan.heapItems * (sizes.heapEntry + 2 * sizes.entry)
    && work.WithinQuantum(plan.heapBytes, plan.heapItems)
  }

  function Charged(requested: nat, charge: nat -> nat): Result<nat> {
    if requested == 0 then Ok(0)
    else if charge(requested) < requested then Err(InvalidArgument)
    else Ok(charge(requested))
  }

  /** A run of n entries may be allocated in one block. */
  predicate OneBlock(entry: nat, n: nat, maxAllocation: nat, charge: nat -> nat) {
    var served := Charged(n * entry, charge);
    served.Ok? && served.value <= maxAllocation
  }

  /** It would be charged, and for more than the largest allocation. */
  predicate TooLarge(entry: nat, n: nat, maxAllocation: nat, charge: nat -> nat) {
    0 < n * entry <= charge(n * entry) && maxAllocation < charge(n * entry)
  }

  /** The longest run of at most n entries one allocation of which is allowed, or why there is none: every one is too
      large, or short of those one is charged less than it takes. */
  function RunFor(entry: nat, n: nat, maxAllocation: nat, charge: nat -> nat): (r: Result<nat>)
    ensures r.Ok? ==>
      && 0 < r.value <= n && OneBlock(entry, r.value, maxAllocation, charge)
      && forall m :: r.value < m <= n ==> TooLarge(entry, m, maxAllocation, charge)
    ensures r.Err? ==> r.error == ResourceExhausted || r.error == InvalidArgument
    ensures r == Err(ResourceExhausted) ==> forall m :: 0 < m <= n ==> TooLarge(entry, m, maxAllocation, charge)
    ensures r == Err(InvalidArgument) ==>
      exists m :: 0 < m <= n && charge(m * entry) < m * entry
                  && forall k :: m < k <= n ==> TooLarge(entry, k, maxAllocation, charge)
  {
    if n == 0 then Err(ResourceExhausted)
    else
      match Charged(n * entry, charge)
      case Err(error) => Err(error)
      case Ok(served) => if served <= maxAllocation then Ok(n) else RunFor(entry, n - 1, maxAllocation, charge)
  }

  /** The most entries of a run whose sort is one bounded leaf. */
  function LongestRun(entry: nat, count: nat): (n: nat)
    requires entry > 0
    ensures n <= count && n <= MAX_RUN && n * entry <= MAX_RUN_BYTES
    ensures n < count && n < MAX_RUN ==> (n + 1) * entry > MAX_RUN_BYTES
  {
    DivModIs(MAX_RUN_BYTES, entry);
    var n := Min(count, Min(MAX_RUN, MAX_RUN_BYTES / entry));
    assert n * entry <= MAX_RUN_BYTES / entry * entry;
    n
  }

  lemma DivModIs(n: nat, d: nat)
    requires d > 0
    ensures n == n / d * d + n % d && (n / d + 1) * d > n
  {
  }

  lemma MulAtMost(a: nat, b: nat, d: nat)
    requires a <= b
    ensures a * d <= b * d
  {
    assert b * d == a * d + (b - a) * d;
  }

  lemma DivModUnique(n: nat, d: nat, q: nat, r: nat)
    requires d > 0 && n == q * d + r && r < d
    ensures n / d == q && n % d == r
  {
    var p := n / d;
    DivModIs(n, d);
    if p < q {
      MulAtMost(p + 1, q, d);
    } else if p > q {
      MulAtMost(q + 1, p, d);
    }
  }

  /** Shrinks the run until one allocation of it is allowed. */
  method ChooseRun(work: Work, sizes: Sizes, count: nat, maxAllocation: nat, charge: nat -> nat)
    returns (failed: Option<Errc>, runSize: nat)
    requires work.Valid() && sizes.entry > 0 && count > 0 && CanDrainEntries(work, sizes)
    modifies work
    ensures work.Valid() && (old(work.abortRequested) ==> work.abortRequested)
    ensures failed == Some(Aborted) ==> work.abortRequested
    ensures failed != Some(Aborted) ==>
      RunFor(sizes.entry, LongestRun(sizes.entry, count), maxAllocation, charge)
      == if failed.None? then Ok(runSize) else Err(failed.value)
  {
    runSize := LongestRun(sizes.entry, count);
    failed := None;
    ghost var want := RunFor(sizes.entry, runSize, maxAllocation, charge);
    while runSize != 0
      invariant work.Valid() && (old(work.abortRequested) ==> work.abortRequested)
      invariant RunFor(sizes.entry, runSize, maxAllocation, charge) == want
    {
      failed := work.Step(0, 1);
      if failed.Some? {
        return;
      }
      var bytes := Charged(runSize * sizes.entry, charge);
      match bytes {
        case Err(error) => return Some(error), runSize;
        case Ok(served) =>
          if served <= maxAllocation {
            return;
          }
      }
      runSize := runSize - 1;
    }
    failed := Some(ResourceExhausted);
  }

  datatype Kind = RetainedInput | Output | Scratch

  /** Running totals of the admission calculation. */
  datatype Totals = Totals(all: nat, scratch: nat)

  /** What so many blocks of one size are charged. */
  function Blocks(requested: nat, allocations: nat, charge: nat -> nat): nat {
    Price(requested, charge) * allocations
  }

  /** The fewest chunks that hold so many entries. */
  function Chunks(count: nat, per: nat): (k: nat)
    requires per > 0
    ensures count <= k * per && (k > 0 ==> (k - 1) * per < count)
  {
    DivModIs(count, per);
    count / per + if count % per != 0 then 1 else 0
  }

  datatype Request = Request(bytes: nat, allocations: nat, kind: Kind)

  /** Every block the run-sort and the merge allocate or hold, in the order it is charged. */
  function Requests(count: nat, runSize: nat, runCount: nat, sizes: Sizes): seq<Request>
    requires runSize > 0 && sizes.chunkEntries > 0
  {
    var chunks := Chunks(count, sizes.chunkEntries);
    [Request(sizes.chunk, chunks + 1, RetainedInput),
     Request(sizes.chunk, chunks, Output),
     Request(runSize * sizes.entry, count / runSize, Scratch)]
    + (if count % runSize != 0 then [Request(count % runSize * sizes.entry, 1, Scratch)] else [])
    + [Request(runCount * sizes.run, 1, Scratch), Request(runCount * sizes.heapEntry, 1, Scratch)]
  }

  // ----- what those blocks are -----

  /** What one block is charged. */
  function Price(bytes: nat, charge: nat -> nat): nat {
    if bytes == 0 then 0 else charge(bytes)
  }

  /** The sizes of the runs n entries are cut into. */
  function RunSizes(n: nat, size: nat): (lengths: seq<nat>)
    requires size > 0
    decreases n
  {
    if n == 0 then [] else [Min(size, n)] + RunSizes(n - Min(size, n), size)
  }

  ghost function Prices(lengths: seq<nat>, entry: nat, charge: nat -> nat): nat {
    if lengths == [] then 0 else Price(lengths[0] * entry, charge) + Prices(lengths[1..], entry, charge)
  }

  /** Every run, the vector of the runs and the heap of their heads. */
  ghost function ScratchHeld(lengths: seq<nat>, sizes: Sizes, charge: nat -> nat): nat {
    Prices(lengths, sizes.entry, charge)
    + Price(|lengths| * sizes.run, charge) + Price(|lengths| * sizes.heapEntry, charge)
  }

  /** Those, the chunks of the input and the one it holds ahead, and the chunks of as long an output. */
  ghost function AllHeld(count: nat, lengths: seq<nat>, sizes: Sizes, charge: nat -> nat): nat
    requires sizes.chunkEntries > 0
  {
    var chunks := Chunks(count, sizes.chunkEntries);
    Blocks(sizes.chunk, chunks + 1, charge) + Blocks(sizes.chunk, chunks, charge)
    + ScratchHeld(lengths, sizes, charge)
  }

  predicate Block(bytes: nat, maxAllocation: nat, charge: nat -> nat) {
    bytes > 0 ==> bytes <= charge(bytes) <= maxAllocation
  }

  /** Each block can be allocated, and all of them together are within every bound. */
  ghost predicate HeldFits(count: nat, lengths: seq<nat>, sizes: Sizes, memory: Memory, limits: Limits,
                           charge: nat -> nat)
    requires sizes.chunkEntries > 0
  {
    && (forall i :: 0 <= i < |lengths| ==> Block(lengths[i] * sizes.entry, limits.maxAllocation, charge))
    && Block(|lengths| * sizes.run, limits.maxAllocation, charge)
    && Block(|lengths| * sizes.heapEntry, limits.maxAllocation, charge)
    && Block(sizes.chunk, limits.maxAllocation, charge)
    && ScratchHeld(lengths, sizes, charge) <= limits.maxScratch
    && AllHeld(count, lengths, sizes, charge) <= Min(memory.metadataRemaining, limits.maxMetadata)
    && AllHeld(count, lengths, sizes, charge) <= Min(memory.operationRemaining, limits.maxOperation)
  }

  lemma OneRunLess(n: nat, size: nat)
    requires 0 < size <= n
    ensures n / size > 0 && (n - size) / size == n / size - 1 && (n - size) % size == n % size
  {
    DivModIs(n, size);
    var q, r := n / size, n % size;
    assert (q - 1) * size == q * size - size;
    DivModUnique(n - size, size, q - 1, r);
  }

  /** So many full runs, and one for what is left over. */
  ghost function FullAndLast(full: nat, size: nat, last: nat): seq<nat> {
    if full > 0 then [size] + FullAndLast(full - 1, size, last) else if last == 0 then [] else [last]
  }

  lemma {:induction false} RunSizesAre(n: nat, size: nat)
    requires size > 0
    ensures RunSizes(n, size) == FullAndLast(n / size, size, n % size)
    decreases n
  {
    if n >= size {
      OneRunLess(n, size);
      RunSizesAre(n - size, size);
    } else if n > 0 {
      DivModUnique(n, size, 0, n);
      assert RunSizes(0, size) == [];
    }
  }

  lemma {:induction false} FullAndLastAre(full: nat, size: nat, last: nat)
    ensures var lengths := FullAndLast(full, size, last);
      && |lengths| == full + (if last == 0 then 0 else 1)
      && forall i :: 0 <= i < |lengths| ==> lengths[i] == if i < full then size else last
  {
    if full > 0 {
      FullAndLastAre(full - 1, size, last);
    }
  }

  lemma RunsCounted(n: nat, size: nat)
    requires size > 0
    ensures |RunSizes(n, size)| == Chunks(n, size)
  {
    RunSizesAre(n, size);
    FullAndLastAre(n / size, size, n % size);
  }

  lemma {:induction false} PricesAre(full: nat, size: nat, last: nat, entry: nat, charge: nat -> nat)
    ensures Prices(FullAndLast(full, size, last), entry, charge)
            == Price(size * entry, charge) * full + if last == 0 then 0 else Price(last * entry, charge)
  {
    var lengths := FullAndLast(full, size, last);
    if full > 0 {
      PricesAre(full - 1, size, last, entry, charge);
      assert lengths[1..] == FullAndLast(full - 1, size, last);
      OneMoreTimes(full, Price(size * entry, charge));
    } else if last > 0 {
      assert lengths[1..] == [];
    }
  }

  lemma OneMoreTimes(n: nat, x: nat)
    requires n > 0
    ensures x * n == x * (n - 1) + x
  {
  }

  /** Charges all the blocks of one request. */
  function ChargeMany(t: Totals, r: Request, charge: nat -> nat, maxAllocation: nat): (next: Result<Totals>)
    requires Fits(t.all) && Fits(t.scratch)
    ensures var blocks := Blocks(r.bytes, r.allocations, charge);
      var scratch := t.scratch + if r.kind == Scratch then blocks else 0;
      && (next.Ok? <==> Allowed(r, maxAllocation, charge) && Fits(t.all + blocks) && Fits(scratch))
      && (next.Ok? ==> next.value == Totals(t.all + blocks, scratch))
    ensures next.Err? ==> next.error != Aborted && next.error != MalformedData
  {
    match Charged(r.bytes, charge)
    case Err(error) => Err(error)
    case Ok(charged) =>
      if r.kind != RetainedInput && charged > maxAllocation then Err(ResourceExhausted)
      else
        var total := CheckedMul(charged, r.allocations);
        if total.None? then Err(OutOfRange)
        else
          var all := CheckedAdd(t.all, total.value);
          var scratch := if r.kind == Scratch then CheckedAdd(t.scratch, total.value) else Some(t.scratch);
          if all.None? || scratch.None? then Err(OutOfRange) else Ok(Totals(all.value, scratch.value))
  }

  /** What they come to, charged block by block. */
  ghost function Needed(rs: seq<Request>, charge: nat -> nat, scratchOnly: bool): nat {
    if rs == [] then 0
    else
      var last := rs[|rs| - 1];
      Needed(rs[..|rs| - 1], charge, scratchOnly)
      + if scratchOnly && last.kind != Scratch then 0 else Blocks(last.bytes, last.allocations, charge)
  }

  /** Charged no less than asked for, and if it is newly allocated, no more than the largest allocation. */
  predicate Allowed(r: Request, maxAllocation: nat, charge: nat -> nat) {
    r.bytes > 0 ==> r.bytes <= charge(r.bytes) && (r.kind != RetainedInput ==> charge(r.bytes) <= maxAllocation)
  }

  ghost predicate AllAllowed(rs: seq<Request>, maxAllocation: nat, charge: nat -> nat) {
    forall i :: 0 <= i < |rs| ==> Allowed(rs[i], maxAllocation, charge)
  }

  /** Every block is allowed, and all of them together are within every bound. */
  ghost predicate MemoryFits(rs: seq<Request>, memory: Memory, limits: Limits, charge: nat -> nat) {
    && AllAllowed(rs, limits.maxAllocation, charge)
    && Needed(rs, charge, true) <= limits.maxScratch
    && Needed(rs, charge, false) <= Min(memory.metadataRemaining, limits.maxMetadata)
    && Needed(rs, charge, false) <= Min(memory.operationRemaining, limits.maxOperation)
  }

  /** What the first requests come to, with one more, and at most. */
  lemma {:induction false} NeededUpTo(rs: seq<Request>, charge: nat -> nat, i: nat)
    requires i <= |rs|
    ensures Needed(rs[..i], charge, true) <= Needed(rs[..i], charge, false) <= Needed(rs, charge, false)
    decreases |rs|
  {
    if i == |rs| {
      assert rs[..i] == rs;
      if rs != [] {
        var front := rs[..|rs| - 1];
        NeededUpTo(front, charge, |front|);
        assert front[..|front|] == front;
      }
    } else {
      var front := rs[..|rs| - 1];
      assert front[..i] == rs[..i];
      NeededUpTo(front, charge, i);
    }
  }

  lemma NeededStep(rs: seq<Request>, charge: nat -> nat, i: nat)
    requires i < |rs|
    ensures var blocks := Blocks(rs[i].bytes, rs[i].allocations, charge);
      && Needed(rs[..i + 1], charge, false) == Needed(rs[..i], charge, false) + blocks
      && Needed(rs[..i + 1], charge, true)
         == Needed(rs[..i], charge, true) + if rs[i].kind == Scratch then blocks else 0
  {
    assert rs[..i + 1][..i] == rs[..i];
  }

  lemma NeededMore(rs: seq<Request>, r: Request, charge: nat -> nat)
    ensures Needed(rs + [r], charge, false) == Needed(rs, charge, false) + Blocks(r.bytes, r.allocations, charge)
    ensures Needed(rs + [r], charge, true)
            == Needed(rs, charge, true) + if r.kind == Scratch then Blocks(r.bytes, r.allocations, charge) else 0
  {
    assert (rs + [r])[..|rs|] == rs;
  }

  /** Two kinds of chunk, full runs and perhaps a last one, and two vectors. */
  lemma NeededList(input: Request, output: Request, full: Request, last: seq<Request>, vector: Request, heap: Request,
                   charge: nat -> nat)
    requires input.kind == RetainedInput && output.kind == Output && |last| <= 1
    requires full.kind == vector.kind == heap.kind == Scratch && (last != [] ==> last[0].kind == Scratch)
    ensures var rs := [input, output, full] + last + [vector, heap];
      var scratch := Blocks(full.bytes, full.allocations, charge)
                     + (if last == [] then 0 else Blocks(last[0].bytes, last[0].allocations, charge))
                     + Blocks(vector.bytes, vector.allocations, charge) + Blocks(heap.bytes, heap.allocations, charge);
      && Needed(rs, charge, true) == scratch
      && Needed(rs, charge, false)
         == Blocks(input.bytes, input.allocations, charge) + Blocks(output.bytes, output.allocations, charge) + scratch
  {
    NeededMore([], input, charge);
    NeededMore([] + [input], output, charge);
    NeededMore([] + [input] + [output], full, charge);
    var most := [] + [input] + [output] + [full];
    if last != [] {
      NeededMore(most, last[0], charge);
      most := most + [last[0]];
    }
    NeededMore(most, vector, charge);
    NeededMore(most + [vector], heap, charge);
    assert [input, output, full] + last + [vector, heap] == most + [vector] + [heap];
  }

  lemma ScratchIs(count: nat, runSize: nat, sizes: Sizes, charge: nat -> nat)
    requires runSize > 0
    ensures var runs, full, last := Chunks(count, runSize), count / runSize, count % runSize;
      ScratchHeld(RunSizes(count, runSize), sizes, charge)
      == Blocks(runSize * sizes.entry, full, charge) + (if last == 0 then 0 else Blocks(last * sizes.entry, 1, charge))
         + Blocks(runs * sizes.run, 1, charge) + Blocks(runs * sizes.heapEntry, 1, charge)
  {
    var full, last := count / runSize, count % runSize;
    RunSizesAre(count, runSize);
    FullAndLastAre(full, runSize, last);
    PricesAre(full, runSize, last, sizes.entry, charge);
  }

  /** The requests, kind by kind. */
  lemma RequestsAre(count: nat, runSize: nat, sizes: Sizes)
    returns (input: Request, output: Request, full: Request, last: seq<Request>, vector: Request, heap: Request)
    requires runSize > 0 && sizes.chunkEntries > 0
    ensures var chunks, runs := Chunks(count, sizes.chunkEntries), Chunks(count, runSize);
      && input == Request(sizes.chunk, chunks + 1, RetainedInput) && output == Request(sizes.chunk, chunks, Output)
      && full == Request(runSize * sizes.entry, count / runSize, Scratch)
      && last == (if count % runSize != 0 then [Request(count % runSize * sizes.entry, 1, Scratch)] else [])
      && vector == Request(runs * sizes.run, 1, Scratch) && heap == Request(runs * sizes.heapEntry, 1, Scratch)
      && Requests(count, runSize, runs, sizes) == [input, output, full] + last + [vector, heap]
  {
    var chunks, runs := Chunks(count, sizes.chunkEntries), Chunks(count, runSize);
    input, output := Request(sizes.chunk, chunks + 1, RetainedInput), Request(sizes.chunk, chunks, Output);
    full := Request(runSize * sizes.entry, count / runSize, Scratch);
    last := if count % runSize != 0 then [Request(count % runSize * sizes.entry, 1, Scratch)] else [];
    vector, heap := Request(runs * sizes.run, 1, Scratch), Request(runs * sizes.heapEntry, 1, Scratch);
  }

  /** The requests come to the blocks that will be held. */
  lemma NeededIs(count: nat, runSize: nat, sizes: Sizes, charge: nat -> nat)
    requires runSize > 0 && sizes.chunkEntries > 0
    ensures var rs, lengths := Requests(count, runSize, Chunks(count, runSize), sizes), RunSizes(count, runSize);
      && Needed(rs, charge, true) == ScratchHeld(lengths, sizes, charge)
      && Needed(rs, charge, false) == AllHeld(count, lengths, sizes, charge)
  {
    var input, output, full, last, vector, heap := RequestsAre(count, runSize, sizes);
    NeededList(input, output, full, last, vector, heap, charge);
    ScratchIs(count, runSize, sizes, charge);
  }

  /** What all the requests come to, unless one is not allowed or the sum is out of range. */
  method AddUp(rs: seq<Request>, maxAllocation: nat, charge: nat -> nat) returns (r: Result<Totals>)
    ensures r.Ok? <==> AllAllowed(rs, maxAllocation, charge) && Fits(Needed(rs, charge, false))
    ensures r.Ok? ==> r.value == Totals(Needed(rs, charge, false), Needed(rs, charge, true))
    ensures r.Err? ==> r.error != Aborted && r.error != MalformedData
  {
    var t := Totals(0, 0);
    for i := 0 to |rs|
      invariant Fits(t.all) && Fits(t.scratch)
      invariant t == Totals(Needed(rs[..i], charge, false), Needed(rs[..i], charge, true))
      invariant forall j :: 0 <= j < i ==> Allowed(rs[j], maxAllocation, charge)
    {
      NeededStep(rs, charge, i);
      NeededUpTo(rs, charge, i + 1);
      r := ChargeMany(t, rs[i], charge, maxAllocation);
      if r.Err? {
        return;
      }
      t := r.value;
    }
    assert rs[..|rs|] == rs;
    return Ok(t);
  }

  /** Admits exactly what fits. */
  method ValidateMemory(rs: seq<Request>, memory: Memory, limits: Limits, charge: nat -> nat)
    returns (failed: Option<Errc>)
    requires Fits(limits.maxMetadata)
    ensures failed.None? <==> MemoryFits(rs, memory, limits, charge)
    ensures failed.Some? ==> failed.value != Aborted && failed.value != MalformedData
  {
    var sum := AddUp(rs, limits.maxAllocation, charge);
    if sum.Err? {
      return Some(sum.error);
    }
    var t := sum.value;
    if t.scratch > limits.maxScratch || t.all > Min(memory.metadataRemaining, limits.maxMetadata) {
      return Some(ResourceExhausted);
    }
    if t.all > Min(limits.maxOperation, memory.operationRemaining) {
      return Some(ResourceExhausted);
    }
    return None;
  }

  /** The requests are admitted exactly when the blocks that will be held fit. */
  lemma RequestsAreHeld(count: nat, runSize: nat, sizes: Sizes, memory: Memory, limits: Limits, charge: nat -> nat)
    requires 0 < runSize <= count && sizes.chunkEntries > 0
    ensures MemoryFits(Requests(count, runSize, Chunks(count, runSize), sizes), memory, limits, charge) <==>
      HeldFits(count, RunSizes(count, runSize), sizes, memory, limits, charge)
  {
    NeededIs(count, runSize, sizes, charge);
    BlocksAllowed(count, runSize, sizes, limits.maxAllocation, charge);
  }

  lemma BlocksAllowed(count: nat, runSize: nat, sizes: Sizes, maxAllocation: nat, charge: nat -> nat)
    requires 0 < runSize <= count && sizes.chunkEntries > 0
    ensures var lengths := RunSizes(count, runSize);
      AllAllowed(Requests(count, runSize, Chunks(count, runSize), sizes), maxAllocation, charge) <==>
      && (forall i :: 0 <= i < |lengths| ==> Block(lengths[i] * sizes.entry, maxAllocation, charge))
      && Block(|lengths| * sizes.run, maxAllocation, charge)
      && Block(|lengths| * sizes.heapEntry, maxAllocation, charge)
      && Block(sizes.chunk, maxAllocation, charge)
  {
    var rs, lengths := Requests(count, runSize, Chunks(count, runSize), sizes), RunSizes(count, runSize);
    RunSizesAre(count, runSize);
    FullAndLastAre(count / runSize, runSize, count % runSize);
    OneRunLess(count, runSize);
    var n := |rs|;
    assert rs[1].bytes == sizes.chunk && rs[2].bytes == runSize * sizes.entry;
    assert rs[n - 2].bytes == |lengths| * sizes.run && rs[n - 1].bytes == |lengths| * sizes.heapEntry;
    assert lengths[0] == runSize;
    if count % runSize != 0 {
      assert rs[3].bytes == count % runSize * sizes.entry && lengths[|lengths| - 1] == count % runSize;
    }
  }

  /** The largest merge step and every cleanup step fit a quantum. */
  predicate StepsFit(runCount: nat, sizes: Sizes, byteQuantum: nat, itemQuantum: nat) {
    var items := StepItems(runCount);
    && items <= itemQuantum && items * (sizes.heapEntry + 2 * sizes.entry) <= byteQuantum
    && 2 * sizes.heapEntry <= byteQuantum && 2 * sizes.heapVector <= byteQuantum
    && 2 * sizes.run <= byteQuantum && 2 * sizes.runVector <= byteQuantum
  }

  /** The explicit size check. */
  function FitPlan(runSize: nat, runCount: nat, sizes: Sizes, byteQuantum: nat, itemQuantum: nat): (r: Option<Plan>)
    ensures r.Some? <==> StepsFit(runCount, sizes, byteQuantum, itemQuantum)
    ensures r.Some? ==>
      && r.value.runSize == runSize && r.value.heapItems == StepItems(runCount)
      && r.value.heapBytes == r.value.heapItems * (sizes.heapEntry + 2 * sizes.entry)
  {
    var items := StepItems(runCount);
    var bytes := items * (sizes.heapEntry + 2 * sizes.entry);
    var cleanup := Max(Max(2 * sizes.heapEntry, 2 * sizes.heapVector), Max(2 * sizes.run, 2 * sizes.runVector));
    if items > itemQuantum || bytes > byteQuantum || cleanup > byteQuantum then None
    else Some(Plan(runSize, bytes, items))
  }

  lemma RunBounded(entry: nat, count: nat, maxAllocation: nat, charge: nat -> nat, runSize: nat)
    requires entry > 0 && RunFor(entry, LongestRun(entry, count), maxAllocation, charge) == Ok(runSize)
    ensures 0 < runSize <= Min(count, MAX_RUN) && runSize * entry <= MAX_RUN_BYTES
  {
    MulAtMost(runSize, LongestRun(entry, count), entry);
  }

  /** What the checks made before anything but the input is held come to, apart from an abort. */
  ghost predicate Admissible(count: nat, sizes: Sizes, memory: Memory, limits: Limits, charge: nat -> nat, work: Work)
    requires sizes.entry > 0 && sizes.chunkEntries > 0
  {
    && count <= limits.maxEntries
    && match RunFor(sizes.entry, LongestRun(sizes.entry, count), limits.maxAllocation, charge)
       case Err(_) => false
       case Ok(runSize) =>
         var runCount := Chunks(count, runSize);
         && StepsFit(runCount, sizes, work.byteQuantum, work.itemQuantum)
         && HeldFits(count, RunSizes(count, runSize), sizes, memory, limits, charge)
  }

  /** All of them. */
  method MakePlan(work: Work, sizes: Sizes, count: nat, memory: Memory, limits: Limits, charge: nat -> nat)
    returns (failed: Option<Errc>, plan: Plan)
    requires work.Valid() && sizes.entry > 0 && sizes.chunkEntries > 0 && count > 0 && CanDrainEntries(work, sizes)
    requires Fits(limits.maxMetadata)
    modifies work
    ensures work.Valid() && (old(work.abortRequested) ==> work.abortRequested)
    ensures failed.None? ==>
      && Planned(work, sizes, count, plan) && Admissible(count, sizes, memory, limits, charge, work)
      && HeldFits(count, RunSizes(count, plan.runSize), sizes, memory, limits, charge)
    ensures failed.Some? ==>
      || (failed.value == Aborted && work.abortRequested)
      || (failed.value != MalformedData && !Admissible(count, sizes, memory, limits, charge, work))
  {
    plan := Plan(0, 0, 0);
    if work.Poll().Err? {
      return Some(Aborted), plan;
    }
    if count > limits.maxEntries {
      return Some(ResourceExhausted), plan;
    }
    var runSize;
    failed, runSize := ChooseRun(work, sizes, count, limits.maxAllocation, charge);
    if failed.Some? {
      return;
    }
    RunBounded(sizes.entry, count, limits.maxAllocation, charge, runSize);
    var runCount := Chunks(count, runSize);
    match FitPlan(runSize, runCount, sizes, work.byteQuantum, work.itemQuantum) {
      case None => return Some(ResourceExhausted), plan;
      case Some(fits) => plan := fits;
    }
    RequestsAreHeld(count, runSize, sizes, memory, limits, charge);
    failed := ValidateMemory(Requests(count, runSize, runCount, sizes), memory, limits, charge);
    if failed.Some? {
      return;
    }
    failed := work.Step(0, 2);
  }
}
