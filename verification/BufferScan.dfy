/**
 The batched cost scan of a cooperative owner (src/codec/buffer_cost_internal.h).
 */
module BufferScan {
  import opened Units
  import opened Fragments
  import opened CooperativeWork
  import opened BufferCost

  /** The cooperative scan: with a quantum of at least six items (or an empty buffer) no batch asks for more
      than a quantum, and unless it is aborted it succeeds exactly when the one-shot query does, with the
      same totals. */
  method BufferInputCost(pf: Profile, fs: seq<Fragment>, block: nat, work: Work) returns (r: Result<Cost>)
    requires ProfileOk(pf) && work.Valid() && work.itemQuantum > 0 && |fs| <= MAX_FRAGMENTS
    modifies work
    ensures work.Valid() && (old(work.abortRequested) ==> work.abortRequested)
    ensures r.Ok? ==> Payable(pf, fs, block, 0, |fs|) && r.value == RangeCost(pf, fs, block, 0, |fs|)
    ensures r.Err? ==>
      || (r.error == Aborted && work.abortRequested)
      || (r.error == ResourceExhausted && fs != [] && work.itemQuantum < 6)
      || ((r.error == OutOfRange || r.error == InvalidArgument) && !Payable(pf, fs, block, 0, |fs|))
  {
    var quantum := work.itemQuantum;
    if fs != [] && quantum < 6 {
      return Err(ResourceExhausted);
    }
    var batch: nat := if quantum < 6 then 1 else (quantum - 2) / 4;
    var total, first, started := FREE, 0, false;
    while !started || first != |fs|
      invariant work.Valid() && (old(work.abortRequested) ==> work.abortRequested)
      invariant Running(pf, fs, block, started, first, total)
      decreases |fs| - first, !started
    {
      var count := Min(|fs| - first, batch);
      var admitted := work.Admit(0, if count == 0 then 1 else 4 * count + 2);
      if admitted.Err? {
        return Err(admitted.error);
      }
      if work.Poll().Err? {
        return Err(Aborted);
      }
      var next := AddBatch(pf, fs, block, started, first, count, total);
      if next.Err? {
        return next;
      }
      total, first, started := next.value, first + count, true;
    }
    RunningDone(pf, fs, block, total);
    return Ok(total);
  }
}
