/**
 Conservative allocation charges of a buffer, of a slice of it, and the batched
 scan a cooperative owner makes (src/bytes/fragmented_buffer.cc,
 src/bytes/fragmented_buffer_parser.cc, src/codec/buffer_cost_internal.h).
 */
module BufferCost {
  import opened Units
  import opened Fragments

  datatype Cost = Cost(backing: nat, descriptors: nat, controls: nat, largest: nat, fragments: nat) {
    function Sum(): nat {
      backing + descriptors + controls
    }
  }

  const FREE: Cost := Cost(0, 0, 0, 0, 0)

  /** The profile function and the sizes of a descriptor and of a share control. */
  datatype Profile = Profile(charge: nat -> nat, descriptor: nat, control: nat)

  ghost predicate ProfileOk(pf: Profile) {
    forall n :: Fits(pf.charge(n))
  }

  datatype Category = Backing | Descriptors | Controls

  function Due(pf: Profile, requested: nat): nat {
    if requested == 0 then 0 else pf.charge(requested)
  }

  predicate Honest(pf: Profile, requested: nat) {
    requested == 0 || pf.charge(requested) >= requested
  }

  function Add(c: Cost, k: Category, amount: nat): Cost {
    var most := Max(c.largest, amount);
    match k
    case Backing => c.(backing := c.backing + amount, largest := most)
    case Descriptors => c.(descriptors := c.descriptors + amount, largest := most)
    case Controls => c.(controls := c.controls + amount, largest := most)
  }

  /** add_allocation_charge: the running total bounds every category. */
  function AddCharge(pf: Profile, c: Cost, k: Category, requested: nat): (r: Result<Cost>)
    requires ProfileOk(pf) && Fits(c.Sum())
    ensures r.Ok? <==> Honest(pf, requested) && Fits(c.Sum() + Due(pf, requested))
    ensures r.Ok? ==> r.value == Add(c, k, Due(pf, requested)) && Fits(r.value.Sum())
    ensures r.Err? ==> r.error == if Honest(pf, requested) then OutOfRange else InvalidArgument
  {
    if requested == 0 then Ok(c)
    else
      var charged := pf.charge(requested);
      if charged < requested then Err(InvalidArgument)
      else if CheckedAdd(c.Sum(), charged).None? then Err(OutOfRange)
      else Ok(Add(c, k, charged))
  }

  function Plus(a: Cost, b: Cost): Cost {
    Cost(a.backing + b.backing, a.descriptors + b.descriptors, a.controls + b.controls, Max(a.largest, b.largest),
         a.fragments + b.fragments)
  }

  /** One fragment: its backing and one share control. */
  function One(pf: Profile, f: Fragment): Cost {
    Cost(Due(pf, f.retained), 0, Due(pf, pf.control), Max(Due(pf, f.retained), Due(pf, pf.control)), 1)
  }

  /** The charges of fragments, with nothing checked. */
  function CostOf(pf: Profile, fs: seq<Fragment>): Cost {
    if fs == [] then FREE else Plus(CostOf(pf, fs[..|fs| - 1]), One(pf, fs[|fs| - 1]))
  }

  /** What the allocations that fragments keep alive are charged. */
  ghost function Backings(pf: Profile, fs: seq<Fragment>): nat {
    if fs == [] then 0 else Due(pf, fs[0].retained) + Backings(pf, fs[1..])
  }

  /** The charges, category by category: every fragment its backing and one control. */
  lemma {:induction false} CostIs(pf: Profile, fs: seq<Fragment>)
    ensures var c := CostOf(pf, fs);
      && c.backing == Backings(pf, fs) && c.controls == |fs| * Due(pf, pf.control)
      && c.descriptors == 0 && c.fragments == |fs|
    decreases |fs|
  {
    if fs != [] {
      var n, due := |fs| - 1, Due(pf, pf.control);
      var front := fs[..n];
      CostIs(pf, front);
      BackingsSnoc(pf, front, fs[n]);
      assert fs == front + [fs[n]];
      assert (n + 1) * due == n * due + due;
    }
  }

  /** No single charge is larger than the largest, */
  lemma {:induction false} LargestBounds(pf: Profile, fs: seq<Fragment>, i: nat)
    requires i < |fs|
    ensures Due(pf, fs[i].retained) <= CostOf(pf, fs).largest && Due(pf, pf.control) <= CostOf(pf, fs).largest
    decreases |fs|
  {
    var n := |fs| - 1;
    if i < n {
      LargestBounds(pf, fs[..n], i);
    }
  }

  /** which is one of them. */
  lemma {:induction false} LargestIsCharged(pf: Profile, fs: seq<Fragment>) returns (i: nat)
    requires fs != []
    ensures i < |fs| && CostOf(pf, fs).largest in {Due(pf, fs[i].retained), Due(pf, pf.control)}
    decreases |fs|
  {
    var n := |fs| - 1;
    i := n;
    if n > 0 && CostOf(pf, fs[..n]).largest == CostOf(pf, fs).largest {
      i := LargestIsCharged(pf, fs[..n]);
    }
  }

  lemma {:induction false} BackingsSnoc(pf: Profile, fs: seq<Fragment>, f: Fragment)
    ensures Backings(pf, fs + [f]) == Backings(pf, fs) + Due(pf, f.retained)
  {
    if fs == [] {
      assert ([f])[1..] == [] && fs + [f] == [f];
    } else {
      assert (fs + [f])[1..] == fs[1..] + [f];
      BackingsSnoc(pf, fs[1..], f);
    }
  }

  ghost predicate AllHonest(pf: Profile, fs: seq<Fragment>) {
    forall i :: 0 <= i < |fs| ==> Honest(pf, fs[i].retained) && Honest(pf, pf.control)
  }

  lemma CostSnoc(pf: Profile, fs: seq<Fragment>, f: Fragment)
    ensures CostOf(pf, fs + [f]) == Plus(CostOf(pf, fs), One(pf, f))
  {
    assert (fs + [f])[..|fs|] == fs;
  }

  lemma PlusAssoc(x: Cost, y: Cost, z: Cost)
    ensures Plus(Plus(x, y), z) == Plus(x, Plus(y, z))
  {
  }

  lemma {:induction false} CostConcat(pf: Profile, a: seq<Fragment>, b: seq<Fragment>)
    ensures CostOf(pf, a + b) == Plus(CostOf(pf, a), CostOf(pf, b))
    decreases |b|
  {
    if b == [] {
      assert a + b == a;
    } else {
      var front, last := b[..|b| - 1], b[|b| - 1];
      CostConcat(pf, a, front);
      Regrouped(a, b);
      CostSnoc(pf, a + front, last);
      PlusAssoc(CostOf(pf, a), CostOf(pf, front), One(pf, last));
    }
  }

  lemma Regrouped(a: seq<Fragment>, b: seq<Fragment>)
    requires b != []
    ensures a + b == (a + b[..|b| - 1]) + [b[|b| - 1]]
  {
  }

  /** A part costs no more than the whole. */
  lemma {:induction false} CostMonotone(pf: Profile, c: Cost, fs: seq<Fragment>, i: nat)
    requires i <= |fs|
    ensures Plus(c, CostOf(pf, fs[..i])).Sum() <= Plus(c, CostOf(pf, fs)).Sum()
  {
    assert fs == fs[..i] + fs[i..];
    CostConcat(pf, fs[..i], fs[i..]);
  }

  /** The two charges of one fragment, on top of c, and the fragment counted. */
  function ChargeFragment(pf: Profile, c: Cost, f: Fragment): (r: Result<Cost>)
    requires ProfileOk(pf) && Fits(c.Sum())
    ensures r.Ok? <==> Honest(pf, f.retained) && Honest(pf, pf.control) && Fits(Plus(c, One(pf, f)).Sum())
    ensures r.Ok? ==> r.value == Plus(c, One(pf, f))
    ensures r.Err? ==> r.error == OutOfRange || r.error == InvalidArgument
  {
    match AddCharge(pf, c, Backing, f.retained)
    case Err(e) => Err(e)
    case Ok(d) =>
      match AddCharge(pf, d, Controls, pf.control)
      case Err(e) => Err(e)
      case Ok(e) => Ok(e.(fragments := e.fragments + 1))
  }

  // ----- a range of fragments -----

  /** What a range costs: the descriptor block, of `block` bytes, goes with the range that starts at zero. */
  function RangeCost(pf: Profile, fs: seq<Fragment>, block: nat, first: nat, count: nat): Cost
    requires first + count <= |fs|
  {
    Plus(Opening(pf, block, first), CostOf(pf, fs[first..first + count]))
  }

  function Opening(pf: Profile, block: nat, first: nat): Cost {
    if first == 0 then Cost(0, Due(pf, block), 0, Due(pf, block), 0) else FREE
  }

  /** Category by category: the block once, and every fragment of the range its backing and one control. */
  lemma RangeCostIs(pf: Profile, fs: seq<Fragment>, block: nat, first: nat, count: nat)
    requires first + count <= |fs|
    ensures var c := RangeCost(pf, fs, block, first, count);
      && c.backing == Backings(pf, fs[first..first + count]) && c.controls == count * Due(pf, pf.control)
      && c.descriptors == (if first == 0 then Due(pf, block) else 0) && c.fragments == count
  {
    CostIs(pf, fs[first..first + count]);
  }

  /** Every charge in the range is no less than what it covers, and all of them together can be counted. */
  ghost predicate Payable(pf: Profile, fs: seq<Fragment>, block: nat, first: nat, count: nat)
    requires first + count <= |fs|
  {
    && (first == 0 ==> Fits(block) && Honest(pf, block))
    && AllHonest(pf, fs[first..first + count])
    && Fits(RangeCost(pf, fs, block, first, count).Sum())
  }

  ghost predicate HonestUpTo(pf: Profile, fs: seq<Fragment>, i: nat)
    requires i <= |fs|
  {
    forall j :: 0 <= j < i ==> Honest(pf, fs[j].retained) && Honest(pf, pf.control)
  }

  lemma {:induction false} ChargeStep(pf: Profile, c0: Cost, fs: seq<Fragment>, i: nat)
    requires i < |fs|
    ensures Plus(c0, CostOf(pf, fs[..i + 1])) == Plus(Plus(c0, CostOf(pf, fs[..i])), One(pf, fs[i]))
    ensures Plus(c0, CostOf(pf, fs[..i + 1])).Sum() <= Plus(c0, CostOf(pf, fs)).Sum()
    ensures HonestUpTo(pf, fs, i) && Honest(pf, fs[i].retained) && Honest(pf, pf.control) ==> HonestUpTo(pf, fs, i + 1)
    ensures AllHonest(pf, fs) ==> Honest(pf, fs[i].retained) && Honest(pf, pf.control)
  {
    assert fs[..i + 1] == fs[..i] + [fs[i]];
    CostSnoc(pf, fs[..i], fs[i]);
    PlusAssoc(c0, CostOf(pf, fs[..i]), One(pf, fs[i]));
    CostMonotone(pf, c0, fs, i + 1);
  }

  /** Charges fragments one after the other on top of c. */
  method ChargeAll(pf: Profile, c0: Cost, fs: seq<Fragment>) returns (r: Result<Cost>)
    requires ProfileOk(pf) && Fits(c0.Sum())
    ensures r.Ok? <==> AllHonest(pf, fs) && Fits(Plus(c0, CostOf(pf, fs)).Sum())
    ensures r.Ok? ==> r.value == Plus(c0, CostOf(pf, fs))
    ensures r.Err? ==> r.error == OutOfRange || r.error == InvalidArgument
  {
    var c := c0;
    for i := 0 to |fs|
      invariant c == Plus(c0, CostOf(pf, fs[..i])) && Fits(c.Sum())
      invariant HonestUpTo(pf, fs, i)
    {
      ChargeStep(pf, c0, fs, i);
      r := ChargeFragment(pf, c, fs[i]);
      if r.Err? {
        return;
      }
      c := r.value;
    }
    assert fs[..|fs|] == fs;
    return Ok(c);
  }

  lemma AddDescriptors(c: Cost, d: nat)
    ensures Add(c, Descriptors, d) == Plus(c, Cost(0, d, 0, d, 0))
  {
  }

  lemma PlusFree(c: Cost)
    ensures Plus(FREE, c) == c
  {
  }

  /** The descriptor block, charged with the range that starts at zero. */
  method ChargeOpening(pf: Profile, block: nat, first: nat) returns (r: Result<Cost>)
    requires ProfileOk(pf)
    ensures r.Ok? <==> (first == 0 ==> Fits(block) && Honest(pf, block))
    ensures r.Ok? ==> r.value == Opening(pf, block, first) && Fits(r.value.Sum())
    ensures r.Err? ==> r.error == OutOfRange || r.error == InvalidArgument
  {
    if first != 0 {
      return Ok(FREE);
    }
    if !Fits(block) {
      return Err(OutOfRange);
    }
    AddDescriptors(FREE, Due(pf, block));
    PlusFree(Opening(pf, block, 0));
    r := AddCharge(pf, FREE, Descriptors, block);
  }

  /** The bounded query: an accounting exists exactly when the range is payable. */
  method AllocationCost(pf: Profile, fs: seq<Fragment>, block: nat, first: nat, count: nat) returns (r: Result<Cost>)
    requires ProfileOk(pf) && Fits(first) && Fits(count)
    ensures r.Ok? <==> first + count <= |fs| && Payable(pf, fs, block, first, count)
    ensures r.Ok? ==> r.value == RangeCost(pf, fs, block, first, count)
    ensures r.Err? ==> r.error == OutOfRange || r.error == InvalidArgument
  {
    if first > |fs| || count > |fs| - first {
      return Err(OutOfRange);
    }
    var start := ChargeOpening(pf, block, first);
    if start.Err? {
      return start;
    }
    r := ChargeAll(pf, start.value, fs[first..first + count]);
  }

  // ----- the batched scan -----

  /** What the scan has added up: the opening block and every fragment so far. */
  function Scanned(pf: Profile, fs: seq<Fragment>, block: nat, first: nat): Cost
    requires first <= |fs|
  {
    Plus(Opening(pf, block, 0), CostOf(pf, fs[..first]))
  }

  lemma {:induction false} CostSlice(pf: Profile, fs: seq<Fragment>, first: nat, count: nat)
    requires first + count <= |fs|
    ensures CostOf(pf, fs[..first + count]) == Plus(CostOf(pf, fs[..first]), CostOf(pf, fs[first..first + count]))
  {
    assert fs[..first + count] == fs[..first] + fs[first..first + count];
    CostConcat(pf, fs[..first], fs[first..first + count]);
  }

  /** One batch more: batches add up to the whole, whatever their sizes. */
  lemma {:induction false} BatchStep(pf: Profile, fs: seq<Fragment>, block: nat, first: nat, count: nat)
    requires first + count <= |fs|
    ensures
      first > 0 ==>
      Scanned(pf, fs, block, first + count) ==
      Plus(Scanned(pf, fs, block, first), RangeCost(pf, fs, block, first, count))
    ensures first == 0 ==> Scanned(pf, fs, block, count) == Plus(FREE, RangeCost(pf, fs, block, 0, count))
  {
    if first > 0 {
      CostSlice(pf, fs, first, count);
      PlusAssoc(Opening(pf, block, 0), CostOf(pf, fs[..first]), CostOf(pf, fs[first..first + count]));
    } else {
      assert fs[0..count] == fs[..count];
    }
  }

  lemma {:induction false} ScannedWhole(pf: Profile, fs: seq<Fragment>, block: nat, first: nat)
    requires first <= |fs|
    ensures Scanned(pf, fs, block, first).Sum() <= RangeCost(pf, fs, block, 0, |fs|).Sum()
    ensures first == |fs| ==> Scanned(pf, fs, block, first) == RangeCost(pf, fs, block, 0, |fs|)
  {
    assert fs[0..|fs|] == fs && fs[..|fs|] == fs;
    CostMonotone(pf, Opening(pf, block, 0), fs, first);
  }

  lemma {:induction false} PartSum(pf: Profile, fs: seq<Fragment>, block: nat, first: nat, count: nat)
    requires first + count <= |fs|
    ensures RangeCost(pf, fs, block, first, count).Sum() <= RangeCost(pf, fs, block, 0, |fs|).Sum()
  {
    BatchStep(pf, fs, block, first, count);
    ScannedWhole(pf, fs, block, first + count);
  }

  /** A payable whole has payable parts. */
  lemma {:induction false} PartPayable(pf: Profile, fs: seq<Fragment>, block: nat, first: nat, count: nat)
    requires first + count <= |fs| && Payable(pf, fs, block, 0, |fs|)
    ensures Payable(pf, fs, block, first, count)
  {
    PartSum(pf, fs, block, first, count);
    var part := fs[first..first + count];
    forall i | 0 <= i < |part| ensures Honest(pf, part[i].retained) && Honest(pf, pf.control) {
      assert part[i] == fs[0..|fs|][first + i];
    }
  }

  /** What holds of the running total between batches: nothing was added, or everything so far was, and every
      charge in it was honest. */
  ghost predicate Running(pf: Profile, fs: seq<Fragment>, block: nat, started: bool, first: nat, total: Cost) {
    if !started then first == 0 && total == FREE
    else
      && first <= |fs| && (first > 0 || fs == [])
      && total == Scanned(pf, fs, block, first) && Fits(total.Sum())
      && Fits(block) && Honest(pf, block) && HonestUpTo(pf, fs, first)
  }

  lemma {:induction false} HonestStep(pf: Profile, fs: seq<Fragment>, first: nat, count: nat)
    requires first + count <= |fs| && HonestUpTo(pf, fs, first) && AllHonest(pf, fs[first..first + count])
    ensures HonestUpTo(pf, fs, first + count)
  {
    var part := fs[first..first + count];
    forall j | 0 <= j < first + count ensures Honest(pf, fs[j].retained) && Honest(pf, pf.control) {
      if j >= first {
        assert part[j - first] == fs[j];
      }
    }
  }

  /** Queries one batch and adds it to the running total. */
  method AddBatch(pf: Profile, fs: seq<Fragment>, block: nat, started: bool, first: nat, count: nat, total: Cost)
    returns (r: Result<Cost>)
    requires ProfileOk(pf) && Running(pf, fs, block, started, first, total)
    requires first + count <= |fs| <= MAX_FRAGMENTS && (if started then first > 0 else count > 0 || fs == [])
    ensures r.Ok? ==> Running(pf, fs, block, true, first + count, r.value)
    ensures r.Err? ==> (r.error == OutOfRange || r.error == InvalidArgument) && !Payable(pf, fs, block, 0, |fs|)
  {
    r := AllocationCost(pf, fs, block, first, count);
    if r.Err? {
      if Payable(pf, fs, block, 0, |fs|) {
        PartPayable(pf, fs, block, first, count);
      }
      return;
    }
    BatchStep(pf, fs, block, first, count);
    ScannedWhole(pf, fs, block, first + count);
    HonestStep(pf, fs, first, count);
    var next := Plus(total, r.value);
    if !Fits(next.Sum()) {
      return Err(OutOfRange);
    }
    return Ok(next);
  }

  lemma {:induction false} RunningDone(pf: Profile, fs: seq<Fragment>, block: nat, total: Cost)
    requires Running(pf, fs, block, true, |fs|, total)
    ensures Payable(pf, fs, block, 0, |fs|) && total == RangeCost(pf, fs, block, 0, |fs|)
  {
    ScannedWhole(pf, fs, block, |fs|);
    assert fs[0..|fs|] == fs;
  }
}
