/**
 What a slice would charge, asked by absolute offset or from a parser's position
 (src/bytes/fragmented_buffer.cc, src/bytes/fragmented_buffer_parser.cc).
 */
module SliceCost {
  import opened Units
  import opened Fragments
  import opened FragmentedBuffers
  import opened BufferCost
  import opened ParserSteps
  import opened BufferParser

  /** The windows of a slice lie one in each of as many fragments, from the first on. */
  lemma {:induction false} FromTouches(fs: seq<Fragment>, i: nat, skip: nat, n: nat)
    requires NoneEmpty(fs) && i <= |fs| && (i < |fs| ==> skip < fs[i].len)
    ensures var w := From(fs, i, skip, n);
      i + |w| <= |fs| && forall j :: 0 <= j < |w| ==> w[j].retained == fs[i + j].retained
    decreases |fs| - i
  {
    if i < |fs| && n > 0 {
      var take := Min(fs[i].len - skip, n);
      FromTouches(fs, i + 1, 0, n - take);
      var rest := From(fs, i + 1, 0, n - take);
      var w := [fs[i].Cut(skip, take)] + rest;
      forall j | 0 <= j < |w| ensures w[j].retained == fs[i + j].retained {
        if j > 0 {
          assert w[j] == rest[j - 1];
        }
      }
    }
  }

  /** Fragments cost what they keep alive, whatever they present of it. */
  lemma {:induction false} CostByRetained(pf: Profile, a: seq<Fragment>, b: seq<Fragment>)
    requires |a| == |b| && forall j :: 0 <= j < |a| ==> a[j].retained == b[j].retained
    ensures CostOf(pf, a) == CostOf(pf, b)
    ensures AllHonest(pf, a) <==> AllHonest(pf, b)
  {
    if a != [] {
      CostByRetained(pf, a[..|a| - 1], b[..|b| - 1]);
      forall i | 0 <= i < |a|
        ensures
          (Honest(pf, a[i].retained) && Honest(pf, pf.control)) <==>
          (Honest(pf, b[i].retained) && Honest(pf, pf.control))
      {
      }
    }
  }

  /** How many fragments a slice touches. */
  method CountTouched(fs: seq<Fragment>, first: nat, offset: nat, length: nat)
    returns (failed: Option<Errc>, touched: nat)
    requires NoneEmpty(fs) && first < |fs| && offset < fs[first].len
    requires Total(fs[..first]) + offset + length <= Total(fs)
    ensures failed.None? && touched == |From(fs, first, offset, length)|
  {
    touched := 0;
    var skip: nat, remaining: nat, index: nat := offset, length, first;
    while index < |fs| && remaining != 0
      invariant index <= |fs| && (index < |fs| ==> skip < fs[index].len)
      invariant touched + |From(fs, index, skip, remaining)| == |From(fs, first, offset, length)|
      invariant remaining == 0 || Total(fs[..index]) + skip + remaining <= Total(fs)
    {
      TotalAt(fs, index);
      var take := Min(fs[index].len - skip, remaining);
      touched := touched + 1;
      remaining := remaining - take;
      skip := 0;
      index := index + 1;
    }
    assert fs[..|fs|] == fs;
    if remaining != 0 {
      return Some(OutOfRange), touched;
    }
    return None, touched;
  }

  /** A descriptor block: exact for a share of the whole buffer, twice as large for any other. */
  function BlockBytes(pf: Profile, touched: nat, whole: bool): nat {
    (if whole then touched else 2 * touched) * pf.descriptor
  }

  /** What a slice costs: its backing and share controls, and its descriptors, one block for a share of the
      whole buffer and two for any other. */
  function SliceDue(pf: Profile, windows: seq<Fragment>, whole: bool): Cost {
    var block := Due(pf, BlockBytes(pf, |windows|, whole));
    var once := Add(CostOf(pf, windows), Descriptors, block);
    if whole then once else Add(once, Descriptors, block)
  }

  /** Category by category: every touched fragment its backing and one control, and one exact descriptor block for a
      share of the whole buffer, or two blocks twice as large. */
  lemma SliceDueIs(pf: Profile, windows: seq<Fragment>, whole: bool)
    ensures var c := SliceDue(pf, windows, whole);
      && c.backing == Backings(pf, windows) && c.controls == |windows| * Due(pf, pf.control)
      && c.fragments == |windows|
      && c.descriptors == if whole then Due(pf, |windows| * pf.descriptor)
                          else 2 * Due(pf, 2 * |windows| * pf.descriptor)
  {
    CostIs(pf, windows);
  }

  ghost predicate SlicePayable(pf: Profile, windows: seq<Fragment>, whole: bool) {
    var block := BlockBytes(pf, |windows|, whole);
    && AllHonest(pf, windows) && Fits(block) && Honest(pf, block) && Fits(SliceDue(pf, windows, whole).Sum())
  }

  /** The descriptor blocks, on top of the rest. */
  function ChargeBlocks(pf: Profile, c: Cost, block: nat, whole: bool): (r: Result<Cost>)
    requires ProfileOk(pf) && Fits(c.Sum())
    ensures var once := Add(c, Descriptors, Due(pf, block));
      var all := if whole then once else Add(once, Descriptors, Due(pf, block));
      && (r.Ok? <==> Fits(block) && Honest(pf, block) && Fits(all.Sum()))
      && (r.Ok? ==> r.value == all)
      && (r.Err? ==> r.error == OutOfRange || r.error == InvalidArgument)
  {
    if !Fits(block) then Err(OutOfRange)
    else
      match AddCharge(pf, c, Descriptors, block)
      case Err(e) => Err(e)
      case Ok(d) => if whole then Ok(d) else AddCharge(pf, d, Descriptors, block)
  }

  method ChargeSlice(pf: Profile, touched: seq<Fragment>, whole: bool) returns (r: Result<Cost>)
    requires ProfileOk(pf)
    ensures r.Ok? <==> SlicePayable(pf, touched, whole)
    ensures r.Ok? ==> r.value == SliceDue(pf, touched, whole)
    ensures r.Err? ==> r.error == OutOfRange || r.error == InvalidArgument
  {
    PlusFree(CostOf(pf, touched));
    r := ChargeAll(pf, FREE, touched);
    if r.Ok? {
      r := ChargeBlocks(pf, r.value, BlockBytes(pf, |touched|, whole), whole);
    }
  }

  lemma {:induction false} SliceByRetained(pf: Profile, a: seq<Fragment>, b: seq<Fragment>, whole: bool)
    requires |a| == |b| && forall j :: 0 <= j < |a| ==> a[j].retained == b[j].retained
    ensures SliceDue(pf, a, whole) == SliceDue(pf, b, whole)
    ensures SlicePayable(pf, a, whole) <==> SlicePayable(pf, b, whole)
  {
    CostByRetained(pf, a, b);
  }

  lemma AtFront(fs: seq<Fragment>, first: nat, offset: nat)
    requires NoneEmpty(fs) && first < |fs|
    ensures Total(fs[..first]) + offset == 0 <==> first == 0 && offset == 0
  {
    if first > 0 {
      TotalAt(fs, first - 1);
    }
  }

  /** The query from a position inside a fragment. */
  method SliceCostFrom(pf: Profile, fs: seq<Fragment>, first: nat, offset: nat, length: nat) returns (r: Result<Cost>)
    requires ProfileOk(pf) && NoneEmpty(fs) && first < |fs| && offset < fs[first].len && length > 0
    requires Total(fs[..first]) + offset + length <= Total(fs)
    ensures SliceAnswer(pf, fs, Total(fs[..first]) + offset, length, r)
  {
    FromIsSlice(fs, first, offset, length);
    FromTouches(fs, first, offset, length);
    AtFront(fs, first, offset);
    var failed, touched := CountTouched(fs, first, offset, length);
    match failed {
      case Some(error) => return Err(error);
      case None =>
    }
    var whole := first == 0 && offset == 0 && length == Total(fs);
    SliceByRetained(pf, From(fs, first, offset, length), fs[first..first + touched], whole);
    r := ChargeSlice(pf, fs[first..first + touched], whole);
  }

  /** The answer for the slice at an absolute offset. */
  ghost predicate SliceAnswer(pf: Profile, fs: seq<Fragment>, at: nat, length: nat, r: Result<Cost>)
    requires at + length <= Total(fs)
  {
    var windows, whole := Slice(fs, at, length), at == 0 && length == Total(fs);
    if length == 0 then r == Ok(FREE)
    else
      && (r.Ok? <==> SlicePayable(pf, windows, whole))
      && (r.Ok? ==> r.value == SliceDue(pf, windows, whole))
      && (r.Err? ==> r.error == OutOfRange || r.error == InvalidArgument)
  }

  /** The query by absolute offset. */
  method SliceAllocationCost(pf: Profile, b: FragmentedBuffer, offset: nat, length: nat) returns (r: Result<Cost>)
    requires ProfileOk(pf) && b.Valid() && Fits(offset) && Fits(length)
    ensures offset + length > b.size ==> r == Err(OutOfRange)
    ensures offset + length <= b.size ==> SliceAnswer(pf, b.fragments, offset, length, r)
  {
    var end := CheckedAdd(offset, length);
    if end.None? || end.value > b.size {
      return Err(OutOfRange);
    }
    if length == 0 {
      return Ok(FREE);
    }
    var index, off := b.Locate(offset);
    r := SliceCostFrom(pf, b.fragments, index, off, length);
  }

  /** The query from a parser's position: the same answer as by the absolute offset it stands at. */
  method NextBufferCost(pf: Profile, p: Parser, length: nat) returns (r: Result<Cost>)
    requires ProfileOk(pf) && p.Valid()
    ensures p.at.consumed + length > p.buffer.size ==> r == Err(OutOfRange)
    ensures p.at.consumed + length <= p.buffer.size ==> SliceAnswer(pf, p.buffer.fragments, p.at.consumed, length, r)
  {
    if length > p.BytesRemaining() {
      return Err(OutOfRange);
    }
    if length == 0 {
      return Ok(FREE);
    }
    PosBound(p.buffer.fragments, p.at);
    r := SliceCostFrom(pf, p.buffer.fragments, p.at.fragment, p.at.offset, length);
  }
}
