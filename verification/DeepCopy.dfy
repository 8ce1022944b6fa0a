/**
 Deep copies: new storage in bounded chunks, whatever the source's fragmentation
 (src/bytes/fragmented_buffer.cc).
 */
module DeepCopy {
  import opened Units
  import opened Fragments
  import opened FragmentedBuffers
  import opened SizeClasses

  const MAX_SMALL_ALLOCATION: nat := 0x4000   // 16 KiB

  /** Exact small allocations, then the power of two below, capped at the contiguous ceiling. */
  function ChunkSize(remaining: nat): (r: nat)
    ensures r <= Min(remaining, MAX_CONTIGUOUS)
    ensures remaining > 0 ==> r > 0
  {
    if remaining <= MAX_SMALL_ALLOCATION then remaining else Min(Pow2(Log2(remaining)), MAX_CONTIGUOUS)
  }

  /** A small copy is one exact allocation; of a larger one a chunk is the ceiling, or the largest power of two there
      is room for. */
  lemma ChunkSizeIs(remaining: nat, k: nat)
    ensures remaining <= MAX_SMALL_ALLOCATION ==> ChunkSize(remaining) == remaining
    ensures remaining > MAX_SMALL_ALLOCATION && Pow2(k) <= Min(remaining, MAX_CONTIGUOUS) ==>
      Pow2(k) <= ChunkSize(remaining)
    ensures remaining > MAX_SMALL_ALLOCATION ==>
      ChunkSize(remaining) == MAX_CONTIGUOUS || exists j: nat :: ChunkSize(remaining) == Pow2(j)
  {
    if remaining > MAX_SMALL_ALLOCATION && Pow2(k) <= remaining {
      Log2AtLeast(remaining, k);
      Pow2Monotone(k, Log2(remaining));
    }
  }

  /** A position inside a part, or past the last one. */
  ghost predicate Inside(p: seq<seq<byte>>, i: nat, a: nat) {
    i <= |p| && if i < |p| then a < |p[i]| else a == 0
  }

  /** Copies the next `count` bytes, from `offset` bytes into part `index`, into new storage. */
  method FillChunk(p: seq<seq<byte>>, index: nat, offset: nat, count: nat)
    returns (storage: array<byte>, i: nat, a: nat)
    requires Inside(p, index, offset)
    requires forall k :: 0 <= k < |p| ==> |p[k]| > 0
    requires Start(p, index) + offset + count <= |Join(p)|
    ensures fresh(storage) && storage.Length == count
    ensures storage[..] == Join(p)[Start(p, index) + offset..Start(p, index) + offset + count]
    ensures Inside(p, i, a)
    ensures Start(p, i) + a == Start(p, index) + offset + count
  {
    storage := new byte[count];
    var written: nat := 0;
    i, a := index, offset;
    ghost var pos := Start(p, index) + offset;
    ghost var flat := Join(p);
    while written < count
      invariant written <= count
      invariant Inside(p, i, a)
      invariant Start(p, i) + a == pos + written
      invariant storage[..written] == flat[pos..pos + written]
    {
      if i == |p| {
        StartOfAll(p);
        assert false;
      }
      var span := Min(|p[i]| - a, count - written);
      NextSpan(p, i, a, storage, written, span, pos);
      written := written + span;
      a := a + span;
      if a == |p[i]| {
        i, a := i + 1, 0;
      }
    }
    assert storage[..] == storage[..written];
  }

  /** The first `done` bytes have been copied into allocations of these sizes. */
  ghost predicate Copied(fs: seq<Fragment>, sizes: seq<nat>, flat: seq<byte>, done: nat)
    reads Arrays(fs)
  {
    && Sound(fs) && OfSizes(fs, sizes)
    && Retained(fs) == Total(fs) == done <= |flat|
    && Flat(fs) == flat[..done]
  }

  lemma OneMore(fs: seq<Fragment>, sizes: seq<nat>, f: Fragment, flat: seq<byte>, done: nat)
    requires Copied(fs, sizes, flat, done) && f.Ok() && f.len > 0 && f.Whole(f.len)
    requires done + f.len <= |flat| && f.data[..] == flat[done..done + f.len]
    ensures Copied(fs + [f], sizes + [f.len], flat, done + f.len)
  {
    FlatSnoc(fs, f);
    TotalSnoc(fs, f);
    assert f.Bytes() == f.data[..];
    assert flat[..done + f.len] == flat[..done] + flat[done..done + f.len];
  }

  /** While bytes remain, every chunk is at least a 1024th of the whole, so there is room for another. */
  lemma FewChunks(count: nat, minimum: nat, done: nat, size: nat)
    requires Times(count, minimum) <= done < size <= MAX_FRAGMENTS * minimum
    ensures count < MAX_FRAGMENTS
  {
    if count >= MAX_FRAGMENTS {
      TimesMonotone(MAX_FRAGMENTS, count, minimum);
    }
  }

  function NextChunk(remaining: nat, minimum: nat): (chunk: nat)
    requires remaining > 0 && minimum <= MAX_CONTIGUOUS
    ensures 0 < chunk <= Min(remaining, MAX_CONTIGUOUS)
    ensures Min(remaining, minimum) <= chunk
  {
    Min(remaining, Max(ChunkSize(remaining), minimum))
  }

  /** The sizes of the chunks of a copy of n bytes. */
  function CopySizes(n: nat, minimum: nat): seq<nat>
    requires minimum <= MAX_CONTIGUOUS
  {
    if n == 0 then []
    else
      var chunk := NextChunk(n, minimum);
      [chunk] + CopySizes(n - chunk, minimum)
  }

  method AddChunk(fs: seq<Fragment>, ghost sizes: seq<nat>, p: seq<seq<byte>>, index: nat, offset: nat,
                  count: nat, start: nat)
    returns (more: seq<Fragment>, i: nat, a: nat, done: nat)
    requires Inside(p, index, offset) && start == Start(p, index) + offset
    requires forall k :: 0 <= k < |p| ==> |p[k]| > 0
    requires 0 < count <= MAX_CONTIGUOUS && start + count <= |Join(p)|
    requires Copied(fs, sizes, Join(p), start)
    ensures |more| == |fs| + 1
    ensures forall k :: 0 <= k < |more| ==> (k < |fs| && more[k] == fs[k]) || fresh(more[k].data)
    ensures Inside(p, i, a) && done == start + count == Start(p, i) + a
    ensures Copied(more, sizes + [count], Join(p), done)
  {
    var storage;
    storage, i, a := FillChunk(p, index, offset, count);
    done := start + count;
    FlatKept(fs);
    var f := Fragment(storage, 0, count, count);
    OneMore(fs, sizes, f, Join(p), start);
    more := fs + [f];
  }

  /** The first `done` bytes are copied, in chunks few enough, and the next one to copy is byte a of view i. */
  ghost predicate Underway(p: seq<seq<byte>>, size: nat, minimum: nat, fs: seq<Fragment>, sizes: seq<nat>,
                           i: nat, a: nat, done: nat)
    reads Arrays(fs)
  {
    && done <= size && |fs| <= MAX_FRAGMENTS
    && Inside(p, i, a) && Start(p, i) + a == done
    && (done < size ==> Times(|fs|, minimum) <= done)
    && Copied(fs, sizes, Join(p), done)
  }

  lemma SizesStep(sizes: seq<nat>, n: nat, minimum: nat, all: seq<nat>)
    requires minimum <= MAX_CONTIGUOUS && n > 0 && all == sizes + CopySizes(n, minimum)
    ensures var chunk := NextChunk(n, minimum); all == (sizes + [chunk]) + CopySizes(n - chunk, minimum)
  {
  }

  method CopyOne(p: seq<seq<byte>>, size: nat, minimum: nat, fs: seq<Fragment>, ghost sizes: seq<nat>,
                 index: nat, offset: nat, start: nat)
    returns (more: seq<Fragment>, i: nat, a: nat, done: nat)
    requires start < size == |Join(p)| <= MAX_FRAGMENTS * minimum && minimum <= MAX_CONTIGUOUS
    requires forall k :: 0 <= k < |p| ==> |p[k]| > 0
    requires Underway(p, size, minimum, fs, sizes, index, offset, start)
    ensures done == start + NextChunk(size - start, minimum)
    ensures Underway(p, size, minimum, more, sizes + [NextChunk(size - start, minimum)], i, a, done)
    ensures forall k :: 0 <= k < |more| ==> (k < |fs| && more[k] == fs[k]) || fresh(more[k].data)
  {
    var count := NextChunk(size - start, minimum);
    FewChunks(|fs|, minimum, start, size);
    more, i, a, done := AddChunk(fs, sizes, p, index, offset, count, start);
  }

  /** Copies all the bytes of the views into chunks. */
  method CopyChunks(p: seq<seq<byte>>, size: nat, minimum: nat) returns (fs: seq<Fragment>)
    requires 0 < size == |Join(p)| <= MAX_FRAGMENTS * minimum && minimum <= MAX_CONTIGUOUS
    requires forall k :: 0 <= k < |p| ==> |p[k]| > 0
    ensures |fs| <= MAX_FRAGMENTS && Copied(fs, CopySizes(size, minimum), Join(p), size)
    ensures forall k :: 0 <= k < |fs| ==> fresh(fs[k].data)
  {
    fs := [];
    ghost var sizes := [];
    var i: nat, a: nat, done: nat := 0, 0, 0;
    while done < size
      invariant Underway(p, size, minimum, fs, sizes, i, a, done)
      invariant CopySizes(size, minimum) == sizes + CopySizes(size - done, minimum)
      invariant forall k :: 0 <= k < |fs| ==> fresh(fs[k].data)
    {
      ghost var left := size - done;
      fs, i, a, done := CopyOne(p, size, minimum, fs, sizes, i, a, done);
      SizesStep(sizes, left, minimum, CopySizes(size, minimum));
      sizes := sizes + [NextChunk(left, minimum)];
    }
    assert sizes + [] == sizes;
  }

  /** The least chunk that keeps a copy of n bytes within the fragment ceiling. */
  function MinimumChunk(n: nat): (r: nat)
    requires n <= MAX_BYTES
    ensures r <= MAX_CONTIGUOUS && n <= MAX_FRAGMENTS * r && (r > 0 ==> MAX_FRAGMENTS * (r - 1) < n)
  {
    n / MAX_FRAGMENTS + if n % MAX_FRAGMENTS != 0 then 1 else 0
  }

  /** A copy shares no storage with its source, presents the same bytes, and is bounded in both the
      number of its fragments and the size of each. */
  method Copy(source: FragmentedBuffer) returns (copied: FragmentedBuffer)
    requires source.Valid()
    ensures fresh(copied) && copied.Valid() && copied.Content() == source.Content()
    ensures forall k :: 0 <= k < |copied.fragments| ==>
      fresh(copied.fragments[k].data) && copied.fragments[k].data.Length == copied.fragments[k].len <= MAX_CONTIGUOUS
    ensures OfSizes(copied.fragments, CopySizes(source.size, MinimumChunk(source.size)))
    ensures |copied.fragments| <= MAX_FRAGMENTS && copied.retained == source.size
  {
    if source.size == 0 {
      copied := new FragmentedBuffer.Empty();
      return;
    }
    var minimum := MinimumChunk(source.size);
    var fs := CopyChunks(Views(source.fragments), source.size, minimum);
    assert Join(Views(source.fragments))[..source.size] == Join(Views(source.fragments));
    label Built:
    copied := new FragmentedBuffer.Of(fs, source.size, source.size);
    FlatKept@Built(fs);
    FlatKept(source.fragments);
  }

  /** One chunk of the bytes, in storage of its own. */
  method AddPiece(fs: seq<Fragment>, ghost sizes: seq<nat>, bytes: seq<byte>, start: nat, count: nat)
    returns (more: seq<Fragment>, done: nat)
    requires 0 < count <= MAX_CONTIGUOUS && start + count <= |bytes| && Copied(fs, sizes, bytes, start)
    ensures done == start + count && |more| == |fs| + 1 && Copied(more, sizes + [count], bytes, done)
    ensures forall k :: 0 <= k < |more| ==> (k < |fs| && more[k] == fs[k]) || fresh(more[k].data)
  {
    var piece := bytes[start..start + count];
    var storage := new byte[count](i requires 0 <= i < count => piece[i]);
    FlatKept(fs);
    assert storage[..] == piece;
    var f := Fragment(storage, 0, count, count);
    OneMore(fs, sizes, f, bytes, start);
    more, done := fs + [f], start + count;
  }

  /** The sizes of the pieces n bytes are cut into at the contiguous ceiling. */
  function PieceSizes(n: nat): seq<nat> {
    if n == 0 then [] else [Min(MAX_CONTIGUOUS, n)] + PieceSizes(n - Min(MAX_CONTIGUOUS, n))
  }

  lemma PiecesStep(sizes: seq<nat>, n: nat, all: seq<nat>)
    requires n > 0 && all == sizes + PieceSizes(n)
    ensures var piece := Min(MAX_CONTIGUOUS, n); all == (sizes + [piece]) + PieceSizes(n - piece)
  {
  }

  /** All the bytes, in pieces. */
  method CutUp(bytes: seq<byte>) returns (fs: seq<Fragment>)
    requires |bytes| <= MAX_BYTES
    ensures |fs| <= MAX_FRAGMENTS && Copied(fs, PieceSizes(|bytes|), bytes, |bytes|)
    ensures forall k :: 0 <= k < |fs| ==> fresh(fs[k].data)
  {
    fs := [];
    var done: nat := 0;
    ghost var sizes := [];
    while done < |bytes|
      invariant done <= |bytes| && |fs| <= MAX_FRAGMENTS && Copied(fs, sizes, bytes, done)
      invariant done < |bytes| ==> Times(|fs|, MAX_CONTIGUOUS) <= done
      invariant PieceSizes(|bytes|) == sizes + PieceSizes(|bytes| - done)
      invariant forall k :: 0 <= k < |fs| ==> fresh(fs[k].data)
    {
      FewChunks(|fs|, MAX_CONTIGUOUS, done, |bytes|);
      PiecesStep(sizes, |bytes| - done, PieceSizes(|bytes|));
      var count := Min(MAX_CONTIGUOUS, |bytes| - done);
      fs, done := AddPiece(fs, sizes, bytes, done, count);
      sizes := sizes + [count];
    }
    assert sizes + [] == sizes;
  }

  /** The caller's bytes in storage of their own, cut at the contiguous ceiling. */
  method CopyOf(bytes: seq<byte>) returns (r: Result<FragmentedBuffer>)
    ensures r.Ok? <==> |bytes| <= MAX_BYTES
    ensures r.Err? ==> r.error == ResourceExhausted
    ensures r.Ok? ==> fresh(r.value) && r.value.Valid() && r.value.Content() == bytes && r.value.retained == |bytes|
    ensures r.Ok? ==> forall k :: 0 <= k < |r.value.fragments| ==>
      fresh(r.value.fragments[k].data) && r.value.fragments[k].data.Length == r.value.fragments[k].len <= MAX_CONTIGUOUS
    ensures r.Ok? ==> OfSizes(r.value.fragments, PieceSizes(|bytes|))
  {
    if bytes == [] {
      var empty := new FragmentedBuffer.Empty();
      return Ok(empty);
    }
    if |bytes| > MAX_BYTES {
      return Err(ResourceExhausted);
    }
    var fs := CutUp(bytes);
    assert bytes[..|bytes|] == bytes;
    label Built:
    var copied := new FragmentedBuffer.Of(fs, |bytes|, |bytes|);
    FlatKept@Built(fs);
    return Ok(copied);
  }
}
