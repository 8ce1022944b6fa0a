/**
 Bounded vectored export with a resumable cursor
 (src/bytes/fragmented_buffer.cc, src/bytes/fragmented_buffer.h).
 */
module ScatterExport {
  import opened Units
  import opened Fragments
  import opened FragmentedBuffers

  /** A position between windows: inside a fragment, or past the last one. */
  ghost predicate At(fs: seq<Fragment>, fragment: nat, offset: nat) {
    fragment <= |fs| && (if fragment < |fs| then offset < fs[fragment].len else offset == 0)
  }

  /** Where an export stopped. A fresh cursor is unbound and stands at the front; the first
      successful export binds it to the buffer and its presentation number. */
  class ScatterCursor {
    var owner: FragmentedBuffer?
    var generation: nat
    var fragment: nat
    var offset: nat
    ghost var presented: seq<Fragment>   // the windows the owner had when the position was taken

    constructor ()
      ensures owner == null && fragment == 0 && offset == 0
    {
      owner, generation, fragment, offset, presented := null, 0, 0, 0, [];
    }

    /** What the exports and the presentation changes of `buffer` keep true of every cursor. */
    ghost predicate Tracks(buffer: FragmentedBuffer)
      reads this, buffer
    {
      && (owner == null ==> fragment == 0 && offset == 0)
      && (owner == buffer ==>
            && generation < U64_MAX
            && generation <= buffer.generation
            && (generation == buffer.generation ==> presented == buffer.fragments)
            && At(presented, fragment, offset))
    }

    /** Bytes of the presentation already exported. */
    ghost function Position(fs: seq<Fragment>): nat
      reads this
      requires fragment <= |fs|
    {
      Total(fs[..fragment]) + offset
    }
  }

  datatype Bookmark = Bookmark(cursor: ScatterCursor, buffer: FragmentedBuffer)

  /** Any change of presentation keeps every cursor's claim, and leaves no bound cursor that names
      the presentation number now current: numbers are not reused, and the counter that has reached
      its maximum names nothing a cursor can hold. */
  twostate lemma PresentationChanged(m: Bookmark)
    requires old(m.cursor.Tracks(m.buffer)) && old(m.buffer.Valid())
    requires unchanged(m.cursor) && m.buffer.generation == Bumped(old(m.buffer.generation))
    ensures m.cursor.Tracks(m.buffer)
    ensures m.cursor.owner == m.buffer ==> m.cursor.generation != m.buffer.generation
  {
  }

  datatype ScatterBatch = ScatterBatch(segments: seq<Fragment>, bytes: nat, complete: bool)

  /** Between windows: still at the start, or at the front of a later fragment. */
  ghost predicate Between(fs: seq<Fragment>, i: nat, skip: nat, bytes: nat, j: nat, off: nat)
    requires i <= |fs|
  {
    || (j == i && off == skip && bytes == 0)
    || (i < j <= |fs| && off == 0 && bytes + skip == Total(fs[i..j]))
  }

  lemma SpanSnoc(fs: seq<Fragment>, i: nat, j: nat)
    requires i <= j < |fs|
    ensures Total(fs[i..j + 1]) == Total(fs[i..j]) + fs[j].len
  {
    var front := fs[i..j];
    assert fs[i..j + 1] == front + [fs[j]];
    TotalSnoc(front, fs[j]);
  }

  lemma FirstWindow(fs: seq<Fragment>, i: nat, skip: nat, span: nat)
    requires i < |fs| && 0 < span <= fs[i].len - skip
    ensures From(fs, i, skip, span) == [fs[i].Cut(skip, span)]
  {
    var next := FromStep(fs, i, skip, span);
    assert next == [];
  }

  lemma NextWindow(fs: seq<Fragment>, i: nat, skip: nat, bytes: nat, j: nat, off: nat, span: nat)
    requires NoneEmpty(fs) && i < |fs| && skip < fs[i].len && j < |fs| && Between(fs, i, skip, bytes, j, off)
    requires 0 < span <= fs[j].len - off
    ensures From(fs, i, skip, bytes + span) == From(fs, i, skip, bytes) + [fs[j].Cut(off, span)]
  {
    if j == i {
      FirstWindow(fs, i, skip, span);
    } else {
      FromSnoc(fs, i, skip, j, span);
    }
  }

  lemma NextBetween(fs: seq<Fragment>, i: nat, skip: nat, bytes: nat, j: nat, off: nat)
    requires i < |fs| && skip < fs[i].len && j < |fs| && off <= fs[j].len && Between(fs, i, skip, bytes, j, off)
    ensures Between(fs, i, skip, bytes + (fs[j].len - off), j + 1, 0)
  {
    SpanSnoc(fs, i, j);
    assert fs[i..i] == [];
  }

  /** The windows of the next `bytes` bytes have been taken, and the position is just past them. */
  ghost predicate Exported(fs: seq<Fragment>, i: nat, skip: nat, segments: seq<Fragment>, bytes: nat, j: nat, off: nat)
    requires i < |fs| && skip < fs[i].len
  {
    && j <= |fs| && (if j < |fs| then off < fs[j].len else off == 0)
    && segments == From(fs, i, skip, bytes)
    && Total(fs[..j]) + off == Total(fs[..i]) + skip + bytes
  }

  lemma ExportStep(fs: seq<Fragment>, i: nat, skip: nat, segments: seq<Fragment>, bytes: nat, j: nat, off: nat,
                   span: nat)
    returns (more: seq<Fragment>, j': nat, off': nat)
    requires NoneEmpty(fs) && i < |fs| && skip < fs[i].len && j < |fs| && Between(fs, i, skip, bytes, j, off)
    requires Exported(fs, i, skip, segments, bytes, j, off) && 0 < span <= fs[j].len - off
    ensures more == segments + [fs[j].Cut(off, span)]
    ensures if off + span == fs[j].len then j' == j + 1 && off' == 0 else j' == j && off' == off + span
    ensures Exported(fs, i, skip, more, bytes + span, j', off')
    ensures off + span == fs[j].len ==> Between(fs, i, skip, bytes + span, j', off')
  {
    TotalAt(fs, j);
    NextWindow(fs, i, skip, bytes, j, off, span);
    if off + span == fs[j].len {
      NextBetween(fs, i, skip, bytes, j, off);
    }
    more := segments + [fs[j].Cut(off, span)];
    j', off' := if off + span == fs[j].len then j + 1 else j, if off + span == fs[j].len then 0 else off + span;
  }

  /** The export loop from a position inside a fragment: the batch is exactly the windows of the
      next `bytes` bytes, the new position is just past them, and it stops short only at a cap. */
  method ExportWindows(fs: seq<Fragment>, fragment: nat, start: nat, capacity: nat, maxBytes: nat)
    returns (segments: seq<Fragment>, bytes: nat, index: nat, offset: nat)
    requires NoneEmpty(fs) && fragment < |fs| && start < fs[fragment].len && capacity > 0 && maxBytes > 0
    ensures 0 < |segments| <= capacity && 0 < bytes <= maxBytes
    ensures Exported(fs, fragment, start, segments, bytes, index, offset)
    ensures index == |fs| || |segments| == capacity || bytes == maxBytes
  {
    index, offset, segments, bytes := fragment, start, [], 0;
    var budget: nat := maxBytes;
    while index < |fs| && |segments| < capacity && budget > 0
      invariant |segments| <= capacity && bytes + budget == maxBytes
      invariant Exported(fs, fragment, start, segments, bytes, index, offset)
      invariant if bytes == 0 then index < |fs| && |segments| == 0 else |segments| > 0
      invariant budget > 0 ==> Between(fs, fragment, start, bytes, index, offset)
      decreases |fs| - index, budget
    {
      var span := Min(fs[index].len - offset, budget);
      ghost var more, j, off := ExportStep(fs, fragment, start, segments, bytes, index, offset, span);
      segments := segments + [fs[index].Cut(offset, span)];
      bytes := bytes + span;
      budget := budget - span;
      offset := offset + span;
      if offset == fs[index].len {
        index, offset := index + 1, 0;
      }
    }
  }

  /** One bounded batch. Caps of zero, a cursor of another buffer or of an earlier presentation, and
      an exhausted presentation counter are refused in that order, and a refusal leaves the cursor
      where it was. The two position checks of the source cannot fail for a tracked cursor. */
  method ExportScatter(buffer: FragmentedBuffer, maxVectors: nat, maxBytes: nat, cursor: ScatterCursor)
    returns (r: Result<ScatterBatch>)
    requires buffer.Valid() && cursor.Tracks(buffer)
    modifies cursor
    ensures cursor.Tracks(buffer)
    ensures r == Err(InvalidArgument) <==>
      || maxVectors == 0
      || maxBytes == 0
      || (old(cursor.owner) != null
          && (old(cursor.owner) != buffer || old(cursor.presented) != buffer.fragments
              || old(cursor.generation) != buffer.generation))
    ensures r.Err? && r.error != InvalidArgument ==> r.error == ResourceExhausted && buffer.generation == U64_MAX
    ensures r.Err? ==> unchanged(cursor)
    ensures r.Ok? ==>
      && buffer.generation < U64_MAX
      && cursor.owner == buffer && cursor.generation == buffer.generation
      && cursor.presented == buffer.fragments
      && old(cursor.fragment) <= |buffer.fragments|
      && Batch(r.value, buffer.fragments, old(cursor.Position(buffer.fragments)),
               cursor.Position(buffer.fragments), maxVectors, maxBytes)
  {
    if maxVectors == 0 || maxBytes == 0 {
      return Err(InvalidArgument);
    }
    if cursor.owner != null && (cursor.owner != buffer || cursor.generation != buffer.generation) {
      return Err(InvalidArgument);
    }
    if buffer.generation == U64_MAX {
      return Err(ResourceExhausted);
    }
    if cursor.fragment > |buffer.fragments| || (cursor.fragment == |buffer.fragments| && cursor.offset != 0) {
      return Err(OutOfRange);
    }
    assert At(buffer.fragments, cursor.fragment, cursor.offset);
    var capacity := Min(maxVectors, MAX_SCATTER_VECTORS);
    ghost var start := cursor.Position(buffer.fragments);
    assert buffer.fragments[..|buffer.fragments|] == buffer.fragments;
    var segments: seq<Fragment>, bytes: nat, index: nat, offset: nat := [], 0, cursor.fragment, cursor.offset;
    if cursor.fragment < |buffer.fragments| {
      segments, bytes, index, offset :=
        ExportWindows(buffer.fragments, cursor.fragment, cursor.offset, capacity, maxBytes);
      BatchInside(buffer.fragments, index, offset);
      FromIsSlice(buffer.fragments, cursor.fragment, cursor.offset, bytes);
    } else {
      SliceTotal(buffer.fragments, start, 0);
    }
    cursor.owner, cursor.generation, cursor.fragment, cursor.offset := buffer, buffer.generation, index, offset;
    cursor.presented := buffer.fragments;
    return Ok(ScatterBatch(segments, bytes, index == |buffer.fragments|));
  }

  lemma BatchInside(fs: seq<Fragment>, index: nat, offset: nat)
    requires NoneEmpty(fs) && At(fs, index, offset)
    ensures Total(fs[..index]) + offset <= Total(fs)
    ensures index == |fs| <==> Total(fs[..index]) + offset == Total(fs)
  {
    assert fs[..|fs|] == fs;
    if index < |fs| {
      TotalAt(fs, index);
    }
  }

  /** A batch that presents exactly the bytes start..end, inside both caps, complete exactly when
      nothing is left, and short of the end only when it has met a cap. */
  ghost predicate Batch(b: ScatterBatch, fs: seq<Fragment>, start: nat, end: nat, maxVectors: nat, maxBytes: nat) {
    && start + b.bytes == end <= Total(fs)
    && b.segments == Slice(fs, start, b.bytes)
    && |b.segments| <= Min(maxVectors, MAX_SCATTER_VECTORS)
    && b.bytes <= maxBytes
    && (b.complete <==> end == Total(fs))
    && (b.complete || |b.segments| == Min(maxVectors, MAX_SCATTER_VECTORS) || b.bytes == maxBytes)
    && (start < Total(fs) ==> b.bytes > 0)
  }

  /** The most segments and the most bytes a batch may have. */
  datatype Caps = Caps(vectors: nat, bytes: nat)

  /** Batches that present, one after the other, the first `end` bytes, each within its caps. */
  ghost predicate Covers(batches: seq<ScatterBatch>, caps: seq<Caps>, fs: seq<Fragment>, end: nat) {
    && |caps| == |batches|
    && if batches == [] then end == 0
       else
         var n := |batches| - 1;
         && batches[n].bytes <= end
         && Batch(batches[n], fs, end - batches[n].bytes, end, caps[n].vectors, caps[n].bytes)
         && Covers(batches[..n], caps[..n], fs, end - batches[n].bytes)
  }

  lemma CoversMore(batches: seq<ScatterBatch>, caps: seq<Caps>, b: ScatterBatch, cap: Caps, fs: seq<Fragment>,
                   start: nat, end: nat)
    requires Covers(batches, caps, fs, start) && Batch(b, fs, start, end, cap.vectors, cap.bytes)
    ensures Covers(batches + [b], caps + [cap], fs, end)
  {
    assert (batches + [b])[..|batches|] == batches && (caps + [cap])[..|caps|] == caps;
  }

  ghost function Segments(batches: seq<ScatterBatch>): seq<Fragment> {
    if batches == [] then [] else Segments(batches[..|batches| - 1]) + batches[|batches| - 1].segments
  }

  lemma SplitAt(s: seq<byte>, i: nat, j: nat)
    requires i <= j <= |s|
    ensures s[..j] == s[..i] + s[i..j]
  {
  }

  lemma PieceBytes(piece: seq<Fragment>, fs: seq<Fragment>, start: nat, end: nat)
    requires Sound(fs) && start <= end <= Total(fs) && piece == Slice(fs, start, end - start)
    ensures AllOk(piece) && |Flat(fs)| == Total(fs) && Flat(piece) == Flat(fs)[start..end]
  {
    SliceFlat(fs, start, end - start);
  }

  lemma NextPiece(front: seq<Fragment>, piece: seq<Fragment>, fs: seq<Fragment>, start: nat, end: nat)
    requires Sound(fs) && AllOk(front) && start <= end <= Total(fs) && Flat(front) == Flat(fs)[..start]
    requires piece == Slice(fs, start, end - start)
    ensures AllOk(front + piece) && Flat(front + piece) == Flat(fs)[..end]
  {
    PieceBytes(piece, fs, start, end);
    FlatConcat(front, piece);
    SplitAt(Flat(fs), start, end);
  }

  /** In bytes: no byte missing, none twice. */
  lemma {:induction false} CoveredBytes(batches: seq<ScatterBatch>, caps: seq<Caps>, fs: seq<Fragment>, end: nat)
    requires Sound(fs) && Covers(batches, caps, fs, end)
    ensures end <= Total(fs) && AllOk(Segments(batches)) && Flat(Segments(batches)) == Flat(fs)[..end]
  {
    if batches != [] {
      var n := |batches| - 1;
      var front, last := batches[..n], batches[n];
      var start := end - last.bytes;
      CoveredBytes(front, caps[..n], fs, start);
      NextPiece(Segments(front), last.segments, fs, start, end);
    }
  }

  /** A cursor the buffer will accept. */
  ghost predicate Current(cursor: ScatterCursor, buffer: FragmentedBuffer)
    reads cursor, buffer
  {
    && cursor.Tracks(buffer) && At(buffer.fragments, cursor.fragment, cursor.offset)
    && (cursor.owner == null || (cursor.owner == buffer && cursor.generation == buffer.generation))
  }

  /** With caps above zero and a counter short of its maximum, it does. */
  method NextBatch(buffer: FragmentedBuffer, maxVectors: nat, maxBytes: nat, cursor: ScatterCursor)
    returns (batch: ScatterBatch, ghost end: nat)
    requires buffer.Valid() && buffer.generation < U64_MAX && maxVectors > 0 && maxBytes > 0
    requires Current(cursor, buffer)
    modifies cursor
    ensures Current(cursor, buffer)
    ensures end == cursor.Position(buffer.fragments)
    ensures Batch(batch, buffer.fragments, old(cursor.Position(buffer.fragments)), end, maxVectors, maxBytes)
  {
    var r := ExportScatter(buffer, maxVectors, maxBytes, cursor);
    batch, end := r.value, cursor.Position(buffer.fragments);
  }

  /** The same caps for every batch. */
  ghost function Alike(count: nat, cap: Caps): (caps: seq<Caps>)
    ensures |caps| == count && forall i :: 0 <= i < count ==> caps[i] == cap
  {
    if count == 0 then [] else Alike(count - 1, cap) + [cap]
  }

  /** Exporting again and again from a fresh cursor ends, and presents exactly the buffer's bytes. */
  method ExportWhole(buffer: FragmentedBuffer, maxVectors: nat, maxBytes: nat) returns (batches: seq<ScatterBatch>)
    requires buffer.Valid() && buffer.generation < U64_MAX && maxVectors > 0 && maxBytes > 0
    ensures Covers(batches, Alike(|batches|, Caps(maxVectors, maxBytes)), buffer.fragments, buffer.size)
    ensures AllOk(Segments(batches)) && Flat(Segments(batches)) == buffer.Content()
  {
    var cursor := new ScatterCursor();
    batches := [];
    var done := false;
    ghost var end, cap, caps := 0, Caps(maxVectors, maxBytes), [];
    while !done
      invariant fresh(cursor) && Current(cursor, buffer)
      invariant end == cursor.Position(buffer.fragments) && Covers(batches, caps, buffer.fragments, end)
      invariant caps == Alike(|batches|, cap) && (done ==> end == buffer.size)
      decreases !done, buffer.size - end
    {
      ghost var start := end;
      var batch;
      batch, end := NextBatch(buffer, maxVectors, maxBytes, cursor);
      CoversMore(batches, caps, batch, cap, buffer.fragments, start, end);
      batches, caps := batches + [batch], caps + [cap];
      done := batch.complete;
    }
    CoveredBytes(batches, caps, buffer.fragments, buffer.size);
    assert buffer.Content()[..buffer.size] == buffer.Content();
  }
}
