/**
 Published buffers: lists of windows onto byte arrays, with their sizes and a
 presentation number (src/bytes/fragmented_buffer.cc,
 src/bytes/fragmented_buffer.h).

 Every operation is stated against the flat bytes the buffer presents, and each
 one that changes which bytes those are keeps the canonical form: no empty
 fragment, and exact size and retained sums.
 */
module FragmentedBuffers {
  import opened Units
  import opened Fragments

  const MAX_SCATTER_VECTORS: nat := 1024

  /** invalidate_presentation: a number is never reused, and the counter stops at its maximum. */
  function Bumped(generation: nat): nat {
    if generation == U64_MAX then generation else generation + 1
  }

  ghost predicate Canonical(fs: seq<Fragment>) {
    && Sound(fs)
    && |fs| <= MAX_FRAGMENTS
    && Total(fs) <= MAX_BYTES
    && Retained(fs) <= MAX_BYTES
  }

  lemma {:induction false} TakeAll(fs: seq<Fragment>)
    requires NoneEmpty(fs)
    ensures Take(fs, Total(fs)) == fs
  {
    if fs != [] {
      TakeAll(fs[1..]);
    }
  }

  /** Taking and dropping keep the canonical form, with no fragment rescanned. */
  lemma TrimmedCanonical(fs: seq<Fragment>, n: nat)
    requires Canonical(fs) && n <= Total(fs)
    ensures Canonical(Take(fs, n)) && Total(Take(fs, n)) == n
    ensures Canonical(Drop(fs, n)) && Total(Drop(fs, n)) == Total(fs) - n
  {
    TakeTotal(fs, n);
    TakeFlat(fs, n);
    DropTotal(fs, n);
    DropFlat(fs, n);
  }

  lemma {:induction false} SuffixCanonical(fs: seq<Fragment>, k: nat)
    requires Canonical(fs) && k <= |fs|
    ensures Canonical(fs[k..])
    ensures Total(fs) == Total(fs[..k]) + Total(fs[k..]) && Retained(fs) == Retained(fs[..k]) + Retained(fs[k..])
  {
    TotalSplit(fs, k);
    assert forall i :: 0 <= i < |fs[k..]| ==> fs[k..][i] == fs[k + i];
  }

  /** The slicing loop on descriptors: neither the fragment ceiling nor the shortage branch can be
      reached for a slice inside a buffer of at most MAX_FRAGMENTS fragments. */
  method SliceWindows(fs: seq<Fragment>, first: nat, offset: nat, length: nat)
    returns (failed: Option<Errc>, shared: seq<Fragment>, kept: nat)
    requires NoneEmpty(fs) && |fs| <= MAX_FRAGMENTS && first < |fs| && offset < fs[first].len
    requires Total(fs[..first]) + offset + length <= Total(fs) && Fits(Retained(fs))
    ensures failed.None? && shared == Slice(fs, Total(fs[..first]) + offset, length)
    ensures kept == Retained(shared)
  {
    FromIsSlice(fs, first, offset, length);
    ghost var target := From(fs, first, offset, length);
    ghost var rest := target;
    shared, kept := [], 0;
    var skip: nat, remaining: nat, index: nat := offset, length, first;
    TotalSplit(fs, first);
    while index < |fs| && remaining != 0
      invariant first <= index <= |fs| && |shared| == index - first
      invariant index < |fs| ==> skip < fs[index].len
      invariant rest == From(fs, index, skip, remaining) && target == shared + rest
      invariant kept == Retained(shared) && kept + Retained(fs[index..]) <= Retained(fs)
      invariant remaining == 0 || Total(fs[..index]) + skip + remaining <= Total(fs)
    {
      var take := Min(fs[index].len - skip, remaining);
      if |shared| == MAX_FRAGMENTS {
        return Some(ResourceExhausted), shared, kept;
      }
      TotalAt(fs, index);
      assert fs[index..][1..] == fs[index + 1..];
      var window := fs[index].Cut(skip, take);
      TotalSnoc(shared, window);
      ghost var next := FromStep(fs, index, skip, remaining);
      Regroup(shared, window, next);
      rest := next;
      shared := shared + [window];
      kept := Add64(kept, fs[index].retained);
      skip := 0;
      remaining := remaining - take;
      index := index + 1;
    }
    assert fs[..|fs|] == fs;
    if remaining != 0 {
      return Some(OutOfRange), shared, kept;
    }
    return None, shared, kept;
  }

  /** The front trim loop on descriptors; `released` is the backing of the fragments let go. */
  method DropWindows(fs: seq<Fragment>, bytes: nat) returns (rest: seq<Fragment>, released: nat)
    requires bytes <= Total(fs) && Fits(Retained(fs))
    ensures rest == Drop(fs, bytes)
    ensures released + Retained(rest) == Retained(fs)
  {
    var remaining: nat, dropped: nat := bytes, 0;
    rest, released := fs, 0;
    ghost var target := Drop(fs, bytes);
    assert fs[0..] == fs;
    while dropped < |fs| && remaining != 0
      invariant dropped <= |fs| && remaining <= Total(fs[dropped..])
      invariant rest == fs && Drop(fs[dropped..], remaining) == target
      invariant released + Retained(fs[dropped..]) == Retained(fs)
    {
      assert fs[dropped..][1..] == fs[dropped + 1..];
      if remaining < fs[dropped].len {
        var cut := fs[dropped].Cut(remaining, fs[dropped].len - remaining);
        rest := [cut] + fs[dropped + 1..];
        assert rest[1..] == fs[dropped + 1..];
        return;
      }
      remaining := remaining - fs[dropped].len;
      released := Add64(released, fs[dropped].retained);
      dropped := dropped + 1;
    }
    rest := fs[dropped..];
  }

  /** The back trim loop on descriptors. */
  method TakeWindows(fs: seq<Fragment>, bytes: nat) returns (rest: seq<Fragment>, released: nat)
    requires NoneEmpty(fs) && bytes <= Total(fs) && Fits(Retained(fs))
    ensures rest == Take(fs, Total(fs) - bytes)
    ensures released + Retained(rest) == Retained(fs)
  {
    ghost var n := Total(fs) - bytes;
    var remaining: nat, end: nat := bytes, |fs|;
    released := 0;
    assert fs[..|fs|] == fs;
    while end > 0 && remaining != 0
      invariant end <= |fs| && Total(fs[..end]) == n + remaining
      invariant released + Retained(fs[..end]) == Retained(fs)
    {
      var last := fs[end - 1];
      TotalAt(fs, end - 1);
      if remaining < last.len {
        rest := fs[..end - 1] + [last.Cut(0, last.len - remaining)];
        TakePrefix(fs, end, n);
        TakeSnoc(fs[..end - 1], last, last.len - remaining);
        assert fs[..end] == fs[..end - 1] + [last];
        TotalSnoc(fs[..end - 1], last.Cut(0, last.len - remaining));
        return;
      }
      remaining := remaining - last.len;
      released := Add64(released, last.retained);
      end := end - 1;
    }
    rest := fs[..end];
    TakePrefix(fs, end, n);
    TakeAll(rest);
  }

  /** The same, of a canonical list: what is kept is canonical too. */
  method KeepFront(fs: seq<Fragment>, bytes: nat) returns (rest: seq<Fragment>, released: nat)
    requires Canonical(fs) && bytes <= Total(fs)
    ensures rest == Take(fs, Total(fs) - bytes) && Canonical(rest) && Total(rest) + bytes == Total(fs)
    ensures released + Retained(rest) == Retained(fs)
  {
    rest, released := TakeWindows(fs, bytes);
    TrimmedCanonical(fs, Total(fs) - bytes);
  }

  /** Both sides stand at byte `pos` of equal-length sequences that agree up to there. */
  ghost predicate Agree(l: seq<byte>, r: seq<byte>, pos: nat) {
    pos <= |l| == |r| && l[..pos] == r[..pos]
  }

  lemma AgreeStep(l: seq<byte>, r: seq<byte>, pos: nat, n: nat)
    requires Agree(l, r, pos) && pos + n <= |l|
    ensures l[pos..pos + n] == r[pos..pos + n] ==> Agree(l, r, pos + n)
    ensures l[pos..pos + n] != r[pos..pos + n] ==> l != r
  {
    assert l[..pos + n] == l[..pos] + l[pos..pos + n];
    assert r[..pos + n] == r[..pos] + r[pos..pos + n];
  }

  lemma SpanStep(p: seq<seq<byte>>, i: nat, a: nat, q: seq<seq<byte>>, j: nat, b: nat, pos: nat, span: nat)
    requires i < |p| && a + span <= |p[i]| && j < |q| && b + span <= |q[j]|
    requires Start(p, i) + a == pos == Start(q, j) + b && Agree(Join(p), Join(q), pos)
    ensures pos + span <= |Join(p)|
    ensures p[i][a..a + span] == q[j][b..b + span] ==> Agree(Join(p), Join(q), pos + span)
    ensures p[i][a..a + span] != q[j][b..b + span] ==> Join(p) != Join(q)
  {
    JoinWindowAt(p, i, pos - a, a, span);
    JoinWindowAt(q, j, pos - b, b, span);
    AgreeStep(Join(p), Join(q), pos, span);
  }

  /** Two-pointer comparison over fragment views: equal exactly when the flat bytes are, however
      either side is fragmented. */
  method SameBytes(p: seq<seq<byte>>, q: seq<seq<byte>>) returns (same: bool)
    requires |Join(p)| == |Join(q)|
    ensures same <==> Join(p) == Join(q)
  {
    ghost var pos: nat := 0;
    var i: nat, j: nat, a: nat, b: nat := 0, 0, 0, 0;
    while i < |p| && j < |q|
      invariant i <= |p| && (if i < |p| then a <= |p[i]| else a == 0)
      invariant j <= |q| && (if j < |q| then b <= |q[j]| else b == 0)
      invariant Start(p, i) + a == pos == Start(q, j) + b
      invariant Agree(Join(p), Join(q), pos)
      decreases |Join(p)| - pos, |p| - i + |q| - j
    {
      var span := Min(|p[i]| - a, |q[j]| - b);
      if span == 0 {
        var leftDone, rightDone := |p[i]| == a, |q[j]| == b;
        if leftDone {
          i, a := i + 1, 0;
        }
        if rightDone {
          j, b := j + 1, 0;
        }
        continue;
      }
      SpanStep(p, i, a, q, j, b, pos, span);
      if p[i][a..a + span] != q[j][b..b + span] {
        return false;
      }
      a, b, pos := a + span, b + span, pos + span;
    }
    StartOfAll(p);
    StartOfAll(q);
    assert Join(p)[..pos] == Join(p) && Join(q)[..pos] == Join(q);
    return true;
  }

  class FragmentedBuffer {
    var fragments: seq<Fragment>
    var size: nat
    var retained: nat
    var generation: nat

    ghost predicate Valid()
      reads this
    {
      && Canonical(fragments)
      && size == Total(fragments)
      && retained == Retained(fragments)
      && generation <= U64_MAX
    }

    ghost function Content(): (b: seq<byte>)
      requires Valid()
      reads this, Arrays(fragments)
      ensures |b| == size
    {
      Flat(fragments)
    }

    constructor Empty()
      ensures Valid() && fragments == []
    {
      fragments, size, retained, generation := [], 0, 0, 0;
    }

    constructor Of(fs: seq<Fragment>, size: nat, retained: nat)
      requires Canonical(fs) && size == Total(fs) && retained == Retained(fs)
      ensures Valid() && fragments == fs
    {
      fragments, this.size, this.retained, generation := fs, size, retained, 0;
    }

    /** A move: the new buffer has all there was, and the old one is left empty, under another presentation. */
    constructor Moved(other: FragmentedBuffer)
      requires other.Valid()
      modifies other
      ensures Valid() && fragments == old(other.fragments) && generation == 0
      ensures other.Valid() && other.fragments == [] && other.generation == Bumped(old(other.generation))
      ensures Content() == old(other.Content())
    {
      fragments, size, retained, generation := other.fragments, other.size, other.retained, 0;
      new;
      other.fragments, other.size, other.retained := [], 0, 0;
      other.generation := Bumped(other.generation);
      FlatKept(fragments);
    }

    /** An assignment by move: both buffers present something else under the next number, unless they are one. */
    method Assign(other: FragmentedBuffer)
      requires Valid() && other.Valid()
      modifies this, other
      ensures Valid() && other.Valid() && Content() == old(other.Content())
      ensures other == this ==> unchanged(this)
      ensures other != this ==>
        && fragments == old(other.fragments) && generation == Bumped(old(generation))
        && other.fragments == [] && other.generation == Bumped(old(other.generation))
    {
      if this != other {
        fragments, size, retained := other.fragments, other.size, other.retained;
        other.fragments, other.size, other.retained := [], 0, 0;
        generation := Bumped(generation);
        other.generation := Bumped(other.generation);
      }
      FlatKept(old(other.fragments));
    }

    /** The fragment an offset falls in, and where in it. */
    method Locate(offset: nat) returns (index: nat, off: nat)
      requires Valid()
      ensures index <= |fragments| && Total(fragments[..index]) + off == offset
      ensures index < |fragments| ==> off < fragments[index].len
      ensures index == |fragments| <==> offset >= size
    {
      index, off := 0, offset;
      while index < |fragments| && off >= fragments[index].len
        invariant index <= |fragments| && Total(fragments[..index]) + off == offset
      {
        TotalAt(fragments, index);
        off := off - fragments[index].len;
        index := index + 1;
      }
      if index < |fragments| {
        TotalAt(fragments, index);
      } else {
        assert fragments[..index] == fragments;
      }
    }

    /** A whole-buffer share presents the same windows through its own descriptors. */
    method ShareAll() returns (shared: FragmentedBuffer)
      requires Valid()
      ensures fresh(shared) && shared.Valid() && shared.fragments == fragments
    {
      var fs: seq<Fragment> := [];
      for i := 0 to |fragments|
        invariant fs == fragments[..i]
      {
        fs := fs + [fragments[i]];
      }
      assert fs == fragments;
      shared := new FragmentedBuffer.Of(fs, size, retained);
    }

    /** The slice that starts `offset` bytes into fragment `first`, which the caller has checked
        lies inside the buffer; it never fails. */
    method ShareFrom(first: nat, offset: nat, length: nat) returns (r: Result<FragmentedBuffer>)
      requires Valid() && first < |fragments| && offset < fragments[first].len
      requires Total(fragments[..first]) + offset + length <= size
      ensures r.Ok? && fresh(r.value) && r.value.Valid()
      ensures r.value.fragments == Slice(fragments, Total(fragments[..first]) + offset, length)
    {
      ghost var start := Total(fragments[..first]) + offset;
      SliceTotal(fragments, start, length);
      SliceFlat(fragments, start, length);
      if first == 0 && offset == 0 && length == size {
        TakeAll(fragments);
        var whole := ShareAll();
        return Ok(whole);
      }
      var failed, shared, kept := SliceWindows(fragments, first, offset, length);
      match failed {
        case Some(error) => return Err(error);
        case None =>
      }
      var slice := new FragmentedBuffer.Of(shared, length, kept);
      return Ok(slice);
    }

    /** Both error and success: a slice exists exactly when it lies inside the buffer. */
    method Share(offset: nat, length: nat) returns (r: Result<FragmentedBuffer>)
      requires Valid() && Fits(offset) && Fits(length)
      ensures r.Ok? <==> offset + length <= size
      ensures r.Ok? ==> fresh(r.value) && r.value.Valid() && r.value.Content() == Content()[offset..offset + length]
      ensures r.Ok? ==> r.value.fragments == Slice(fragments, offset, length)
      ensures r.Err? ==> r.error == OutOfRange
    {
      var end := CheckedAdd(offset, length);
      if end.None? || end.value > size {
        return Err(OutOfRange);
      }
      if length == 0 {
        var empty := new FragmentedBuffer.Empty();
        return Ok(empty);
      }
      r := ShareSome(offset, length);
    }

    method ShareSome(offset: nat, length: nat) returns (r: Result<FragmentedBuffer>)
      requires Valid() && 0 < length && offset + length <= size
      ensures r.Ok? && fresh(r.value) && r.value.Valid() && r.value.fragments == Slice(fragments, offset, length)
      ensures r.value.Content() == Content()[offset..offset + length]
    {
      var index, off := Locate(offset);
      r := ShareFrom(index, off, length);
      SliceFlat(fragments, offset, length);
    }

    /** The common end of both trims: the new windows, the exact sums, a new presentation. */
    method Present(rest: seq<Fragment>, bytes: nat, released: nat)
      requires Valid() && Canonical(rest)
      requires Total(rest) + bytes == size && Retained(rest) + released == retained
      modifies this
      ensures Valid() && fragments == rest && generation == Bumped(old(generation))
    {
      fragments := rest;
      size := Sub64(size, bytes);
      retained := Sub64(retained, released);
      generation := Bumped(generation);
    }

    /** Drops the first `bytes` bytes: whole fragments are released, and one may be cut. */
    method TrimFront(bytes: nat) returns (r: Result<Unit>)
      requires Valid()
      modifies this
      ensures Valid()
      ensures r == if bytes > old(size) then Err(OutOfRange) else Ok(Unit)
      ensures r.Err? ==> fragments == old(fragments)
      ensures r.Ok? ==> fragments == Drop(old(fragments), bytes) && Content() == old(Content())[bytes..]
      ensures generation == if r.Ok? && bytes != 0 then Bumped(old(generation)) else old(generation)
    {
      if bytes > size {
        return Err(OutOfRange);
      }
      if bytes == 0 {
        return Ok(Unit);
      }
      TrimmedCanonical(fragments, bytes);
      var rest, released := DropWindows(fragments, bytes);
      Present(rest, bytes, released);
      FlatKept(old(fragments));
      DropFlat(old(fragments), bytes);
      return Ok(Unit);
    }

    /** Drops the last `bytes` bytes. */
    method TrimBack(bytes: nat) returns (r: Result<Unit>)
      requires Valid()
      modifies this
      ensures Valid()
      ensures r == if bytes > old(size) then Err(OutOfRange) else Ok(Unit)
      ensures r.Err? ==> fragments == old(fragments)
      ensures r.Ok? ==> fragments == Take(old(fragments), old(size) - bytes)
      ensures r.Ok? ==> Content() == old(Content())[..old(size) - bytes]
      ensures generation == if r.Ok? && bytes != 0 then Bumped(old(generation)) else old(generation)
    {
      if bytes > size {
        return Err(OutOfRange);
      }
      ghost var keep := size - bytes;
      if bytes == 0 {
        TakeAll(fragments);
        assert Content()[..size] == Content();
        return Ok(Unit);
      }
      var rest, released := KeepFront(fragments, bytes);
      Present(rest, bytes, released);
      FlatKept(old(fragments));
      TakeFlat(old(fragments), keep);
      return Ok(Unit);
    }

    method ContentEquals(other: FragmentedBuffer) returns (same: bool)
      requires Valid() && other.Valid()
      ensures same <==> Content() == other.Content()
    {
      if size != other.size {
        return false;
      }
      same := SameBytes(Views(fragments), Views(other.fragments));
      FlatKept(fragments);
      FlatKept(other.fragments);
    }
  }
}
