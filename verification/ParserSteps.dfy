/**
 The two walks of the parser over its fragments: moving the cursor, and copying
 bytes out (src/bytes/fragmented_buffer_parser.cc).
 */
module ParserSteps {
  import opened Units
  import opened Fragments

  /** `consumed` counts the bytes before the position. */
  datatype Position = Position(fragment: nat, offset: nat, consumed: nat)

  /** Inside a fragment or past the last one, with an exact count. */
  ghost predicate PosOk(fs: seq<Fragment>, p: Position) {
    && p.fragment <= |fs|
    && (if p.fragment < |fs| then p.offset < fs[p.fragment].len else p.offset == 0)
    && Total(fs[..p.fragment]) + p.offset == p.consumed
  }

  /** The fragment a position is in: what refresh_cache loads. */
  function Cache(fs: seq<Fragment>, fragment: nat): Option<Fragment> {
    if fragment >= |fs| then None else Some(fs[fragment])
  }

  const MAX_CHECKPOINTS: nat := 8

  /** What holds of a parser's fields between operations. */
  ghost predicate ParserOk(fs: seq<Fragment>, at: Position, cache: Option<Fragment>, checkpoints: seq<Position>,
                           depth: nat) {
    && PosOk(fs, at)
    && cache == Cache(fs, at.fragment)
    && depth <= |checkpoints| == MAX_CHECKPOINTS
    && forall i :: 0 <= i < depth ==> PosOk(fs, checkpoints[i])
  }

  lemma PosBound(fs: seq<Fragment>, p: Position)
    requires NoneEmpty(fs) && PosOk(fs, p)
    ensures p.consumed <= Total(fs)
    ensures p.fragment == |fs| <==> p.consumed == Total(fs)
  {
    assert fs[..|fs|] == fs;
    if p.fragment < |fs| {
      TotalAt(fs, p.fragment);
    }
  }

  /** Moves a position n bytes on. No failure branch can be reached while n bytes are left. */
  method Walk(fs: seq<Fragment>, from: Position, n: nat) returns (failed: Option<Errc>, p: Position)
    requires NoneEmpty(fs) && PosOk(fs, from) && from.consumed + n <= Total(fs) <= U64_MAX
    ensures failed.None? && PosOk(fs, p) && p.consumed == from.consumed + n
  {
    p := from;
    var consumed := CheckedAdd(from.consumed, n);
    if consumed.None? {
      return Some(MalformedData), p;
    }
    var remaining: nat := n;
    var cache := Cache(fs, p.fragment);
    while remaining > 0
      invariant remaining <= n && cache == Cache(fs, p.fragment)
      invariant PosOk(fs, p.(consumed := from.consumed + (n - remaining)))
    {
      PosBound(fs, p.(consumed := from.consumed + (n - remaining)));
      if cache.None? {
        return Some(MalformedData), p;
      }
      var size := cache.value.len;
      if p.offset >= size {
        return Some(MalformedData), p;
      }
      var span := Min(size - p.offset, remaining);
      TotalAt(fs, p.fragment);
      p := p.(offset := p.offset + span);
      remaining := remaining - span;
      if p.offset == size {
        p := p.(offset := 0, fragment := p.fragment + 1);
        cache := Cache(fs, p.fragment);
      }
    }
    return None, p.(consumed := consumed.value);
  }

  /** The constructor's walk: off the end of an exhausted fragment. */
  method Normalize(fs: seq<Fragment>, from: Position) returns (p: Position, cache: Option<Fragment>)
    requires from.fragment <= |fs| && (from.fragment < |fs| ==> from.offset <= fs[from.fragment].len)
    requires from.fragment == |fs| ==> from.offset == 0
    requires Total(fs[..from.fragment]) + from.offset == from.consumed
    ensures PosOk(fs, p) && p.consumed == from.consumed && cache == Cache(fs, p.fragment)
  {
    p, cache := from, None;
    while p.fragment < |fs|
      invariant p.fragment <= |fs| && p.consumed == from.consumed && cache.None?
      invariant if p.fragment < |fs| then p.offset <= fs[p.fragment].len else p.offset == 0
      invariant Total(fs[..p.fragment]) + p.offset == p.consumed
    {
      if p.offset < fs[p.fragment].len {
        return p, Some(fs[p.fragment]);
      }
      TotalAt(fs, p.fragment);
      p := p.(offset := 0, fragment := p.fragment + 1);
    }
  }

  /** Where position (i, a) is in the flat bytes of the views p. */
  ghost predicate Reached(p: seq<seq<byte>>, i: nat, a: nat, pos: nat) {
    && i <= |p|
    && (if i < |p| then a <= |p[i]| else a == 0)
    && Start(p, i) + a == pos
  }

  /** The slow path: window by window into the destination, from any position. */
  method CopyWalk(p: seq<seq<byte>>, i0: nat, a0: nat, dst: array<byte>, ghost pos: nat) returns (failed: Option<Errc>)
    requires Reached(p, i0, a0, pos) && pos + dst.Length <= |Join(p)|
    modifies dst
    ensures failed.None? && dst[..] == Join(p)[pos..pos + dst.Length]
  {
    ghost var flat := Join(p);
    var i: nat, a: nat, written: nat := i0, a0, 0;
    while written < dst.Length
      invariant written <= dst.Length && Reached(p, i, a, pos + written)
      invariant dst[..written] == flat[pos..pos + written]
      decreases dst.Length - written, |p| - i
    {
      if i >= |p| {
        StartOfAll(p);
        return Some(MalformedData);
      }
      if a >= |p[i]| {
        i, a := i + 1, 0;
        continue;
      }
      var span := Min(|p[i]| - a, dst.Length - written);
      NextSpan(p, i, a, dst, written, span, pos);
      written := written + span;
      a := a + span;
    }
    assert dst[..] == dst[..written];
    return None;
  }

  /** The views of a fragment list start where the running totals say. */
  lemma {:induction false} ViewStart(fs: seq<Fragment>, p: seq<seq<byte>>, i: nat)
    requires |p| == |fs| && i <= |fs| && forall k :: 0 <= k < |fs| ==> |p[k]| == fs[k].len
    ensures Start(p, i) == Total(fs[..i])
  {
    if i > 0 {
      ViewStart(fs, p, i - 1);
      TotalAt(fs, i - 1);
    }
  }

  /** Where a window of one fragment is in the flat bytes. */
  lemma {:induction false} WindowInFlat(fs: seq<Fragment>, i: nat, a: nat, n: nat)
    requires AllOk(fs) && i < |fs| && a + n <= fs[i].len
    ensures Total(fs[..i]) + a + n <= Total(fs)
    ensures fs[i].Cut(a, n).Bytes() == Flat(fs)[Total(fs[..i]) + a..Total(fs[..i]) + a + n]
  {
    var p, start := Views(fs), Total(fs[..i]);
    CutBytes(fs[i], a, n);
    ViewStart(fs, p, i);
    JoinWindowAt(p, i, start, a, n);
  }

  /** The fast path: the whole read lies in one cached window. */
  method CopyCached(fs: seq<Fragment>, p: Position, f: Fragment, dst: array<byte>)
    requires AllOk(fs) && PosOk(fs, p) && p.fragment < |fs| && f == fs[p.fragment] && p.offset + dst.Length <= f.len
    requires dst !in Arrays(fs)
    modifies dst
    ensures p.consumed + dst.Length <= Total(fs)
    ensures dst[..] == old(Flat(fs))[p.consumed..p.consumed + dst.Length]
  {
    WindowInFlat(fs, p.fragment, p.offset, dst.Length);
    var bytes := f.data[f.off + p.offset..f.off + p.offset + dst.Length];
    MemCopy(dst, 0, bytes);
    assert dst[..] == dst[0..0 + |bytes|];
  }

  /** The slow path. */
  method CopyAcross(fs: seq<Fragment>, p: Position, dst: array<byte>) returns (failed: Option<Errc>)
    requires AllOk(fs) && PosOk(fs, p) && p.consumed + dst.Length <= Total(fs) && dst !in Arrays(fs)
    modifies dst
    ensures failed.None? && dst[..] == old(Flat(fs))[p.consumed..p.consumed + dst.Length]
  {
    var views := Views(fs);
    ViewStart(fs, views, p.fragment);
    failed := CopyWalk(views, p.fragment, p.offset, dst, p.consumed);
  }

  /** The unread window of the fragment a position is in: a prefix of what is left. */
  lemma {:induction false} UnreadWindow(fs: seq<Fragment>, p: Position)
    requires AllOk(fs) && PosOk(fs, p) && p.fragment < |fs|
    ensures var f := fs[p.fragment].Cut(p.offset, fs[p.fragment].len - p.offset);
      && f.Ok() && f.len > 0 && p.consumed + f.len <= Total(fs)
      && f.Bytes() == Flat(fs)[p.consumed..p.consumed + f.len]
  {
    WindowInFlat(fs, p.fragment, p.offset, fs[p.fragment].len - p.offset);
  }
}
