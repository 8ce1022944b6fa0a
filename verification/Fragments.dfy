/**
 Windows onto byte arrays and the flat sequence they present
 (src/bytes/fragmented_buffer.h).

 A fragment owns a share of one backing array and presents a window of it; any
 number of fragments may present windows of the same array. The functions on
 descriptors move windows without reading a byte; the lemmas say what that does
 to the flat sequence.
 */
module Fragments {
  import opened Units

  const MAX_CONTIGUOUS: nat := 0x2_0000       // 128 KiB
  const MAX_FRAGMENTS: nat := 1024
  const MAX_BYTES: nat := MAX_FRAGMENTS * MAX_CONTIGUOUS

  /** `retained` is the size of the allocation the fragment keeps alive. */
  datatype Fragment = Fragment(data: array<byte>, off: nat, len: nat, retained: nat) {
    predicate InRange() {
      off + len <= data.Length
    }

    /** A window of one allocation, which is within the ceiling and fully accounted for. */
    predicate Ok() {
      InRange() && data.Length == retained <= MAX_CONTIGUOUS
    }

    /** An allocation of n bytes and all of it presented. */
    predicate Whole(n: nat) {
      off == 0 && len == retained == n
    }

    ghost function Bytes(): (b: seq<byte>)
      requires InRange()
      reads data
      ensures |b| == len
    {
      data[off..off + len]
    }

    /** The window of `count` bytes that starts `skip` bytes in. */
    function Cut(skip: nat, count: nat): (f: Fragment)
      requires skip + count <= len
      ensures Ok() ==> f.Ok()
    {
      Fragment(data, off + skip, count, retained)
    }
  }

  lemma CutBytes(f: Fragment, a: nat, n: nat)
    requires f.Ok() && a + n <= f.len
    ensures f.Cut(a, n).Bytes() == f.Bytes()[a..a + n]
  {
    var x, y := f.Cut(a, n).Bytes(), f.Bytes()[a..a + n];
    forall k | 0 <= k < n ensures x[k] == y[k] {
      assert x[k] == f.data[f.off + a + k] && f.Bytes()[a + k] == f.data[f.off + (a + k)];
    }
  }

  predicate AllOk(fs: seq<Fragment>) {
    forall i :: 0 <= i < |fs| ==> fs[i].Ok()
  }

  /** Whole allocations of these sizes. */
  ghost predicate OfSizes(fs: seq<Fragment>, sizes: seq<nat>) {
    |fs| == |sizes| && forall i :: 0 <= i < |fs| ==> fs[i].Whole(sizes[i])
  }

  ghost predicate NoneEmpty(fs: seq<Fragment>) {
    forall i :: 0 <= i < |fs| ==> fs[i].len > 0
  }

  ghost function Arrays(fs: seq<Fragment>): set<array<byte>> {
    set f | f in fs :: f.data
  }

  /** The presented bytes together, as one flat sequence. */
  ghost function Flat(fs: seq<Fragment>): (b: seq<byte>)
    requires AllOk(fs)
    reads Arrays(fs)
    ensures |b| == Total(fs)
  {
    if fs == [] then [] else fs[0].Bytes() + Flat(fs[1..])
  }

  function Total(fs: seq<Fragment>): nat {
    if fs == [] then 0 else fs[0].len + Total(fs[1..])
  }

  function Retained(fs: seq<Fragment>): nat {
    if fs == [] then 0 else fs[0].retained + Retained(fs[1..])
  }

  lemma {:induction false} TotalConcat(a: seq<Fragment>, b: seq<Fragment>)
    ensures Total(a + b) == Total(a) + Total(b)
    ensures Retained(a + b) == Retained(a) + Retained(b)
  {
    if a == [] {
      assert a + b == b;
    } else {
      assert (a + b)[1..] == a[1..] + b;
      TotalConcat(a[1..], b);
    }
  }

  lemma {:induction false} FlatConcat(a: seq<Fragment>, b: seq<Fragment>)
    requires AllOk(a) && AllOk(b)
    ensures AllOk(a + b) && Flat(a + b) == Flat(a) + Flat(b)
  {
    if a == [] {
      assert a + b == b;
    } else {
      assert (a + b)[1..] == a[1..] + b;
      FlatConcat(a[1..], b);
    }
  }

  lemma TotalSnoc(fs: seq<Fragment>, f: Fragment)
    ensures Total(fs + [f]) == Total(fs) + f.len
    ensures Retained(fs + [f]) == Retained(fs) + f.retained
  {
    TotalConcat(fs, [f]);
    assert [f][1..] == [];
  }

  /** The totals before fragment i and after it. */
  lemma TotalAt(fs: seq<Fragment>, i: nat)
    requires i < |fs|
    ensures Total(fs[..i + 1]) == Total(fs[..i]) + fs[i].len <= Total(fs)
    ensures Retained(fs[..i + 1]) == Retained(fs[..i]) + fs[i].retained <= Retained(fs)
  {
    assert fs[..i + 1] == fs[..i] + [fs[i]];
    TotalSnoc(fs[..i], fs[i]);
    TotalSplit(fs, i + 1);
  }

  lemma TotalSplit(fs: seq<Fragment>, i: nat)
    requires i <= |fs|
    ensures Total(fs) == Total(fs[..i]) + Total(fs[i..])
    ensures Retained(fs) == Retained(fs[..i]) + Retained(fs[i..])
  {
    assert fs == fs[..i] + fs[i..];
    TotalConcat(fs[..i], fs[i..]);
  }

  lemma FlatSnoc(fs: seq<Fragment>, f: Fragment)
    requires AllOk(fs) && f.Ok()
    ensures AllOk(fs + [f]) && Flat(fs + [f]) == Flat(fs) + f.Bytes()
  {
    FlatConcat(fs, [f]);
    assert [f][1..] == [];
  }

  lemma FlatCons(f: Fragment, fs: seq<Fragment>)
    requires f.Ok() && AllOk(fs)
    ensures AllOk([f] + fs) && Flat([f] + fs) == f.Bytes() + Flat(fs)
    ensures Total([f] + fs) == f.len + Total(fs) && Retained([f] + fs) == f.retained + Retained(fs)
  {
    assert ([f] + fs)[1..] == fs;
  }

  lemma Regroup<T>(a: seq<T>, x: T, b: seq<T>)
    ensures a + ([x] + b) == (a + [x]) + b
  {
  }

  /** The flat sequence depends on the presented bytes alone, so writes elsewhere leave it. */
  twostate lemma {:induction false} FlatKept(fs: seq<Fragment>)
    requires AllOk(fs)
    requires forall i :: 0 <= i < |fs| ==> fs[i].Bytes() == old(fs[i].Bytes())
    ensures Flat(fs) == old(Flat(fs))
  {
    if fs != [] {
      FlatKept(fs[1..]);
    }
  }

  /** Copies `src` over the bytes from `at`, and touches no other. */
  method MemCopy(dst: array<byte>, at: nat, src: seq<byte>)
    requires at + |src| <= dst.Length
    modifies dst
    ensures dst[..at] == old(dst[..at])
    ensures dst[at..at + |src|] == src
    ensures forall i :: 0 <= i < dst.Length && !(at <= i < at + |src|) ==> dst[i] == old(dst[i])
  {
    forall i | 0 <= i < |src| {
      dst[at + i] := src[i];
    }
  }

  // ----- moving windows -----

  /** All but the first n presented bytes. */
  function Drop(fs: seq<Fragment>, n: nat): (r: seq<Fragment>)
    requires n <= Total(fs)
  {
    if fs == [] || n == 0 then fs
    else if n >= fs[0].len then Drop(fs[1..], n - fs[0].len)
    else [fs[0].Cut(n, fs[0].len - n)] + fs[1..]
  }

  /** The first n presented bytes. */
  function Take(fs: seq<Fragment>, n: nat): (r: seq<Fragment>)
    requires n <= Total(fs)
  {
    if fs == [] || n == 0 then []
    else if n >= fs[0].len then [fs[0]] + Take(fs[1..], n - fs[0].len)
    else [fs[0].Cut(0, n)]
  }

  ghost predicate Sound(fs: seq<Fragment>) {
    AllOk(fs) && NoneEmpty(fs)
  }

  lemma {:induction false} DropTotal(fs: seq<Fragment>, n: nat)
    requires n <= Total(fs)
    ensures Total(Drop(fs, n)) + n == Total(fs)
    ensures |Drop(fs, n)| <= |fs| && Retained(Drop(fs, n)) <= Retained(fs)
  {
    if fs == [] || n == 0 {
    } else if n >= fs[0].len {
      DropTotal(fs[1..], n - fs[0].len);
    } else {
      assert ([fs[0].Cut(n, fs[0].len - n)] + fs[1..])[1..] == fs[1..];
    }
  }

  lemma {:induction false} TakeTotal(fs: seq<Fragment>, n: nat)
    requires n <= Total(fs)
    ensures Total(Take(fs, n)) == n
    ensures |Take(fs, n)| <= |fs| && Retained(Take(fs, n)) <= Retained(fs)
  {
    if fs == [] || n == 0 {
    } else if n >= fs[0].len {
      TakeTotal(fs[1..], n - fs[0].len);
      assert ([fs[0]] + Take(fs[1..], n - fs[0].len))[1..] == Take(fs[1..], n - fs[0].len);
    } else {
      assert [fs[0].Cut(0, n)][1..] == [];
    }
  }

  lemma DropOfConcat(a: seq<byte>, b: seq<byte>, n: nat)
    requires n <= |a| + |b|
    ensures (a + b)[n..] == if n >= |a| then b[n - |a|..] else a[n..] + b
    ensures (a + b)[..n] == if n >= |a| then a + b[..n - |a|] else a[..n]
  {
  }

  lemma FlatSplit(fs: seq<Fragment>)
    requires AllOk(fs) && fs != []
    ensures Flat(fs) == fs[0].Bytes() + Flat(fs[1..])
  {
  }

  lemma DropStep(fs: seq<Fragment>, n: nat)
    requires fs != [] && 0 < n <= Total(fs)
    ensures n >= fs[0].len ==> Drop(fs, n) == Drop(fs[1..], n - fs[0].len)
    ensures n < fs[0].len ==> Drop(fs, n) == [fs[0].Cut(n, fs[0].len - n)] + fs[1..]
  {
  }

  lemma TakeStep(fs: seq<Fragment>, n: nat)
    requires fs != [] && 0 < n <= Total(fs)
    ensures n >= fs[0].len ==> Take(fs, n) == [fs[0]] + Take(fs[1..], n - fs[0].len)
    ensures n < fs[0].len ==> Take(fs, n) == [fs[0].Cut(0, n)] + []
  {
  }

  lemma {:induction false} DropFlat(fs: seq<Fragment>, n: nat)
    requires Sound(fs) && n <= Total(fs)
    ensures Sound(Drop(fs, n)) && Flat(Drop(fs, n)) == Flat(fs)[n..]
  {
    if fs == [] || n == 0 {
    } else {
      var first, rest := fs[0], fs[1..];
      FlatSplit(fs);
      DropStep(fs, n);
      DropOfConcat(first.Bytes(), Flat(rest), n);
      if n >= first.len {
        DropFlat(rest, n - first.len);
      } else {
        CutBytes(first, n, first.len - n);
        FlatCons(first.Cut(n, first.len - n), rest);
      }
    }
  }

  lemma {:induction false} TakeFlat(fs: seq<Fragment>, n: nat)
    requires Sound(fs) && n <= Total(fs)
    ensures Sound(Take(fs, n)) && Flat(Take(fs, n)) == Flat(fs)[..n]
  {
    if fs == [] || n == 0 {
    } else if n >= fs[0].len {
      var first, rest, more := fs[0], fs[1..], n - fs[0].len;
      TakeFlat(rest, more);
      FlatSplit(fs);
      TakeStep(fs, n);
      DropOfConcat(first.Bytes(), Flat(rest), n);
      FlatCons(first, Take(rest, more));
    } else {
      TakeInside(fs, n);
    }
  }

  lemma TakeInside(fs: seq<Fragment>, n: nat)
    requires Sound(fs) && fs != [] && 0 < n < fs[0].len
    ensures n <= Total(fs) && Sound(Take(fs, n)) && Flat(Take(fs, n)) == Flat(fs)[..n]
  {
    var first := fs[0];
    FlatSplit(fs);
    TakeStep(fs, n);
    DropOfConcat(first.Bytes(), Flat(fs[1..]), n);
    CutBytes(first, 0, n);
    FlatCons(first.Cut(0, n), []);
  }

  /** A slice of the flat bytes, as windows. */
  function Slice(fs: seq<Fragment>, offset: nat, length: nat): seq<Fragment>
    requires offset + length <= Total(fs)
  {
    DropTotal(fs, offset);
    Take(Drop(fs, offset), length)
  }

  lemma SliceTotal(fs: seq<Fragment>, offset: nat, length: nat)
    requires offset + length <= Total(fs)
    ensures var s := Slice(fs, offset, length);
      Total(s) == length && |s| <= |fs| && Retained(s) <= Retained(fs)
  {
    DropTotal(fs, offset);
    TakeTotal(Drop(fs, offset), length);
  }

  lemma DropThenTake(s: seq<byte>, offset: nat, length: nat)
    requires offset + length <= |s|
    ensures s[offset..][..length] == s[offset..offset + length]
  {
  }

  lemma SliceFlat(fs: seq<Fragment>, offset: nat, length: nat)
    requires Sound(fs) && offset + length <= Total(fs)
    ensures var s := Slice(fs, offset, length);
      Sound(s) && Flat(s) == Flat(fs)[offset..offset + length]
  {
    DropTotal(fs, offset);
    DropFlat(fs, offset);
    var rest := Drop(fs, offset);
    TakeFlat(rest, length);
    DropThenTake(Flat(fs), offset, length);
  }

  /** What is left from `skip` bytes into fragment i. */
  function Tail(fs: seq<Fragment>, i: nat, skip: nat): seq<Fragment>
    requires i <= |fs| && (i < |fs| ==> skip <= fs[i].len)
  {
    if i == |fs| then [] else [fs[i].Cut(skip, fs[i].len - skip)] + fs[i + 1..]
  }

  lemma TailWhole(fs: seq<Fragment>, i: nat)
    requires i <= |fs|
    ensures Tail(fs, i, 0) == fs[i..]
  {
    if i < |fs| {
      assert fs[i].Cut(0, fs[i].len) == fs[i];
    }
  }

  lemma {:induction false} TailIsDrop(fs: seq<Fragment>, i: nat, skip: nat)
    requires NoneEmpty(fs) && i < |fs| && skip < fs[i].len
    ensures Total(fs[..i]) + skip <= Total(fs)
    ensures Drop(fs, Total(fs[..i]) + skip) == Tail(fs, i, skip)
  {
    TotalAt(fs, i);
    if i == 0 {
      TailWhole(fs, 0);
    } else {
      var rest := fs[1..];
      var inside := Total(rest[..i - 1]) + skip;
      assert fs[..i][1..] == rest[..i - 1] && rest[i..] == fs[i + 1..];
      TailIsDrop(rest, i - 1, skip);
      DropStep(fs, fs[0].len + inside);
    }
  }

  /** Up to n bytes from `skip` bytes into fragment i, window by window. */
  ghost function From(fs: seq<Fragment>, i: nat, skip: nat, n: nat): seq<Fragment>
    requires i <= |fs| && (i < |fs| ==> skip <= fs[i].len)
    decreases |fs| - i
  {
    if i == |fs| || n == 0 then []
    else if skip == fs[i].len then From(fs, i + 1, 0, n)
    else
      var take := Min(fs[i].len - skip, n);
      [fs[i].Cut(skip, take)] + From(fs, i + 1, 0, n - take)
  }

  lemma FromStep(fs: seq<Fragment>, i: nat, skip: nat, n: nat) returns (next: seq<Fragment>)
    requires i < |fs| && skip < fs[i].len && n > 0
    ensures var take := Min(fs[i].len - skip, n);
      next == From(fs, i + 1, 0, n - take) && From(fs, i, skip, n) == [fs[i].Cut(skip, take)] + next
  {
    next := From(fs, i + 1, 0, n - Min(fs[i].len - skip, n));
  }

  lemma {:induction false} FromIsTake(fs: seq<Fragment>, i: nat, skip: nat, n: nat)
    requires NoneEmpty(fs) && i < |fs| && skip < fs[i].len && n <= Total(Tail(fs, i, skip))
    ensures From(fs, i, skip, n) == Take(Tail(fs, i, skip), n)
    decreases |fs| - i
  {
    assert Tail(fs, i, skip)[1..] == fs[i + 1..];
    if n > fs[i].len - skip {
      TailWhole(fs, i + 1);
      FromIsTake(fs, i + 1, 0, n - (fs[i].len - skip));
    }
  }

  lemma FromIsSlice(fs: seq<Fragment>, i: nat, skip: nat, n: nat)
    requires NoneEmpty(fs) && i <= |fs| && (if i < |fs| then skip <= fs[i].len else skip == 0)
    requires Total(fs[..i]) + skip + n <= Total(fs)
    ensures From(fs, i, skip, n) == Slice(fs, Total(fs[..i]) + skip, n)
  {
    assert fs[..|fs|] == fs;
    if i < |fs| && skip == fs[i].len {
      TotalAt(fs, i);
      if i + 1 < |fs| {
        FromInside(fs, i + 1, 0, n);
      }
    } else if i < |fs| {
      FromInside(fs, i, skip, n);
    }
  }

  lemma FromInside(fs: seq<Fragment>, i: nat, skip: nat, n: nat)
    requires NoneEmpty(fs) && i < |fs| && skip < fs[i].len && Total(fs[..i]) + skip + n <= Total(fs)
    ensures From(fs, i, skip, n) == Slice(fs, Total(fs[..i]) + skip, n)
  {
    TailIsDrop(fs, i, skip);
    DropTotal(fs, Total(fs[..i]) + skip);
    FromIsTake(fs, i, skip, n);
  }

  /** Windows taken up to the start of fragment j, and one more from j. */
  lemma {:induction false} FromSnoc(fs: seq<Fragment>, i: nat, skip: nat, j: nat, span: nat)
    requires NoneEmpty(fs) && i < j < |fs| && skip <= fs[i].len && 0 < span <= fs[j].len
    ensures var n := Total(fs[i..j]) - skip;
      n >= 0 && From(fs, i, skip, n + span) == From(fs, i, skip, n) + [fs[j].Cut(0, span)]
    decreases j - i
  {
    assert fs[i..j][1..] == fs[i + 1..j];
    var n := Total(fs[i..j]) - skip;
    if i + 1 == j {
      assert fs[i + 1..j] == [];
      assert From(fs, j, 0, span) == [fs[j].Cut(0, span)] + From(fs, j + 1, 0, 0);
    } else {
      FromSnoc(fs, i + 1, 0, j, span);
      if skip < fs[i].len {
        var head := [fs[i].Cut(skip, fs[i].len - skip)];
        var rest := From(fs, i + 1, 0, Total(fs[i + 1..j]));
        assert head + (rest + [fs[j].Cut(0, span)]) == (head + rest) + [fs[j].Cut(0, span)];
      }
    }
  }

  /** Taking no more than a prefix presents takes from the prefix alone. */
  lemma {:induction false} TakePrefix(fs: seq<Fragment>, k: nat, n: nat)
    requires k <= |fs| && n <= Total(fs[..k])
    ensures n <= Total(fs) && Take(fs, n) == Take(fs[..k], n)
  {
    TotalSplit(fs, k);
    if k > 0 && n >= fs[0].len && n > 0 {
      assert fs[..k][1..] == fs[1..][..k - 1];
      TakePrefix(fs[1..], k - 1, n - fs[0].len);
    }
  }

  lemma {:induction false} TakeSnoc(fs: seq<Fragment>, f: Fragment, m: nat)
    requires NoneEmpty(fs) && 0 < m <= f.len
    ensures Total(fs) + m <= Total(fs + [f]) && Take(fs + [f], Total(fs) + m) == fs + [f.Cut(0, m)]
  {
    TotalSnoc(fs, f);
    if fs == [] {
      assert [f][1..] == [];
      assert fs + [f] == [f];
    } else {
      assert (fs + [f])[1..] == fs[1..] + [f];
      TakeSnoc(fs[1..], f, m);
      assert fs + [f.Cut(0, m)] == [fs[0]] + (fs[1..] + [f.Cut(0, m)]);
    }
  }

  // ----- the presented bytes as plain values -----

  /** A read-only view of the bytes each fragment presents. */
  function Views(fs: seq<Fragment>): (p: seq<seq<byte>>)
    requires AllOk(fs)
    reads Arrays(fs)
    ensures |p| == |fs|
    ensures forall i :: 0 <= i < |fs| ==> p[i] == fs[i].Bytes()
    ensures Flat(fs) == Join(p)
  {
    if fs == [] then [] else [fs[0].data[fs[0].off..fs[0].off + fs[0].len]] + Views(fs[1..])
  }

  ghost function Join(p: seq<seq<byte>>): seq<byte> {
    if p == [] then [] else p[0] + Join(p[1..])
  }

  lemma {:induction false} JoinConcat(p: seq<seq<byte>>, q: seq<seq<byte>>)
    ensures Join(p + q) == Join(p) + Join(q)
  {
    if p == [] {
      assert p + q == q;
    } else {
      assert (p + q)[1..] == p[1..] + q;
      JoinConcat(p[1..], q);
    }
  }

  /** Where part i starts in the flat sequence. */
  ghost function Start(p: seq<seq<byte>>, i: nat): nat
    requires i <= |p|
  {
    if i == 0 then 0 else Start(p, i - 1) + |p[i - 1]|
  }

  lemma SliceMiddle(pre: seq<byte>, mid: seq<byte>, post: seq<byte>, a: nat, n: nat)
    requires a + n <= |mid|
    ensures (pre + (mid + post))[|pre| + a..|pre| + a + n] == mid[a..a + n]
  {
  }

  lemma {:induction false} StartIsLength(p: seq<seq<byte>>, i: nat)
    requires i <= |p|
    ensures Start(p, i) == |Join(p[..i])|
  {
    if i > 0 {
      StartIsLength(p, i - 1);
      assert p[..i] == p[..i - 1] + [p[i - 1]];
      JoinConcat(p[..i - 1], [p[i - 1]]);
      assert Join([p[i - 1]]) == p[i - 1];
    }
  }

  lemma StartOfAll(p: seq<seq<byte>>)
    ensures Start(p, |p|) == |Join(p)|
  {
    StartIsLength(p, |p|);
    assert p[..|p|] == p;
  }

  lemma JoinAround(p: seq<seq<byte>>, i: nat)
    requires i < |p|
    ensures Join(p) == Join(p[..i]) + (p[i] + Join(p[i + 1..]))
  {
    var front, back := p[..i], p[i..];
    assert p == front + back && back[1..] == p[i + 1..];
    JoinConcat(front, back);
  }

  /** Bytes a..a+n of part i, found in the flat sequence. */
  lemma JoinWindow(p: seq<seq<byte>>, i: nat, a: nat, n: nat)
    requires i < |p| && a + n <= |p[i]|
    ensures Start(p, i) + |p[i]| <= |Join(p)|
    ensures Join(p)[Start(p, i) + a..Start(p, i) + a + n] == p[i][a..a + n]
  {
    StartIsLength(p, i);
    JoinAround(p, i);
    SliceMiddle(Join(p[..i]), p[i], Join(p[i + 1..]), a, n);
  }

  lemma JoinWindowAt(p: seq<seq<byte>>, i: nat, start: nat, a: nat, n: nat)
    requires i < |p| && a + n <= |p[i]| && start == Start(p, i)
    ensures start + a + n <= |Join(p)| && Join(p)[start + a..start + a + n] == p[i][a..a + n]
  {
    JoinWindow(p, i, a, n);
  }

  lemma CopiedMore(s: seq<byte>, flat: seq<byte>, pos: nat, n: nat, span: nat)
    requires |s| >= n + span && pos + n + span <= |flat|
    requires s[..n] == flat[pos..pos + n] && s[n..n + span] == flat[pos + n..pos + n + span]
    ensures s[..n + span] == flat[pos..pos + n + span]
  {
    assert s[..n + span] == s[..n] + s[n..n + span];
  }

  /** Copies one span of a view behind the bytes copied so far. */
  method NextSpan(p: seq<seq<byte>>, i: nat, a: nat, dst: array<byte>, written: nat, span: nat, ghost pos: nat)
    requires i < |p| && a + span <= |p[i]| && written + span <= dst.Length && Start(p, i) + a == pos + written
    requires pos + written + span <= |Join(p)| && dst[..written] == Join(p)[pos..pos + written]
    modifies dst
    ensures dst[..written + span] == Join(p)[pos..pos + written + span]
  {
    JoinWindowAt(p, i, pos + written - a, a, span);
    var bytes := p[i][a..a + span];
    MemCopy(dst, written, bytes);
    CopiedMore(dst[..], Join(p), pos, written, span);
  }
}
