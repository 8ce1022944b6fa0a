/**
 The binary heap of run heads that a merge keeps in a vector: push_heap and
 pop_heap under the reversed order, so that the least head is on top
 (src/codec/collection.h:638-657, 807-850).
 */
module RunHeap {
  import opened Units
  import opened Orders

  /** The head of what is left of a run, and where it stands. */
  datatype HeapEntry<T> = HeapEntry(value: T, list: nat, at: nat)

  function Parent(i: nat): nat
    requires i > 0
  {
    (i - 1) / 2
  }

  lemma OneLevelUp(i: nat)
    requires i > 0
    ensures BitWidth(i + 1) == BitWidth(Parent(i) + 1) + 1
  {
    assert (i + 1) / 2 == Parent(i) + 1;
  }

  /** No entry comes before its parent. */
  ghost predicate IsHeap<T>(h: seq<HeapEntry<T>>, less: (T, T) -> bool) {
    forall i :: 0 < i < |h| ==> !less(h[i].value, h[Parent(i)].value)
  }

  lemma {:induction false} TopIsLeast<T(!new)>(h: seq<HeapEntry<T>>, less: (T, T) -> bool, i: nat)
    requires StrictWeak(less) && IsHeap(h, less) && i < |h|
    ensures !less(h[i].value, h[0].value)
    decreases i
  {
    if i > 0 {
      TopIsLeast(h, less, Parent(i));
    }
  }

  function Swapped<T>(h: seq<HeapEntry<T>>, i: nat, j: nat): (r: seq<HeapEntry<T>>)
    requires i < |h| && j < |h|
    ensures multiset(r) == multiset(h)
  {
    h[i := h[j]][j := h[i]]
  }

  /** A heap but for entry k, which may come before its parent; what is below k does not. */
  ghost predicate Rising<T>(h: seq<HeapEntry<T>>, less: (T, T) -> bool, k: nat) {
    && k < |h|
    && (forall i :: 0 < i < |h| && i != k ==> !less(h[i].value, h[Parent(i)].value))
    && (k > 0 ==> forall i :: 0 < i < |h| && Parent(i) == k ==> !less(h[i].value, h[Parent(k)].value))
  }

  lemma Risen<T(!new)>(h: seq<HeapEntry<T>>, less: (T, T) -> bool, k: nat)
    requires StrictWeak(less) && Rising(h, less, k) && k > 0 && less(h[k].value, h[Parent(k)].value)
    ensures Rising(Swapped(h, k, Parent(k)), less, Parent(k))
  {
    var p, r := Parent(k), Swapped(h, k, Parent(k));
    forall i | 0 < i < |r| && i != p ensures !less(r[i].value, r[Parent(i)].value) {
      if i != k && Parent(i) == p {
        assert !less(h[i].value, h[p].value);
      }
    }
  }

  lemma LastRises<T>(h: seq<HeapEntry<T>>, less: (T, T) -> bool)
    requires h != [] && IsHeap(h[..|h| - 1], less)
    ensures Rising(h, less, |h| - 1)
  {
    var front := h[..|h| - 1];
    forall i | 0 < i < |h| && i != |h| - 1 ensures !less(h[i].value, h[Parent(i)].value) {
      assert front[i] == h[i] && front[Parent(i)] == h[Parent(i)];
    }
  }

  lemma InPlace<T>(h: seq<HeapEntry<T>>, less: (T, T) -> bool, k: nat)
    requires Rising(h, less, k) && (k > 0 ==> !less(h[k].value, h[Parent(k)].value))
    ensures IsHeap(h, less)
  {
  }

  /** The same entries, and those from n on where they were. */
  ghost predicate Kept<T>(r: seq<HeapEntry<T>>, n: nat, h: seq<HeapEntry<T>>) {
    multiset(r) == multiset(h) && n <= |r| == |h| && r[n..] == h[n..]
  }

  /** push_heap: the last entry rises to its place. `effort` counts comparisons and swaps. */
  method PushHeap<T(!new)>(h: seq<HeapEntry<T>>, less: (T, T) -> bool)
    returns (r: seq<HeapEntry<T>>, ghost effort: nat)
    requires StrictWeak(less) && h != [] && IsHeap(h[..|h| - 1], less)
    ensures IsHeap(r, less) && multiset(r) == multiset(h) && |r| == |h|
    ensures effort <= 2 * BitWidth(|h|)
  {
    r, effort := h, 0;
    ghost var most, level := BitWidth(|h|), BitWidth(|h|);
    var k: nat := |h| - 1;
    LastRises(h, less);
    while k > 0 && less(r[k].value, r[Parent(k)].value)
      invariant Rising(r, less, k) && Kept(r, |h|, h)
      invariant 0 < level == BitWidth(k + 1) && effort + 2 * level == 2 * most
      decreases k
    {
      Risen(r, less, k);
      OneLevelUp(k);
      var p := Parent(k);
      r, k, effort, level := Swapped(r, k, p), p, effort + 2, level - 1;
    }
    InPlace(r, less, k);
    effort := effort + if k > 0 then 1 else 0;
  }

  /** A heap of the first n entries but for entry k, which some of those below it may come before. */
  ghost predicate Sinking<T>(h: seq<HeapEntry<T>>, n: nat, less: (T, T) -> bool, k: nat) {
    && k <= n <= |h|
    && (forall i :: 0 < i < n && Parent(i) != k ==> !less(h[i].value, h[Parent(i)].value))
    && (k > 0 ==> forall i :: 0 < i < n && Parent(i) == k ==> !less(h[i].value, h[Parent(k)].value))
  }

  /** The child of k that the other does not come before. */
  function Child<T>(h: seq<HeapEntry<T>>, n: nat, less: (T, T) -> bool, k: nat): (c: nat)
    requires 2 * k + 1 < n <= |h|
    ensures 0 < c < n && Parent(c) == k
  {
    if 2 * k + 2 < n && less(h[2 * k + 2].value, h[2 * k + 1].value) then 2 * k + 2 else 2 * k + 1
  }

  lemma ChildLeast<T(!new)>(h: seq<HeapEntry<T>>, n: nat, less: (T, T) -> bool, k: nat, i: nat)
    requires StrictWeak(less) && 2 * k + 1 < n <= |h| && 0 < i < n && Parent(i) == k
    ensures !less(h[i].value, h[Child(h, n, less, k)].value)
  {
    assert i == 2 * k + 1 || i == 2 * k + 2;
  }

  lemma Sunk<T(!new)>(h: seq<HeapEntry<T>>, n: nat, less: (T, T) -> bool, k: nat)
    requires StrictWeak(less) && Sinking(h, n, less, k) && 2 * k + 1 < n
    requires less(h[Child(h, n, less, k)].value, h[k].value)
    ensures Sinking(Swapped(h, k, Child(h, n, less, k)), n, less, Child(h, n, less, k))
    ensures Swapped(h, k, Child(h, n, less, k))[n..] == h[n..]
  {
    var c := Child(h, n, less, k);
    var r := Swapped(h, k, c);
    forall i | 0 < i < n && Parent(i) != c ensures !less(r[i].value, r[Parent(i)].value) {
      if Parent(i) == k {
        ChildLeast(h, n, less, k, i);
      }
    }
  }

  lemma Settled<T(!new)>(h: seq<HeapEntry<T>>, n: nat, less: (T, T) -> bool, k: nat)
    requires StrictWeak(less) && Sinking(h, n, less, k)
    requires 2 * k + 1 < n ==> !less(h[Child(h, n, less, k)].value, h[k].value)
    ensures IsHeap(h[..n], less)
  {
    var r := h[..n];
    forall i | 0 < i < n ensures !less(r[i].value, r[Parent(i)].value) {
      if Parent(i) == k {
        ChildLeast(h, n, less, k, i);
      }
    }
  }

  /** The first n entries become a heap again as the first of them sinks to its place. */
  method SiftDown<T(!new)>(h: seq<HeapEntry<T>>, n: nat, less: (T, T) -> bool)
    returns (r: seq<HeapEntry<T>>, ghost effort: nat)
    requires StrictWeak(less) && Sinking(h, n, less, 0)
    ensures Kept(r, n, h) && IsHeap(r[..n], less)
    ensures effort <= 3 * BitWidth(n)
  {
    r, effort := h, 0;
    var k: nat := 0;
    ghost var level := BitWidth(1);
    while 2 * k + 1 < n && less(r[Child(r, n, less, k)].value, r[k].value)
      invariant Sinking(r, n, less, k) && Kept(r, n, h)
      invariant level == BitWidth(k + 1) && effort + 3 == 3 * level && (n > 0 ==> k < n)
      decreases n - k
    {
      var c := Child(r, n, less, k);
      Sunk(r, n, less, k);
      OneLevelUp(c);
      r, k, effort, level := Swapped(r, k, c), c, effort + 3, level + 1;
    }
    Settled(r, n, less, k);
    if n > 0 {
      WidthMonotone(k + 1, n);
    }
    effort := effort + if 2 * k + 1 < n then 2 else 0;
  }

  lemma TopAway<T>(h: seq<HeapEntry<T>>, less: (T, T) -> bool)
    requires h != [] && IsHeap(h, less)
    ensures Sinking(Swapped(h, 0, |h| - 1), |h| - 1, less, 0)
  {
  }

  /** pop_heap: the top goes to the back, and the entry that was there sinks to its place. */
  method PopHeap<T(!new)>(h: seq<HeapEntry<T>>, less: (T, T) -> bool)
    returns (rest: seq<HeapEntry<T>>, top: HeapEntry<T>, ghost effort: nat)
    requires StrictWeak(less) && h != [] && IsHeap(h, less)
    ensures multiset(rest) + multiset{top} == multiset(h) && IsHeap(rest, less) && |rest| + 1 == |h|
    ensures forall i :: 0 <= i < |h| ==> !less(h[i].value, top.value)
    ensures effort <= 3 * BitWidth(|h|) + 1
  {
    var n := |h| - 1;
    TopAway(h, less);
    var r;
    r, effort := SiftDown(Swapped(h, 0, n), n, less);
    WidthMonotone(n, |h|);
    effort := effort + 1;
    rest, top := r[..n], r[n];
    assert r == rest + [top] && top == r[n..][0] == h[0];
    forall i | 0 <= i < |h| ensures !less(h[i].value, top.value) {
      TopIsLeast(h, less, i);
    }
  }

  // ----- what is left of the runs -----

  /** From the entry on to the end of its run. */
  function Rest<T>(e: HeapEntry<T>, runs: seq<seq<T>>): seq<T> {
    if e.list < |runs| && e.at <= |runs[e.list]| then runs[e.list][e.at..] else []
  }

  ghost predicate OnRun<T>(e: HeapEntry<T>, runs: seq<seq<T>>) {
    e.list < |runs| && e.at < |runs[e.list]| && e.value == runs[e.list][e.at]
  }

  ghost predicate OnRuns<T>(h: seq<HeapEntry<T>>, runs: seq<seq<T>>) {
    forall k :: 0 <= k < |h| ==> OnRun(h[k], runs)
  }

  ghost function Left<T>(h: seq<HeapEntry<T>>, runs: seq<seq<T>>): multiset<T> {
    if h == [] then multiset{} else multiset(Rest(h[0], runs)) + Left(h[1..], runs)
  }

  lemma {:induction false} LeftConcat<T>(a: seq<HeapEntry<T>>, b: seq<HeapEntry<T>>, runs: seq<seq<T>>)
    ensures Left(a + b, runs) == Left(a, runs) + Left(b, runs)
  {
    if a == [] {
      assert a + b == b;
    } else {
      assert (a + b)[1..] == a[1..] + b;
      LeftConcat(a[1..], b, runs);
    }
  }

  lemma LeftSnoc<T>(h: seq<HeapEntry<T>>, e: HeapEntry<T>, runs: seq<seq<T>>)
    ensures Left(h + [e], runs) == Left(h, runs) + multiset(Rest(e, runs))
  {
    LeftConcat(h, [e], runs);
    assert [e][1..] == [];
  }

  lemma LeftWithout<T>(h: seq<HeapEntry<T>>, i: nat, runs: seq<seq<T>>)
    requires i < |h|
    ensures Left(h, runs) == multiset(Rest(h[i], runs)) + Left(h[..i] + h[i + 1..], runs)
    ensures multiset(h) == multiset(h[..i] + h[i + 1..]) + multiset{h[i]}
  {
    var before, after := h[..i], h[i + 1..];
    var upTo := before + [h[i]];
    assert h == upTo + after;
    LeftConcat(upTo, after, runs);
    LeftSnoc(before, h[i], runs);
    LeftConcat(before, after, runs);
  }

  /** It does not matter how the heap is arranged. */
  lemma {:induction false} LeftSame<T>(a: seq<HeapEntry<T>>, b: seq<HeapEntry<T>>, runs: seq<seq<T>>)
    requires multiset(a) == multiset(b)
    ensures Left(a, runs) == Left(b, runs)
    decreases |a|
  {
    if a == [] {
      assert |multiset(b)| == 0;
    } else {
      var i := FirstIn(a, b);
      var others := b[..i] + b[i + 1..];
      LeftWithout(b, i, runs);
      LeftSame(a[1..], others, runs);
    }
  }

  /** Where the first entry stands in another arrangement. */
  lemma FirstIn<T>(a: seq<HeapEntry<T>>, b: seq<HeapEntry<T>>) returns (i: nat)
    requires multiset(a) == multiset(b) && a != []
    ensures i < |b| && b[i] == a[0] && multiset(a[1..]) == multiset(b[..i] + b[i + 1..])
  {
    assert a == [a[0]] + a[1..];
    assert a[0] in multiset(b);
    i :| 0 <= i < |b| && b[i] == a[0];
    assert b == b[..i] + [b[i]] + b[i + 1..];
    assert multiset(b) == multiset(b[..i] + b[i + 1..]) + multiset{b[i]};
    assert multiset(a) == multiset(a[1..]) + multiset{a[0]};
    Cancel(multiset(a[1..]), multiset(b[..i] + b[i + 1..]), a[0]);
  }

  lemma Cancel<T>(m: multiset<T>, n: multiset<T>, x: T)
    requires m + multiset{x} == n + multiset{x}
    ensures m == n
  {
    forall y ensures m[y] == n[y] {
      assert (m + multiset{x})[y] == (n + multiset{x})[y];
    }
  }

  lemma OnRunsSame<T>(a: seq<HeapEntry<T>>, b: seq<HeapEntry<T>>, runs: seq<seq<T>>)
    requires multiset(a) == multiset(b) && OnRuns(a, runs)
    ensures OnRuns(b, runs)
  {
    forall k | 0 <= k < |b| ensures OnRun(b[k], runs) {
      assert b[k] in multiset(a);
    }
  }

  /** Nothing left comes before x. */
  ghost predicate NoneBefore<T>(h: seq<HeapEntry<T>>, runs: seq<seq<T>>, x: T, less: (T, T) -> bool) {
    forall k :: 0 <= k < |h| ==> Behind(Rest(h[k], runs), x, less)
  }

  ghost predicate Behind<T>(s: seq<T>, x: T, less: (T, T) -> bool) {
    forall i :: 0 <= i < |s| ==> !less(s[i], x)
  }

  lemma NoneBeforeSame<T>(a: seq<HeapEntry<T>>, b: seq<HeapEntry<T>>, runs: seq<seq<T>>, x: T, less: (T, T) -> bool)
    requires multiset(a) == multiset(b) && NoneBefore(a, runs, x, less)
    ensures NoneBefore(b, runs, x, less)
  {
    forall k | 0 <= k < |b| ensures Behind(Rest(b[k], runs), x, less) {
      assert b[k] in multiset(a);
    }
  }

  /** The least of the heads of sorted runs is the least of all that is left. */
  lemma HeadsFirst<T(!new)>(h: seq<HeapEntry<T>>, runs: seq<seq<T>>, x: T, less: (T, T) -> bool)
    requires StrictWeak(less) && Heads(runs, less) && OnRuns(h, runs)
    requires forall k :: 0 <= k < |h| ==> !less(h[k].value, x)
    ensures NoneBefore(h, runs, x, less)
  {
    forall k | 0 <= k < |h| ensures Behind(Rest(h[k], runs), x, less) {
      var e := h[k];
      var run := runs[e.list];
      forall i | 0 <= i < |Rest(e, runs)| ensures !less(Rest(e, runs)[i], x) {
        assert Rest(e, runs)[i] == run[e.at + i];
        if i > 0 {
          assert !less(run[e.at + i], run[e.at]);
        }
      }
    }
  }

  // ----- taking the least head -----

  /** The heap and what is left, as a merge keeps them. */
  ghost predicate Merging<T>(h: seq<HeapEntry<T>>, runs: seq<seq<T>>, less: (T, T) -> bool) {
    IsHeap(h, less) && OnRuns(h, runs)
  }

  /** The head of another run joins. */
  method PushRun<T(!new)>(h: seq<HeapEntry<T>>, e: HeapEntry<T>, ghost runs: seq<seq<T>>, less: (T, T) -> bool)
    returns (r: seq<HeapEntry<T>>, ghost effort: nat)
    requires StrictWeak(less) && Merging(h, runs, less) && OnRun(e, runs)
    ensures Merging(r, runs, less) && multiset(r) == multiset(h + [e]) && |r| == |h| + 1
    ensures Left(r, runs) == Left(h, runs) + multiset(Rest(e, runs))
    ensures effort <= 2 * BitWidth(|h| + 1)
  {
    var more := h + [e];
    assert more[..|h|] == h;
    r, effort := PushHeap(more, less);
    OnRunsSame(more, r, runs);
    LeftSame(more, r, runs);
    LeftSnoc(h, e, runs);
  }

  /** The least of all that is left leaves, with the rest of its run. */
  method PopRun<T(!new)>(h: seq<HeapEntry<T>>, ghost runs: seq<seq<T>>, less: (T, T) -> bool)
    returns (rest: seq<HeapEntry<T>>, top: HeapEntry<T>, ghost effort: nat)
    requires StrictWeak(less) && Heads(runs, less) && Merging(h, runs, less) && h != []
    ensures Merging(rest, runs, less) && OnRun(top, runs) && NoneBefore(rest + [top], runs, top.value, less)
    ensures Left(h, runs) == Left(rest, runs) + multiset(Rest(top, runs))
    ensures |rest| + 1 == |h| && effort <= 3 * BitWidth(|h|) + 1
  {
    rest, top, effort := PopHeap(h, less);
    HeadsFirst(h, runs, top.value, less);
    var all := rest + [top];
    OnRunsSame(h, all, runs);
    assert all[|rest|] == top && forall k :: 0 <= k < |rest| ==> all[k] == rest[k];
    NoneBeforeSame(h, all, runs, top.value, less);
    LeftSame(h, all, runs);
    LeftSnoc(rest, top, runs);
  }

  /** What follows a taken head in its run, if anything does, goes back. */
  method PushNext<T(!new)>(h: seq<HeapEntry<T>>, top: HeapEntry<T>, runs: seq<seq<T>>, less: (T, T) -> bool)
    returns (r: seq<HeapEntry<T>>, ghost effort: nat)
    requires StrictWeak(less) && Merging(h, runs, less) && OnRun(top, runs)
    requires NoneBefore(h + [top], runs, top.value, less)
    ensures Merging(r, runs, less) && NoneBefore(r, runs, top.value, less)
    ensures Left(r, runs) + multiset{top.value} == Left(h, runs) + multiset(Rest(top, runs))
    ensures |r| <= |h| + 1 && effort <= 2 * BitWidth(|h| + 1)
  {
    var run, at := runs[top.list], top.at + 1;
    assert Rest(top, runs) == [top.value] + run[at..];
    StillNone(h, top, runs, less);
    if at == |run| {
      return h, 0;
    }
    var next := HeapEntry(run[at], top.list, at);
    r, effort := PushRun(h, next, runs, less);
    StillBehind(h, top, next, runs, less);
    NoneBeforeSame(h + [next], r, runs, top.value, less);
  }

  lemma StillNone<T>(h: seq<HeapEntry<T>>, top: HeapEntry<T>, runs: seq<seq<T>>, less: (T, T) -> bool)
    requires NoneBefore(h + [top], runs, top.value, less)
    ensures NoneBefore(h, runs, top.value, less) && Behind(Rest(top, runs), top.value, less)
  {
    var all := h + [top];
    assert all[|h|] == top;
    forall k | 0 <= k < |h| ensures Behind(Rest(h[k], runs), top.value, less) {
      assert all[k] == h[k];
    }
  }

  lemma StillBehind<T>(h: seq<HeapEntry<T>>, top: HeapEntry<T>, next: HeapEntry<T>, runs: seq<seq<T>>,
                       less: (T, T) -> bool)
    requires NoneBefore(h, runs, top.value, less) && Behind(Rest(top, runs), top.value, less)
    requires next.list == top.list && next.at == top.at + 1
    ensures NoneBefore(h + [next], runs, top.value, less)
  {
    forall i | 0 <= i < |Rest(next, runs)| ensures !less(Rest(next, runs)[i], top.value) {
      assert Rest(next, runs)[i] == Rest(top, runs)[i + 1];
    }
  }
}
