/**
 Sequences under a strict weak order: sorted runs, their merge, and entries an
 order cannot tell apart (src/codec/collection.h).
 */
module Orders {

  ghost predicate StrictWeak<T(!new)>(less: (T, T) -> bool) {
    && (forall a :: !less(a, a))
    && (forall a, b, c :: less(a, b) && less(b, c) ==> less(a, c))
    && (forall a, b, c :: !less(a, b) && !less(b, c) ==> !less(a, c))
  }

  ghost predicate Sorted<T>(s: seq<T>, less: (T, T) -> bool) {
    forall i, j :: 0 <= i < j < |s| ==> !less(s[j], s[i])
  }

  ghost predicate Increasing<T>(s: seq<T>, less: (T, T) -> bool) {
    forall i, j :: 0 <= i < j < |s| ==> less(s[i], s[j])
  }

  ghost predicate Equivalent<T>(a: T, b: T, less: (T, T) -> bool) {
    !less(a, b) && !less(b, a)
  }

  /** Two entries the order cannot tell apart. */
  ghost predicate Twins<T>(s: seq<T>, less: (T, T) -> bool) {
    exists i, j :: 0 <= i < j < |s| && Equivalent(s[i], s[j], less)
  }

  ghost predicate BagTwins<T>(m: multiset<T>, less: (T, T) -> bool) {
    exists a, b :: a in m && b in m && Equivalent(a, b, less) && (a != b || m[a] > 1)
  }

  lemma TwoPlaces<T>(s: seq<T>, i: nat, j: nat)
    requires i < j < |s| && s[i] == s[j]
    ensures multiset(s)[s[i]] > 1
  {
    assert s == s[..j] + s[j..];
    assert multiset(s) == multiset(s[..j]) + multiset(s[j..]);
    assert s[i] == s[..j][i] && s[j] == s[j..][0];
  }

  lemma FindPlaces<T>(s: seq<T>, a: T) returns (i: nat, j: nat)
    requires multiset(s)[a] > 1
    ensures i < j < |s| && s[i] == a && s[j] == a
  {
    i :| 0 <= i < |s| && s[i] == a;
    assert s == s[..i] + [s[i]] + s[i + 1..];
    var rest := s[..i] + s[i + 1..];
    assert multiset(s) == multiset(rest) + multiset{a};
    var k :| 0 <= k < |rest| && rest[k] == a;
    if k < i {
      i, j := k, i;
    } else {
      j := k + 1;
    }
  }

  /** Twins are a matter of which entries there are, not of where they stand. */
  lemma TwinsInBag<T>(s: seq<T>, less: (T, T) -> bool)
    ensures Twins(s, less) <==> BagTwins(multiset(s), less)
  {
    if Twins(s, less) {
      var i, j :| 0 <= i < j < |s| && Equivalent(s[i], s[j], less);
      if s[i] == s[j] {
        TwoPlaces(s, i, j);
      }
      assert s[i] in multiset(s) && s[j] in multiset(s);
    }
    if BagTwins(multiset(s), less) {
      var a, b :| a in multiset(s) && b in multiset(s) && Equivalent(a, b, less) && (a != b || multiset(s)[a] > 1);
      if a == b {
        var i, j := FindPlaces(s, a);
      } else {
        var i :| 0 <= i < |s| && s[i] == a;
        var j :| 0 <= j < |s| && s[j] == b;
        if i < j {
          assert Equivalent(s[i], s[j], less);
        } else {
          assert Equivalent(s[j], s[i], less);
        }
      }
    }
  }

  /** A strictly increasing arrangement of a collection has none, so neither had the collection. */
  lemma IncreasingHasNoTwins<T>(s: seq<T>, t: seq<T>, less: (T, T) -> bool)
    requires Increasing(t, less) && multiset(s) == multiset(t)
    ensures !Twins(s, less)
  {
    TwinsInBag(s, less);
    TwinsInBag(t, less);
  }

  // ----- sorting one run -----

  /** What std::sort promises, by insertion. */
  method SortRun<T(!new)>(run: seq<T>, less: (T, T) -> bool) returns (r: seq<T>)
    requires StrictWeak(less)
    ensures Sorted(r, less) && multiset(r) == multiset(run)
  {
    r := [];
    for i := 0 to |run|
      invariant Sorted(r, less) && multiset(r) == multiset(run[..i])
    {
      r := Insert(r, run[i], less);
      assert run[..i + 1] == run[..i] + [run[i]];
    }
    assert run[..|run|] == run;
  }

  method Insert<T(!new)>(s: seq<T>, x: T, less: (T, T) -> bool) returns (r: seq<T>)
    requires StrictWeak(less) && Sorted(s, less)
    ensures Sorted(r, less) && multiset(r) == multiset(s) + multiset{x}
  {
    var k := |s|;
    while k > 0 && less(x, s[k - 1])
      invariant 0 <= k <= |s|
      invariant forall i :: k <= i < |s| ==> less(x, s[i])
    {
      k := k - 1;
    }
    r := s[..k] + [x] + s[k..];
    assert s == s[..k] + s[k..];
    InsertSorted(s, x, k, less);
  }

  lemma InsertSorted<T(!new)>(s: seq<T>, x: T, k: nat, less: (T, T) -> bool)
    requires StrictWeak(less) && Sorted(s, less) && k <= |s|
    requires k > 0 ==> !less(x, s[k - 1])
    requires forall i :: k <= i < |s| ==> less(x, s[i])
    ensures Sorted(s[..k] + [x] + s[k..], less)
  {
    var r := s[..k] + [x] + s[k..];
    forall i | 0 <= i < k ensures !less(x, s[i]) {
      if i < k - 1 {
        assert !less(x, s[k - 1]) && !less(s[k - 1], s[i]);
      }
    }
    forall i, j | 0 <= i < j < |r| ensures !less(r[j], r[i]) {
      if j < k {
      } else if j == k {
      } else if i == k {
        assert r[j] == s[j - 1];
      } else {
        assert r[j] == s[j - 1] && r[i] == s[if i < k then i else i - 1];
      }
    }
  }

  // ----- merging runs -----

  /** Everything that is left of the runs. */
  ghost function Bag<T>(heap: seq<seq<T>>): multiset<T> {
    if heap == [] then multiset{} else multiset(heap[0]) + Bag(heap[1..])
  }

  lemma {:induction false} BagConcat<T>(a: seq<seq<T>>, b: seq<seq<T>>)
    ensures Bag(a + b) == Bag(a) + Bag(b)
  {
    if a == [] {
      assert a + b == b;
    } else {
      assert (a + b)[1..] == a[1..] + b;
      BagConcat(a[1..], b);
    }
  }

  lemma BagSnoc<T>(heap: seq<seq<T>>, run: seq<T>)
    ensures Bag(heap + [run]) == Bag(heap) + multiset(run)
  {
    BagConcat(heap, [run]);
    assert [run][1..] == [];
  }

  /** Sorted runs with something left in each. */
  ghost predicate Heads<T>(heap: seq<seq<T>>, less: (T, T) -> bool) {
    forall k :: 0 <= k < |heap| ==> heap[k] != [] && Sorted(heap[k], less)
  }
}
