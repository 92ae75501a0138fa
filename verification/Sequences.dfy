/** Filtering, truncation and first-occurrence deduplication of sequences. */
module Sequences {

  ghost predicate NoDuplicates<T>(s: seq<T>) {
    forall i, j :: 0 <= i < j < |s| ==> s[i] != s[j]
  }

  function Take<T>(s: seq<T>, n: nat): seq<T> {
    if |s| <= n then s else s[..n]
  }

  function Filter<T>(s: seq<T>, keep: T -> bool): seq<T> {
    if s == [] then []
    else Filter(s[..|s| - 1], keep) + (if keep(s[|s| - 1]) then [s[|s| - 1]] else [])
  }

  lemma {:induction false} FilterMembers<T(!new)>(s: seq<T>, keep: T -> bool)
    ensures forall x :: x in Filter(s, keep) <==> x in s && keep(x)
    ensures |Filter(s, keep)| <= |s|
  {
    if s != [] {
      FilterMembers(s[..|s| - 1], keep);
      assert s == s[..|s| - 1] + [s[|s| - 1]];
    }
  }

  lemma FilterAppend<T>(s: seq<T>, x: T, keep: T -> bool)
    ensures Filter(s + [x], keep) == Filter(s, keep) + (if keep(x) then [x] else [])
  {
    assert (s + [x])[..|s|] == s;
  }

  lemma {:induction false} FilterConcat<T>(a: seq<T>, b: seq<T>, keep: T -> bool)
    ensures Filter(a + b, keep) == Filter(a, keep) + Filter(b, keep)
  {
    if b == [] {
      assert a + b == a;
    } else {
      var init := b[..|b| - 1];
      assert a + b == (a + init) + [b[|b| - 1]];
      assert b == init + [b[|b| - 1]];
      FilterAppend(a + init, b[|b| - 1], keep);
      FilterConcat(a, init, keep);
    }
  }

  /** Filtering twice is filtering once by the stronger test. */
  lemma {:induction false} FilterTwice<T(!new)>(s: seq<T>, weak: T -> bool, strong: T -> bool)
    requires forall x :: x in s && strong(x) ==> weak(x)
    ensures Filter(Filter(s, weak), strong) == Filter(s, strong)
  {
    if s != [] {
      var init, last := s[..|s| - 1], s[|s| - 1];
      assert s == init + [last] && last in s;
      FilterTwice(init, weak, strong);
      var kept := Filter(init, weak);
      if weak(last) {
        FilterAppend(kept, last, strong);
      } else {
        assert kept + [] == kept;
      }
    }
  }

  /** Appends `x` unless it is already present: one push-if-absent step of a loop. */
  function AddNew<T(==)>(acc: seq<T>, x: T): seq<T> {
    if x in acc then acc else acc + [x]
  }

  function AddAllNew<T(==)>(acc: seq<T>, xs: seq<T>): seq<T> {
    if xs == [] then acc else AddNew(AddAllNew(acc, xs[..|xs| - 1]), xs[|xs| - 1])
  }

  /** The distinct elements of `xs` in order of first occurrence. */
  function Dedup<T(==)>(xs: seq<T>): seq<T> {
    AddAllNew([], xs)
  }

  lemma AddAllNewAppend<T>(acc: seq<T>, xs: seq<T>, x: T)
    ensures AddAllNew(acc, xs + [x]) == AddNew(AddAllNew(acc, xs), x)
  {
    assert (xs + [x])[..|xs|] == xs;
  }

  lemma {:induction false} AddAllNewConcat<T>(acc: seq<T>, a: seq<T>, b: seq<T>)
    ensures AddAllNew(acc, a + b) == AddAllNew(AddAllNew(acc, a), b)
  {
    if b == [] {
      assert a + b == a;
    } else {
      var init, last := b[..|b| - 1], b[|b| - 1];
      assert a + b == (a + init) + [last];
      AddAllNewAppend(acc, a + init, last);
      AddAllNewConcat(acc, a, init);
    }
  }

  /** `r[i]` is met in `xs` strictly before `r[j]` is met for the first time, whenever i < j. */
  ghost predicate FirstOccurrenceOrder<T(!new)>(xs: seq<T>, r: seq<T>) {
    forall i, j :: 0 <= i < j < |r| ==>
      exists a :: 0 <= a < |xs| && xs[a] == r[i] && r[j] !in xs[..a + 1]
  }

  /** Deduplication keeps exactly the elements, each once, ordered by first occurrence. */
  lemma {:induction false} DedupMeaning<T(!new)>(xs: seq<T>)
    ensures NoDuplicates(Dedup(xs))
    ensures forall x :: x in Dedup(xs) <==> x in xs
    ensures FirstOccurrenceOrder(xs, Dedup(xs))
  {
    if xs != [] {
      var init, last := xs[..|xs| - 1], xs[|xs| - 1];
      DedupMeaning(init);
      assert xs == init + [last];
      var r := Dedup(xs);
      forall i, j | 0 <= i < j < |r|
        ensures exists a :: 0 <= a < |xs| && xs[a] == r[i] && r[j] !in xs[..a + 1]
      {
        if j < |Dedup(init)| {
          var a :| 0 <= a < |init| && init[a] == r[i] && r[j] !in init[..a + 1];
          assert xs[..a + 1] == init[..a + 1];
          assert xs[a] == r[i];
        } else {
          assert r[j] == last && last !in init && r[i] in init;
          var a :| 0 <= a < |init| && init[a] == r[i];
          assert xs[..a + 1] == init[..a + 1];
          assert forall x :: x in init[..a + 1] ==> x in init;
          assert xs[a] == r[i];
        }
      }
    }
  }

  /** A duplicate-free sequence over a finite set is no longer than the set. */
  lemma {:induction false} Pigeonhole<T>(s: seq<T>, universe: set<T>)
    requires NoDuplicates(s)
    requires forall x :: x in s ==> x in universe
    ensures |s| <= |universe|
  {
    if s != [] {
      var init, last := s[..|s| - 1], s[|s| - 1];
      assert forall x :: x in init ==> x in s;
      assert last !in init;
      Pigeonhole(init, universe - {last});
    }
  }

  /** Permutation: the same elements with the same multiplicities. */
  ghost predicate Permutation<T>(a: seq<T>, b: seq<T>) {
    multiset(a) == multiset(b)
  }
}
