/** The Array.prototype operations the import relies on: find, filter, Set-based de-duplication
    and the two-bucket partition of a loop that pushes into one of two arrays. */
module Seqs {

  ghost predicate Distinct<T>(xs: seq<T>) {
    forall i, j :: 0 <= i < j < |xs| ==> xs[i] != xs[j]
  }

  /** Index of the first element satisfying `p`, or `|xs|` when there is none (Array.prototype.find). */
  function FindIndex<T>(xs: seq<T>, p: T -> bool): (i: nat)
    ensures i <= |xs|
    ensures forall k :: 0 <= k < i ==> !p(xs[k])
    ensures i < |xs| ==> p(xs[i])
  {
    if |xs| == 0 then 0
    else if p(xs[0]) then 0
    else 1 + FindIndex(xs[1..], p)
  }

  /** FindIndex is pinned down by its first satisfying position. */
  lemma {:induction false} FindIndexFirst<T>(xs: seq<T>, p: T -> bool, n: nat)
    requires n <= |xs|
    requires forall k :: 0 <= k < n ==> !p(xs[k])
    requires n == |xs| || p(xs[n])
    ensures FindIndex(xs, p) == n
  {
  }

  /** Index of the first occurrence of `x`. */
  function IndexOf<T(==)>(xs: seq<T>, x: T): (i: nat)
    requires x in xs
    ensures i < |xs| && xs[i] == x
    ensures forall k :: 0 <= k < i ==> xs[k] != x
  {
    FindIndex(xs, y => y == x)
  }

  /** Array.prototype.filter: the elements satisfying `p`, in their original order. */
  function Filter<T>(xs: seq<T>, p: T -> bool): (r: seq<T>)
    ensures |r| <= |xs|
    ensures forall i :: 0 <= i < |r| ==> r[i] in xs && p(r[i])
    ensures forall i :: 0 <= i < |xs| && p(xs[i]) ==> xs[i] in r
  {
    if |xs| == 0 then []
    else
      var init, last := xs[..|xs| - 1], xs[|xs| - 1];
      assert xs == init + [last];
      Filter(init, p) + (if p(last) then [last] else [])
  }

  lemma {:induction false} FilterAppend<T>(a: seq<T>, b: seq<T>, p: T -> bool)
    ensures Filter(a + b, p) == Filter(a, p) + Filter(b, p)
    decreases |b|
  {
    if |b| == 0 {
      assert a + b == a;
    } else {
      var b0, last := b[..|b| - 1], b[|b| - 1];
      assert (a + b)[..|a + b| - 1] == a + b0;
      assert b[..|b| - 1] == b0;
      FilterAppend(a, b0, p);
    }
  }

  /** `[...new Set(xs)]`: the distinct elements of `xs` in order of first occurrence. */
  function Dedup<T(==)>(xs: seq<T>): (r: seq<T>)
    ensures forall i :: 0 <= i < |r| ==> r[i] in xs
    ensures forall i :: 0 <= i < |xs| ==> xs[i] in r
    ensures Distinct(r)
  {
    if |xs| == 0 then []
    else
      var init, last := xs[..|xs| - 1], xs[|xs| - 1];
      assert xs == init + [last];
      var d := Dedup(init);
      if last in d then d else d + [last]
  }

  /** An element of a prefix is first found at the same place in the whole sequence. */
  lemma {:induction false} IndexOfInPrefix<T>(init: seq<T>, xs: seq<T>, x: T)
    requires init <= xs && x in init
    ensures IndexOf(xs, x) == IndexOf(init, x)
  {
    var i, j := IndexOf(xs, x), IndexOf(init, x);
    assert xs[j] == x;
    assert i <= j;
    assert init[i] == x;
  }

  /** The elements of `d` occur in `xs` in the order in which `d` lists them. */
  ghost predicate FirstOccurrenceOrdered<T>(xs: seq<T>, d: seq<T>)
  {
    forall a, b :: 0 <= a < b < |d| && d[a] in xs && d[b] in xs ==> IndexOf(xs, d[a]) < IndexOf(xs, d[b])
  }

  /** The elements of `Dedup(xs)` appear in the order of their first occurrence in `xs`. */
  lemma {:induction false} DedupFirstOccurrenceOrder<T>(xs: seq<T>)
    ensures forall a, b :: 0 <= a < b < |Dedup(xs)| ==> IndexOf(xs, Dedup(xs)[a]) < IndexOf(xs, Dedup(xs)[b])
  {
    DedupOrdered(xs);
  }

  lemma {:induction false} DedupOrdered<T>(xs: seq<T>)
    ensures FirstOccurrenceOrdered(xs, Dedup(xs))
  {
    if |xs| > 0 {
      var init, last := xs[..|xs| - 1], xs[|xs| - 1];
      DedupOrdered(init);
      assert xs == init + [last];
      DedupOrderStep(init, last, Dedup(init));
    }
  }

  /** Appending `last` to `init` keeps the first-occurrence order of `Dedup(init)`, extended by
      `last` when it is new. */
  lemma {:induction false} DedupOrderStep<T>(init: seq<T>, last: T, d: seq<T>)
    requires FirstOccurrenceOrdered(init, d)
    requires forall i :: 0 <= i < |d| ==> d[i] in init
    requires last in d <==> last in init
    ensures FirstOccurrenceOrdered(init + [last], if last in d then d else d + [last])
  {
    var xs := init + [last];
    var r := if last in d then d else d + [last];
    forall a, b | 0 <= a < b < |r| && r[a] in xs && r[b] in xs
      ensures IndexOf(xs, r[a]) < IndexOf(xs, r[b])
    {
      assert r[a] == d[a] && d[a] in init;
      IndexOfInPrefix(init, xs, d[a]);
      if b < |d| {
        assert r[b] == d[b] && d[b] in init;
        IndexOfInPrefix(init, xs, d[b]);
      } else {
        assert r[b] == last && last !in init;
        assert xs[|init|] == last;
      }
    }
  }

  /** Number of true entries. */
  function CountTrue(flags: seq<bool>): (n: nat)
    ensures n <= |flags|
  {
    if |flags| == 0 then 0 else CountTrue(flags[..|flags| - 1]) + (if flags[|flags| - 1] then 1 else 0)
  }

  /** The `before`/`after` buckets of a loop that pushes the i-th item into `before` when
      `flags[i]` holds and into `after` otherwise. */
  function Partition<T>(xs: seq<T>, flags: seq<bool>): (r: (seq<T>, seq<T>))
    requires |xs| == |flags|
    ensures |r.0| + |r.1| == |xs|
  {
    if |xs| == 0 then ([], [])
    else
      var n := |xs| - 1;
      assert xs == xs[..n] + [xs[n]];
      var p := Partition(xs[..n], flags[..n]);
      if flags[n] then (p.0 + [xs[n]], p.1) else (p.0, p.1 + [xs[n]])
  }

  /** The two buckets together hold exactly the items: nothing is lost, duplicated or added. */
  lemma {:induction false} PartitionIsPermutation<T>(xs: seq<T>, flags: seq<bool>)
    requires |xs| == |flags|
    ensures multiset(Partition(xs, flags).0) + multiset(Partition(xs, flags).1) == multiset(xs)
  {
    if |xs| > 0 {
      var n := |xs| - 1;
      var p := Partition(xs[..n], flags[..n]);
      PartitionIsPermutation(xs[..n], flags[..n]);
      assert xs == xs[..n] + [xs[n]];
      assert multiset(xs) == multiset(xs[..n]) + multiset{xs[n]};
      if flags[n] {
        assert Partition(xs, flags) == (p.0 + [xs[n]], p.1);
        assert multiset(p.0 + [xs[n]]) == multiset(p.0) + multiset{xs[n]};
      } else {
        assert Partition(xs, flags) == (p.0, p.1 + [xs[n]]);
        assert multiset(p.1 + [xs[n]]) == multiset(p.1) + multiset{xs[n]};
      }
    }
  }

  lemma {:induction false} PartitionBeforeSize<T>(xs: seq<T>, flags: seq<bool>)
    requires |xs| == |flags|
    ensures |Partition(xs, flags).0| == CountTrue(flags)
  {
    if |xs| > 0 {
      var n := |xs| - 1;
      PartitionBeforeSize(xs[..n], flags[..n]);
    }
  }

  /** Every item lands in exactly the bucket its flag selects, at the position given by the number
      of earlier items with the same flag: relative order is kept within each bucket. */
  lemma {:induction false} PartitionPlacement<T>(xs: seq<T>, flags: seq<bool>, i: nat)
    requires |xs| == |flags| && i < |xs|
    ensures flags[i] ==> CountTrue(flags[..i]) < |Partition(xs, flags).0|
                         && Partition(xs, flags).0[CountTrue(flags[..i])] == xs[i]
    ensures !flags[i] ==> i - CountTrue(flags[..i]) < |Partition(xs, flags).1|
                          && Partition(xs, flags).1[i - CountTrue(flags[..i])] == xs[i]
    decreases |xs|
  {
    var n := |xs| - 1;
    var p := Partition(xs[..n], flags[..n]);
    PartitionBeforeSize(xs[..n], flags[..n]);
    if i < n {
      PartitionPlacement(xs[..n], flags[..n], i);
      assert flags[..n][..i] == flags[..i];
      assert xs[..n][i] == xs[i];
      PartitionKeepsPrefix(xs, flags);
    } else {
      assert flags[..i] == flags[..n];
      assert Partition(xs, flags) == if flags[n] then (p.0 + [xs[n]], p.1) else (p.0, p.1 + [xs[n]]);
    }
  }

  /** Partitioning one more item extends one bucket and leaves the existing entries alone. */
  lemma {:induction false} PartitionKeepsPrefix<T>(xs: seq<T>, flags: seq<bool>)
    requires |xs| == |flags| && |xs| > 0
    ensures var n := |xs| - 1;
            var p := Partition(xs[..n], flags[..n]);
            var r := Partition(xs, flags);
            p.0 <= r.0 && p.1 <= r.1
  {
    var n := |xs| - 1;
    var p := Partition(xs[..n], flags[..n]);
    if flags[n] {
      assert Partition(xs, flags) == (p.0 + [xs[n]], p.1);
    } else {
      assert Partition(xs, flags) == (p.0, p.1 + [xs[n]]);
    }
  }
}
