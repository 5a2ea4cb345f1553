/** The summary step after evaluation: sort the episode peaks in place and take
    their median. */
module Statistics {
  import opened Outcomes
  import opened Grid

  ghost predicate Sorted(s: seq<int>) {
    forall i, j :: 0 <= i < j < |s| ==> s[i] <= s[j]
  }

  /** List<int>.Sort(): ascending order, same elements. */
  method Sort(a: array<int>)
    modifies a
    ensures Sorted(a[..])
    ensures multiset(a[..]) == old(multiset(a[..]))
  {
    var i := 0;
    while i < a.Length
      invariant 0 <= i <= a.Length
      invariant forall p, q :: 0 <= p < q < i ==> a[p] <= a[q]
      invariant multiset(a[..]) == old(multiset(a[..]))
    {
      var j := i;
      while j > 0 && a[j - 1] > a[j]
        invariant 0 <= j <= i
        invariant forall p, q :: 0 <= p < q <= i && p != j && q != j ==> a[p] <= a[q]
        invariant forall q :: j < q <= i ==> a[j] < a[q]
        invariant multiset(a[..]) == old(multiset(a[..]))
      {
        Swap(a, j - 1, j);
        j := j - 1;
      }
      i := i + 1;
    }
  }

  /** Exchanges two elements, keeping the multiset of the array. */
  method Swap(a: array<int>, i: int, j: int)
    requires 0 <= i < a.Length && 0 <= j < a.Length
    modifies a
    ensures a[..] == old(a[..])[i := old(a[j])][j := old(a[i])]
    ensures multiset(a[..]) == old(multiset(a[..]))
  {
    a[i], a[j] := a[j], a[i];
  }

  lemma SortedTail(a: seq<int>)
    requires Sorted(a) && a != []
    ensures Sorted(a[1..])
  {
    forall i, j | 0 <= i < j < |a| - 1
      ensures a[1..][i] <= a[1..][j]
    {
      assert a[1..][i] == a[i + 1] && a[1..][j] == a[j + 1];
    }
  }

  lemma TailMultiset(a: seq<int>)
    requires a != []
    ensures multiset(a[1..]) == multiset(a) - multiset{a[0]}
  {
    assert a == [a[0]] + a[1..];
  }

  /** Two sorted sequences with the same elements start with the same element. */
  lemma SameHead(a: seq<int>, b: seq<int>)
    requires Sorted(a) && Sorted(b) && multiset(a) == multiset(b) && a != []
    ensures b != [] && a[0] == b[0]
  {
    assert a[0] in multiset(b) && b[0] in multiset(a);
    var i :| 0 <= i < |b| && b[i] == a[0];
    var j :| 0 <= j < |a| && a[j] == b[0];
    assert b[0] <= b[i] && a[0] <= a[j];
  }

  /** Two sorted sequences with the same elements are equal. */
  lemma {:induction false} SortedUnique(a: seq<int>, b: seq<int>)
    requires Sorted(a) && Sorted(b) && multiset(a) == multiset(b)
    ensures a == b
    decreases |a|
  {
    if a == [] {
      assert |b| == |multiset(b)| == 0;
    } else {
      SameHead(a, b);
      TailMultiset(a);
      TailMultiset(b);
      SortedTail(a);
      SortedTail(b);
      SortedUnique(a[1..], b[1..]);
      assert a == [a[0]] + a[1..] && b == [b[0]] + b[1..];
    }
  }

  /** The median of an ascending list: the middle element, or the mean of the
      two middle elements (their sum taken in 32-bit arithmetic). The empty
      list indexes element -1. */
  function MedianOfSorted(s: seq<int>): (r: Result<real>)
    ensures r.Failure? <==> s == []
    ensures r.Failure? ==> r.error == IndexOutOfRange
  {
    var n := |s|;
    if n % 2 == 0 then
      if n == 0 then Failure(IndexOutOfRange)
      else Success(Wrap32(s[n / 2 - 1] + s[n / 2]) as real / 2.0)
    else Success(s[n / 2] as real)
  }

  /** The median lies between the extremes, is at least every element of the
      lower half and at most every element of the upper half. */
  lemma MedianSplits(s: seq<int>)
    requires Sorted(s) && s != []
    requires forall i :: 0 <= i < |s| ==> -0x4000_0000 <= s[i] < 0x4000_0000
    ensures var r := MedianOfSorted(s).value;
            && s[0] as real <= r <= s[|s| - 1] as real
            && (forall i :: 0 <= i < |s| && 2 * i <= |s| - 1 ==> s[i] as real <= r)
            && (forall i :: 0 <= i < |s| && 2 * i >= |s| - 1 ==> s[i] as real >= r)
  {
    var n := |s|;
    if n % 2 == 0 {
      assert s[n / 2 - 1] <= s[n / 2];
    }
  }

  /** Main's summary: sort the samples in place, then take the median. */
  method Median(samples: array<int>) returns (r: Result<real>)
    modifies samples
    ensures Sorted(samples[..]) && multiset(samples[..]) == old(multiset(samples[..]))
    ensures r == MedianOfSorted(samples[..])
  {
    Sort(samples);
    var n := samples.Length;
    if n % 2 == 0 {
      if n == 0 {
        r := Failure(IndexOutOfRange);
      } else {
        r := Success(Wrap32(samples[n / 2 - 1] + samples[n / 2]) as real / 2.0);
      }
    } else {
      r := Success(samples[n / 2] as real);
    }
  }

  /** The median depends only on which samples there are, not their order. */
  lemma MedianOfPermutation(s: seq<int>, t: seq<int>)
    requires Sorted(s) && Sorted(t) && multiset(s) == multiset(t)
    ensures MedianOfSorted(s) == MedianOfSorted(t)
  {
    SortedUnique(s, t);
  }

  /** The samples of an example, given in the order they came, and sorted. */
  lemma SameSamples(s: seq<int>, given: seq<int>, sorted: seq<int>)
    requires Sorted(s) && multiset(s) == multiset(given)
    requires Sorted(sorted) && multiset(given) == multiset(sorted)
    ensures s == sorted
  {
    SortedUnique(s, sorted);
  }

  lemma MedianEvenExample(s: seq<int>)
    requires Sorted(s) && multiset(s) == multiset([7, 3, 9, 1])
    ensures MedianOfSorted(s) == Success(5.0)
  {
    assert Sorted([1, 3, 7, 9]) && multiset([7, 3, 9, 1]) == multiset([1, 3, 7, 9]);
    SameSamples(s, [7, 3, 9, 1], [1, 3, 7, 9]);
  }

  lemma MedianOddExample(s: seq<int>)
    requires Sorted(s) && multiset(s) == multiset([4, 1, 3])
    ensures MedianOfSorted(s) == Success(3.0)
  {
    assert Sorted([1, 3, 4]) && multiset([4, 1, 3]) == multiset([1, 3, 4]);
    SameSamples(s, [4, 1, 3], [1, 3, 4]);
  }

  lemma MedianOfNothing(s: seq<int>)
    requires multiset(s) == multiset{}
    ensures MedianOfSorted(s) == Failure(IndexOutOfRange)
  {
    assert |s| == |multiset(s)|;
  }
}
