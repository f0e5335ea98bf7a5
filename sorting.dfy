/** `repo_data.sort_by! { |x| -x['pull_count'] }`: in place, by descending count. */
module Sorting {
  import opened RepoScan

  predicate NonIncreasing(es: seq<Entry>) {
    forall i, j :: 0 <= i < j < |es| ==> es[i].pullCount >= es[j].pullCount
  }

  /** The prefix `a[..n]` is in non-increasing order of count. */
  ghost predicate SortedPrefix(a: array<Entry>, n: int)
    requires 0 <= n <= a.Length
    reads a
  {
    forall p, q :: 0 <= p < q < n ==> a[p].pullCount >= a[q].pullCount
  }

  /**
   * Reorders the entries so that counts never increase. Which of two entries with
   * equal counts comes first is left open, as it is for `sort_by!`.
   */
  method SortByCount(a: array<Entry>)
    modifies a
    ensures NonIncreasing(a[..])
    ensures multiset(a[..]) == multiset(old(a[..]))
  {
    var i := 0;
    while i < a.Length
      invariant 0 <= i <= a.Length
      invariant SortedPrefix(a, i)
      invariant multiset(a[..]) == multiset(old(a[..]))
    {
      Insert(a, i);
      i := i + 1;
    }
  }

  /** Moves `a[i]` left past every smaller count, extending the sorted prefix by one. */
  method Insert(a: array<Entry>, i: int)
    requires 0 <= i < a.Length
    requires SortedPrefix(a, i)
    modifies a
    ensures SortedPrefix(a, i + 1)
    ensures multiset(a[..]) == multiset(old(a[..]))
  {
    var j := i;
    while j > 0 && a[j - 1].pullCount < a[j].pullCount
      invariant 0 <= j <= i
      invariant forall p, q :: 0 <= p < q <= i && p != j && q != j ==> a[p].pullCount >= a[q].pullCount
      invariant forall q :: j < q <= i ==> a[j].pullCount >= a[q].pullCount
      invariant multiset(a[..]) == multiset(old(a[..]))
    {
      Swap(a, j - 1, j);
      j := j - 1;
    }
  }

  method Swap(a: array<Entry>, i: int, j: int)
    requires 0 <= i < j < a.Length
    modifies a
    ensures a[i] == old(a[j]) && a[j] == old(a[i])
    ensures forall k :: 0 <= k < a.Length && k != i && k != j ==> a[k] == old(a[k])
    ensures multiset(a[..]) == multiset(old(a[..]))
  {
    a[i], a[j] := a[j], a[i];
  }
}
