/**
 The sequential part of the parallel sort: merging two sorted halves of an array into a buffer.
 */
module ParSortMerge {

  predicate Sorted(s: seq<int>) {
    forall i, j | 0 <= i <= j < |s| :: s[i] <= s[j]
  }

  /** The comparison function given to qsort. */
  function CompareI64(left: int, right: int): (cmp: int)
    ensures cmp <= 0 <==> left <= right
    ensures cmp == 0 <==> left == right
  {
    if left < right then -1 else if left > right then 1 else 0
  }

  /** The merge of two sequences, taking from the left one while it is not greater. */
  function Merged(a: seq<int>, b: seq<int>): (s: seq<int>)
    ensures |s| == |a| + |b|
    decreases |a| + |b|
  {
    if a == [] then b
    else if b == [] then a
    else if a[0] <= b[0] then [a[0]] + Merged(a[1..], b)
    else [b[0]] + Merged(a, b[1..])
  }

  lemma FirstAndRest(s: seq<int>)
    requires s != []
    ensures multiset(s) == multiset{s[0]} + multiset(s[1..])
  {
    assert s == [s[0]] + s[1..];
  }

  lemma {:induction false} MergedContents(a: seq<int>, b: seq<int>)
    ensures multiset(Merged(a, b)) == multiset(a) + multiset(b)
    decreases |a| + |b|
  {
    if a != [] && b != [] {
      var s := Merged(a, b);
      FirstAndRest(s);
      if a[0] <= b[0] {
        assert s[1..] == Merged(a[1..], b);
        MergedContents(a[1..], b);
        FirstAndRest(a);
      } else {
        assert s[1..] == Merged(a, b[1..]);
        MergedContents(a, b[1..]);
        FirstAndRest(b);
      }
    }
  }

  predicate AllAbove(s: seq<int>, x: int) {
    forall i | 0 <= i < |s| :: x <= s[i]
  }

  lemma SortedCons(x: int, s: seq<int>)
    requires Sorted(s) && AllAbove(s, x)
    ensures Sorted([x] + s)
  {
  }

  lemma {:induction false} MergedAbove(a: seq<int>, b: seq<int>, x: int)
    requires AllAbove(a, x) && AllAbove(b, x)
    ensures AllAbove(Merged(a, b), x)
    decreases |a| + |b|
  {
    if a != [] && b != [] {
      if a[0] <= b[0] {
        MergedAbove(a[1..], b, x);
      } else {
        MergedAbove(a, b[1..], x);
      }
    }
  }

  lemma {:induction false} MergedSorted(a: seq<int>, b: seq<int>)
    requires Sorted(a) && Sorted(b)
    ensures Sorted(Merged(a, b))
    decreases |a| + |b|
  {
    if a != [] && b != [] {
      if a[0] <= b[0] {
        MergedSorted(a[1..], b);
        MergedAbove(a[1..], b, a[0]);
        SortedCons(a[0], Merged(a[1..], b));
      } else {
        MergedSorted(a, b[1..]);
        MergedAbove(a, b[1..], b[0]);
        SortedCons(b[0], Merged(a, b[1..]));
      }
    }
  }

  /** What one round of the merge loop moves to the buffer. */
  lemma MergeRound(s: seq<int>, left: nat, mid: nat, right: nat, end: nat)
    requires left <= mid <= right <= end <= |s| && (left < mid || right < end)
    ensures Merged(s[left..mid], s[right..end])
         == if left < mid && (right == end || CompareI64(s[left], s[right]) <= 0)
            then [s[left]] + Merged(s[left + 1..mid], s[right..end])
            else [s[right]] + Merged(s[left..mid], s[right + 1..end])
  {
    if left < mid {
      assert s[left..mid][1..] == s[left + 1..mid];
      assert s[left..mid] == [s[left]] + s[left + 1..mid];
    }
    if right < end {
      assert s[right..end][1..] == s[right + 1..end];
      assert s[right..end] == [s[right]] + s[right + 1..end];
    }
  }

  lemma NothingLeft(a: seq<int>, b: seq<int>)
    requires a == [] && b == []
    ensures Merged(a, b) == []
  {
  }

  method Merge(arr: array<int>, begin: nat, mid: nat, end: nat, temparr: array<int>)
    requires begin <= mid <= end <= arr.Length && temparr != arr && temparr.Length >= end - begin
    modifies temparr
    ensures temparr[..end - begin] == Merged(arr[begin..mid], arr[mid..end])
    ensures temparr[end - begin..] == old(temparr[end - begin..])
  {
    hide Merged, CompareI64;
    var left, right, dst := begin, mid, 0;
    ghost var whole := Merged(arr[begin..mid], arr[mid..end]);
    while true
      invariant begin <= left <= mid <= right <= end && dst == (left - begin) + (right - mid)
      invariant temparr[..dst] + Merged(arr[left..mid], arr[right..end]) == whole
      invariant temparr[end - begin..] == old(temparr[end - begin..])
      decreases (mid - left) + (end - right)
    {
      var atEndL := left >= mid;
      var atEndR := right >= end;
      if atEndL && atEndR {
        NothingLeft(arr[left..mid], arr[right..end]);
        break;
      }
      MergeRound(arr[..], left, mid, right, end);
      ghost var done := temparr[..dst];
      if atEndL {
        temparr[dst] := arr[right];
        right := right + 1;
      } else if atEndR {
        temparr[dst] := arr[left];
        left := left + 1;
      } else {
        var cmp := CompareI64(arr[left], arr[right]);
        if cmp <= 0 {
          temparr[dst] := arr[left];
          left := left + 1;
        } else {
          temparr[dst] := arr[right];
          right := right + 1;
        }
      }
      dst := dst + 1;
      assert temparr[..dst] == done + [temparr[dst - 1]];
    }
  }

  /** The loop that copies the merged buffer back. */
  method CopyBack(arr: array<int>, begin: nat, end: nat, temp: array<int>)
    requires begin <= end <= arr.Length && temp != arr && temp.Length == end - begin
    modifies arr
    ensures arr[..] == old(arr[..begin]) + temp[..] + old(arr[end..])
  {
    for i := 0 to end - begin
      invariant arr[..] == old(arr[..begin]) + temp[..i] + old(arr[begin + i..])
    {
      arr[begin + i] := temp[i];
    }
  }
}
