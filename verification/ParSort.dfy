/**
 The process tree of the parallel merge sort, as a transition system.

 Every call of merge_sort runs in a process of its own over the shared mapping; a step is one
 action of one process, and a run takes steps of any processes in any order.  fork and waitpid
 may fail and a process may crash at any time.  While qsort runs it may write anything into
 the cells it was given; when it returns they hold a sorted permutation of what they held.
 */
module ParSort {
  import opened ParSortMerge

  datatype Status = Exit(code: nat) | Crashed

  datatype Pc =
    | Entered
    | Sorting
    | ForkLeft
    | ForkRight
    | WaitLeft
    | WaitRight
    | Merging(i: nat, j: nat, temp: seq<int>)
    | Copying(k: nat, temp: seq<int>)
    | Ended(status: Status)

  /** A process and the children it forked; orig is what its cells held when it was forked. */
  datatype Proc = Proc(lo: nat, hi: nat, orig: seq<int>, pc: Pc, left: Kid, right: Kid)

  datatype Kid = NoKid | Kid(proc: Proc)

  const SUCCESS := Ended(Exit(0))

  function Mid(p: Proc): (mid: nat) {
    (p.hi + p.lo) / 2
  }

  function Forked(lo: nat, hi: nat, m: seq<int>): (kid: Kid)
    requires lo <= hi <= |m|
  {
    Kid(Proc(lo, hi, m[lo..hi], Entered, NoKid, NoKid))
  }

  // ----- steps

  /** What a process does next when nothing fails in it; m is the shared array. */
  ghost predicate Works(t: nat, p: Proc, m: seq<int>, p': Proc, m': seq<int>)
    requires p.lo <= p.hi <= |m|
  {
    var size := p.hi - p.lo;
    match p.pc
    case Entered =>
      m' == m && p' == p.(pc := if size <= t then Sorting else if p.hi > p.lo then ForkLeft else SUCCESS)
    case Sorting =>
      || QsortWrites(p, m, p', m')
      || (m' == m && p' == p.(pc := SUCCESS) && IsSortOf(m[p.lo..p.hi], p.orig))
    case ForkLeft =>
      m' == m && p' == p.(left := Forked(p.lo, Mid(p), m), pc := ForkRight)
    case ForkRight =>
      m' == m && p' == p.(right := Forked(p.lo + size / 2, p.hi, m), pc := WaitLeft)
    case WaitLeft =>
      && m' == m && p.left.Kid? && p.left.proc.pc.Ended?
      && p' == p.(pc := if p.left.proc.pc == SUCCESS then WaitRight
                        else Ended(Exit(if p.left.proc.pc.status.Crashed? then 253 else 252)))
    case WaitRight =>
      && m' == m && p.right.Kid? && p.right.proc.pc.Ended?
      && p' == p.(pc := if p.right.proc.pc == SUCCESS then Merging(p.lo, Mid(p), [])
                        else Ended(Exit(if p.right.proc.pc.status.Crashed? then 3 else 4)))
    case Merging(i, j, temp) =>
      && m' == m && p.lo <= i <= Mid(p) <= j <= p.hi
      && p' == p.(pc := MergeNext(p, m, i, j, temp))
    case Copying(k, temp) =>
      && |temp| == size && k <= size
      && (if k < size then m' == m[p.lo + k := temp[k]] && p' == p.(pc := Copying(k + 1, temp))
          else m' == m && p' == p.(pc := SUCCESS))
    case Ended(_) => false
  }

  ghost predicate IsSortOf(s: seq<int>, orig: seq<int>) {
    Sorted(s) && multiset(s) == multiset(orig)
  }

  /** qsort rearranges its own cells, with anything in them on the way. */
  predicate QsortWrites(p: Proc, m: seq<int>, p': Proc, m': seq<int>)
    requires p.lo <= p.hi <= |m|
  {
    p' == p && SameOutside(m, m', p.lo, p.hi)
  }

  predicate SameOutside(m: seq<int>, m': seq<int>, lo: nat, hi: nat)
    requires lo <= hi <= |m|
  {
    |m'| == |m| && m'[..lo] == m[..lo] && m'[hi..] == m[hi..]
  }

  /** One round of the merge loop. */
  function MergeNext(p: Proc, m: seq<int>, i: nat, j: nat, temp: seq<int>): (pc: Pc)
    requires p.lo <= i <= Mid(p) <= j <= p.hi <= |m|
  {
    if i == Mid(p) && j == p.hi then Copying(0, temp)
    else if i < Mid(p) && (j == p.hi || CompareI64(m[i], m[j]) <= 0) then Merging(i + 1, j, temp + [m[i]])
    else Merging(i, j + 1, temp + [m[j]])
  }

  /** A crash, or the exit after a failed fork or waitpid. */
  predicate Fails(p: Proc, p': Proc) {
    && !p.pc.Ended?
    && (|| p' == p.(pc := Ended(Crashed))
        || (p.pc == ForkLeft && p' == p.(pc := Ended(Exit(255))))
        || (p.pc == ForkRight && p' == p.(pc := Ended(Exit(1))))
        || (p.pc == WaitLeft && p' == p.(pc := Ended(Exit(254))))
        || (p.pc == WaitRight && p' == p.(pc := Ended(Exit(2)))))
  }

  /** One step of one process of the tree. */
  ghost predicate Step(t: nat, p: Proc, m: seq<int>, p': Proc, m': seq<int>) {
    || (p.lo <= p.hi <= |m| && Works(t, p, m, p', m'))
    || (Fails(p, p') && m' == m)
    || (p.left.Kid? && p'.left.Kid? && p' == p.(left := p'.left)
        && Step(t, p.left.proc, m, p'.left.proc, m'))
    || (p.right.Kid? && p'.right.Kid? && p' == p.(right := p'.right)
        && Step(t, p.right.proc, m, p'.right.proc, m'))
  }

  // ----- the invariant

  /** The process and all its descendants have ended successfully. */
  predicate AllDone(p: Proc) {
    && p.pc == SUCCESS
    && (p.left.Kid? ==> AllDone(p.left.proc))
    && (p.right.Kid? ==> AllDone(p.right.proc))
  }

  predicate KidsDone(p: Proc) {
    (p.left.Kid? ==> AllDone(p.left.proc)) && (p.right.Kid? ==> AllDone(p.right.proc))
  }

  predicate KidsForked(p: Proc, left: bool, right: bool) {
    p.left.Kid? == left && p.right.Kid? == right
  }

  /** The kids work on the two halves of what their parent was given. */
  ghost predicate KidsInv(t: nat, p: Proc, m: seq<int>)
    decreases p, 0
  {
    && |p.orig| == p.hi - p.lo && p.lo <= p.hi
    && (p.left.Kid? ==>
          var l := p.left.proc;
          l.lo == p.lo && l.hi == Mid(p) && l.orig == p.orig[..Mid(p) - p.lo] && Inv(t, l, m))
    && (p.right.Kid? ==>
          var r := p.right.proc;
          r.lo == Mid(p) && r.hi == p.hi && r.orig == p.orig[Mid(p) - p.lo..] && Inv(t, r, m))
  }

  ghost predicate Inv(t: nat, p: Proc, m: seq<int>)
    decreases p, 1
  {
    && p.lo <= p.hi <= |m| && |p.orig| == p.hi - p.lo
    && match p.pc
       case Entered => KidsForked(p, false, false) && m[p.lo..p.hi] == p.orig
       case Sorting => KidsForked(p, false, false)
       case ForkLeft => KidsForked(p, false, false) && m[p.lo..p.hi] == p.orig
       case ForkRight =>
         KidsForked(p, true, false) && KidsInv(t, p, m) && m[Mid(p)..p.hi] == p.orig[Mid(p) - p.lo..]
       case WaitLeft => KidsForked(p, true, true) && KidsInv(t, p, m)
       case WaitRight => KidsForked(p, true, true) && KidsInv(t, p, m) && p.left.proc.pc == SUCCESS
       case Merging(i, j, temp) =>
         && KidsDone(p)
         && p.lo <= i <= Mid(p) <= j <= p.hi
         && IsSortOf(temp + Merged(m[i..Mid(p)], m[j..p.hi]), p.orig)
       case Copying(k, temp) =>
         && KidsDone(p)
         && |temp| == p.hi - p.lo && k <= |temp| && IsSortOf(temp, p.orig)
         && m[p.lo..p.lo + k] == temp[..k]
       case Ended(status) =>
         if status == Exit(0) then KidsDone(p) && IsSortOf(m[p.lo..p.hi], p.orig)
         else KidsDone(p) || KidsInv(t, p, m)
  }

  ghost predicate SameWithin(m: seq<int>, m': seq<int>, lo: nat, hi: nat) {
    hi <= |m| == |m'| && forall i | lo <= i < hi :: m'[i] == m[i]
  }

  lemma SameSlice(m: seq<int>, m': seq<int>, lo: nat, hi: nat)
    requires SameWithin(m, m', lo, hi) && lo <= hi
    ensures forall a, b | lo <= a <= b <= hi :: m'[a..b] == m[a..b]
  {
  }

  /** Only the cells of a process matter to it and its descendants. */
  lemma {:induction false} InvFrame(t: nat, p: Proc, m: seq<int>, m': seq<int>)
    requires Inv(t, p, m) && SameWithin(m, m', p.lo, p.hi)
    ensures Inv(t, p, m')
    decreases p, 1
  {
    hide KidsInv, IsSortOf, Merged;
    SameSlice(m, m', p.lo, p.hi);
    if KidsInv(t, p, m) {
      KidsFrame(t, p, m, m');
    }
  }

  lemma {:induction false} KidsFrame(t: nat, p: Proc, m: seq<int>, m': seq<int>)
    requires KidsInv(t, p, m) && SameWithin(m, m', p.lo, p.hi)
    ensures KidsInv(t, p, m')
    decreases p, 0
  {
    if p.left.Kid? { InvFrame(t, p.left.proc, m, m'); }
    if p.right.Kid? { InvFrame(t, p.right.proc, m, m'); }
  }

  lemma {:induction false} DoneTakesNoStep(t: nat, p: Proc, m: seq<int>, p': Proc, m': seq<int>)
    requires AllDone(p)
    ensures !Step(t, p, m, p', m')
    decreases p
  {
    if p.left.Kid? && p'.left.Kid? { DoneTakesNoStep(t, p.left.proc, m, p'.left.proc, m'); }
    if p.right.Kid? && p'.right.Kid? { DoneTakesNoStep(t, p.right.proc, m, p'.right.proc, m'); }
  }

  lemma SuccessIsAllDone(t: nat, p: Proc, m: seq<int>)
    requires Inv(t, p, m) && p.pc == SUCCESS
    ensures AllDone(p)
  {
  }

  // ----- every step keeps the invariant

  lemma BothHalves(a: seq<int>, b: seq<int>, orig: seq<int>, n: nat)
    requires n <= |orig| && IsSortOf(a, orig[..n]) && IsSortOf(b, orig[n..])
    ensures IsSortOf(Merged(a, b), orig)
  {
    MergedSorted(a, b);
    MergedContents(a, b);
    assert orig == orig[..n] + orig[n..];
  }

  /** A step of the process itself that neither writes nor forks. */
  lemma MergingKeepsInv(p: Proc, m: seq<int>, i: nat, j: nat, temp: seq<int>)
    requires p.lo <= i <= Mid(p) <= j <= p.hi <= |m| && |p.orig| == p.hi - p.lo
    requires IsSortOf(temp + Merged(m[i..Mid(p)], m[j..p.hi]), p.orig)
    ensures match MergeNext(p, m, i, j, temp)
            case Merging(i', j', temp') =>
              && p.lo <= i' <= Mid(p) <= j' <= p.hi
              && IsSortOf(temp' + Merged(m[i'..Mid(p)], m[j'..p.hi]), p.orig)
            case Copying(k, temp') => k == 0 && |temp'| == |p.orig| && IsSortOf(temp', p.orig)
            case _ => false
  {
    hide Merged, Sorted, CompareI64;
    if i == Mid(p) && j == p.hi {
      NothingLeft(m[i..Mid(p)], m[j..p.hi]);
      assert temp + [] == temp;
      assert |multiset(temp)| == |multiset(p.orig)|;
    } else {
      MergeRound(m, i, Mid(p), j, p.hi);
      if i < Mid(p) && (j == p.hi || CompareI64(m[i], m[j]) <= 0) {
        assert temp + ([m[i]] + Merged(m[i + 1..Mid(p)], m[j..p.hi]))
            == temp + [m[i]] + Merged(m[i + 1..Mid(p)], m[j..p.hi]);
      } else {
        assert temp + ([m[j]] + Merged(m[i..Mid(p)], m[j + 1..p.hi]))
            == temp + [m[j]] + Merged(m[i..Mid(p)], m[j + 1..p.hi]);
      }
    }
  }

  lemma CopyingKeepsInv(p: Proc, m: seq<int>, k: nat, temp: seq<int>)
    requires p.lo <= p.hi <= |m| && |temp| == p.hi - p.lo && k <= |temp|
    requires m[p.lo..p.lo + k] == temp[..k]
    ensures k < |temp| ==> var m' := m[p.lo + k := temp[k]];
              m'[p.lo..p.lo + k + 1] == temp[..k + 1] && SameOutside(m, m', p.lo, p.hi)
    ensures k == |temp| ==> m[p.lo..p.hi] == temp
  {
    if k < |temp| {
      var m' := m[p.lo + k := temp[k]];
      assert m'[p.lo..p.lo + k + 1] == m[p.lo..p.lo + k] + [temp[k]];
    }
  }

  lemma KidsInvOfSame(t: nat, p: Proc, p': Proc, m: seq<int>)
    requires KidsInv(t, p, m) && p' == p.(pc := p'.pc)
    ensures KidsInv(t, p', m)
  {
  }

  lemma ForkedInv(t: nat, lo: nat, hi: nat, m: seq<int>)
    requires lo <= hi <= |m|
    ensures Inv(t, Forked(lo, hi, m).proc, m)
  {
  }

  /** Both children have succeeded: their halves are sorted and nothing below them is alive. */
  lemma BothSucceeded(t: nat, p: Proc, m: seq<int>)
    requires KidsForked(p, true, true) && KidsInv(t, p, m) && p.hi <= |m|
    requires p.left.proc.pc == SUCCESS && p.right.proc.pc == SUCCESS
    ensures KidsDone(p)
    ensures IsSortOf(Merged(m[p.lo..Mid(p)], m[Mid(p)..p.hi]), p.orig)
  {
    BothHalves(m[p.lo..Mid(p)], m[Mid(p)..p.hi], p.orig, Mid(p) - p.lo);
  }

  lemma WorkKeepsInv(t: nat, p: Proc, m: seq<int>, p': Proc, m': seq<int>)
    requires Inv(t, p, m) && Works(t, p, m, p', m')
    ensures Inv(t, p', m')
    ensures p'.lo == p.lo && p'.hi == p.hi && p'.orig == p.orig && SameOutside(m, m', p.lo, p.hi)
  {
    hide KidsInv, IsSortOf, Merged, AllDone, MergeNext;
    if p.pc.Entered? || p.pc.Sorting? {
      SortingKeepsInv(t, p, m, p', m');
    } else if p.pc.ForkLeft? || p.pc.ForkRight? {
      ForkingKeepsInv(t, p, m, p', m');
    } else if p.pc.WaitLeft? {
      KidsInvOfSame(t, p, p', m);
    } else if p.pc.WaitRight? {
      WaitingRight(t, p, m, p', m');
    } else if p.pc.Merging? {
      MergingActs(t, p, m, p', m');
    } else {
      CopyingActs(t, p, m, p', m');
    }
  }

  lemma SortingKeepsInv(t: nat, p: Proc, m: seq<int>, p': Proc, m': seq<int>)
    requires p.pc.Entered? || p.pc.Sorting?
    requires Inv(t, p, m) && Works(t, p, m, p', m')
    ensures Inv(t, p', m')
    ensures p'.lo == p.lo && p'.hi == p.hi && p'.orig == p.orig && SameOutside(m, m', p.lo, p.hi)
  {
    hide KidsInv, IsSortOf, Merged, AllDone, MergeNext;
  }

  lemma ForkingKeepsInv(t: nat, p: Proc, m: seq<int>, p': Proc, m': seq<int>)
    requires p.pc.ForkLeft? || p.pc.ForkRight?
    requires Inv(t, p, m) && Works(t, p, m, p', m')
    ensures Inv(t, p', m')
    ensures p'.lo == p.lo && p'.hi == p.hi && p'.orig == p.orig && SameOutside(m, m', p.lo, p.hi)
  {
    hide KidsInv, IsSortOf, Merged, AllDone, MergeNext;
    if p.pc.ForkLeft? {
      ForkingLeft(t, p, p', m);
    } else {
      ForkingRight(t, p, p', m);
    }
  }

  lemma WaitingRight(t: nat, p: Proc, m: seq<int>, p': Proc, m': seq<int>)
    requires p.pc == WaitRight && Inv(t, p, m) && Works(t, p, m, p', m')
    ensures Inv(t, p', m') && m' == m
    ensures p'.lo == p.lo && p'.hi == p.hi && p'.orig == p.orig && SameOutside(m, m', p.lo, p.hi)
  {
    hide KidsInv, IsSortOf, Merged, AllDone;
    if p.right.proc.pc == SUCCESS {
      BothSucceeded(t, p, m);
      assert [] + Merged(m[p.lo..Mid(p)], m[Mid(p)..p.hi]) == Merged(m[p.lo..Mid(p)], m[Mid(p)..p.hi]);
    } else {
      KidsInvOfSame(t, p, p', m);
    }
  }

  lemma MergingActs(t: nat, p: Proc, m: seq<int>, p': Proc, m': seq<int>)
    requires p.pc.Merging?
    requires Inv(t, p, m) && Works(t, p, m, p', m')
    ensures Inv(t, p', m') && m' == m
    ensures p'.lo == p.lo && p'.hi == p.hi && p'.orig == p.orig
  {
    hide KidsInv, IsSortOf, Merged, AllDone, MergeNext;
    MergingKeepsInv(p, m, p.pc.i, p.pc.j, p.pc.temp);
  }

  lemma CopyingActs(t: nat, p: Proc, m: seq<int>, p': Proc, m': seq<int>)
    requires p.pc.Copying?
    requires Inv(t, p, m) && Works(t, p, m, p', m')
    ensures Inv(t, p', m')
    ensures p'.lo == p.lo && p'.hi == p.hi && p'.orig == p.orig && SameOutside(m, m', p.lo, p.hi)
  {
    hide KidsInv, IsSortOf, Merged, AllDone, MergeNext;
    CopyingKeepsInv(p, m, p.pc.k, p.pc.temp);
  }

  lemma ForkingLeft(t: nat, p: Proc, p': Proc, m: seq<int>)
    requires p.lo <= p.hi <= |m| && KidsForked(p, false, false) && m[p.lo..p.hi] == p.orig
    requires p' == p.(left := Forked(p.lo, Mid(p), m), pc := ForkRight)
    ensures KidsInv(t, p', m) && m[Mid(p)..p.hi] == p.orig[Mid(p) - p.lo..]
  {
    hide Inv;
    ForkedInv(t, p.lo, Mid(p), m);
    Halves(m, p.lo, Mid(p), p.hi);
  }

  lemma Halves(m: seq<int>, lo: nat, mid: nat, hi: nat)
    requires lo <= mid <= hi <= |m|
    ensures m[lo..mid] == m[lo..hi][..mid - lo] && m[mid..hi] == m[lo..hi][mid - lo..]
  {
  }

  lemma ForkingRight(t: nat, p: Proc, p': Proc, m: seq<int>)
    requires p.lo <= p.hi <= |m| && KidsForked(p, true, false) && KidsInv(t, p, m)
    requires m[Mid(p)..p.hi] == p.orig[Mid(p) - p.lo..]
    requires p' == p.(right := Forked(p.lo + (p.hi - p.lo) / 2, p.hi, m), pc := WaitLeft)
    ensures KidsInv(t, p', m)
  {
    hide Inv;
    SameMiddle(p.lo, p.hi);
    ForkedInv(t, Mid(p), p.hi, m);
  }

  /** The code computes the middle in two ways. */
  lemma SameMiddle(lo: nat, hi: nat)
    requires lo <= hi
    ensures lo + (hi - lo) / 2 == (hi + lo) / 2
  {
  }

  lemma FailureKeepsInv(t: nat, p: Proc, m: seq<int>, p': Proc)
    requires Inv(t, p, m) && Fails(p, p')
    ensures Inv(t, p', m)
  {
    hide IsSortOf, Merged, AllDone;
    if KidsInv(t, p, m) {
      KidsInvOfSame(t, p, p', m);
    }
  }

  lemma OutsideRange(m: seq<int>, m': seq<int>, lo: nat, hi: nat, a: nat, b: nat)
    requires lo <= hi <= |m| && SameOutside(m, m', lo, hi) && a <= b <= |m|
    ensures b <= lo || hi <= a ==> SameWithin(m, m', a, b) && m'[a..b] == m[a..b]
    ensures a <= lo && hi <= b ==> SameOutside(m, m', a, b)
  {
    assert forall i | 0 <= i < lo :: m'[i] == m'[..lo][i] == m[i];
    assert forall i | hi <= i < |m| :: m'[i] == m'[hi..][i - hi] == m[i];
  }

  /** A step of the left child keeps what the parent and the right child rely on. */
  lemma LeftStepKeepsInv(t: nat, p: Proc, m: seq<int>, l': Proc, m': seq<int>)
    requires Inv(t, p, m) && p.left.Kid? && !KidsDone(p) && p.left.proc.pc != SUCCESS
    requires var l := p.left.proc;
      SameOutside(m, m', p.lo, Mid(p)) && Inv(t, l', m') && l'.lo == l.lo && l'.hi == l.hi && l'.orig == l.orig
    ensures Inv(t, p.(left := Kid(l')), m') && SameOutside(m, m', p.lo, p.hi)
  {
    hide KidsInv, IsSortOf, Merged, AllDone, SameOutside, SameWithin;
    OutsideRange(m, m', p.lo, Mid(p), Mid(p), p.hi);
    OutsideRange(m, m', p.lo, Mid(p), p.lo, p.hi);
    LeftKidsInv(t, p, m, l', m');
  }

  lemma LeftKidsInv(t: nat, p: Proc, m: seq<int>, l': Proc, m': seq<int>)
    requires KidsInv(t, p, m) && p.left.Kid? && SameWithin(m, m', Mid(p), p.hi)
    requires var l := p.left.proc; Inv(t, l', m') && l'.lo == l.lo && l'.hi == l.hi && l'.orig == l.orig
    ensures KidsInv(t, p.(left := Kid(l')), m')
  {
    hide Inv, SameWithin;
    if p.right.Kid? {
      InvFrame(t, p.right.proc, m, m');
    }
  }

  lemma RightStepKeepsInv(t: nat, p: Proc, m: seq<int>, r': Proc, m': seq<int>)
    requires Inv(t, p, m) && p.right.Kid? && !KidsDone(p) && p.right.proc.pc != SUCCESS
    requires var r := p.right.proc;
      SameOutside(m, m', Mid(p), p.hi) && Inv(t, r', m') && r'.lo == r.lo && r'.hi == r.hi && r'.orig == r.orig
    ensures Inv(t, p.(right := Kid(r')), m') && SameOutside(m, m', p.lo, p.hi)
  {
    hide KidsInv, IsSortOf, Merged, AllDone, SameOutside, SameWithin;
    OutsideRange(m, m', Mid(p), p.hi, p.lo, Mid(p));
    OutsideRange(m, m', Mid(p), p.hi, p.lo, p.hi);
    RightKidsInv(t, p, m, r', m');
  }

  lemma RightKidsInv(t: nat, p: Proc, m: seq<int>, r': Proc, m': seq<int>)
    requires KidsInv(t, p, m) && p.right.Kid? && SameWithin(m, m', p.lo, Mid(p))
    requires var r := p.right.proc; Inv(t, r', m') && r'.lo == r.lo && r'.hi == r.hi && r'.orig == r.orig
    ensures KidsInv(t, p.(right := Kid(r')), m')
  {
    hide Inv, SameWithin;
    if p.left.Kid? {
      InvFrame(t, p.left.proc, m, m');
    }
  }

  /** Every step of every process keeps the invariant and writes only inside the range of the tree. */
  lemma {:induction false} StepKeepsInv(t: nat, p: Proc, m: seq<int>, p': Proc, m': seq<int>)
    requires Inv(t, p, m) && Step(t, p, m, p', m')
    ensures Inv(t, p', m')
    ensures p'.lo == p.lo && p'.hi == p.hi && p'.orig == p.orig && SameOutside(m, m', p.lo, p.hi)
    decreases p
  {
    hide KidsForked, IsSortOf, Merged, AllDone, Works, Fails;
    if Works(t, p, m, p', m') {
      WorkKeepsInv(t, p, m, p', m');
    } else if Fails(p, p') && m' == m {
      FailureKeepsInv(t, p, m, p');
      FailureKeepsRange(p, p');
    } else if p.left.Kid? && p'.left.Kid? && p' == p.(left := p'.left)
           && Step(t, p.left.proc, m, p'.left.proc, m') {
      LiveKid(t, p, m, p.left.proc, p'.left.proc, m');
      StepKeepsInv(t, p.left.proc, m, p'.left.proc, m');
      LeftStepKeepsInv(t, p, m, p'.left.proc, m');
    } else {
      LiveKid(t, p, m, p.right.proc, p'.right.proc, m');
      StepKeepsInv(t, p.right.proc, m, p'.right.proc, m');
      RightStepKeepsInv(t, p, m, p'.right.proc, m');
    }
  }

  lemma FailureKeepsRange(p: Proc, p': Proc)
    requires Fails(p, p')
    ensures p'.lo == p.lo && p'.hi == p.hi && p'.orig == p.orig
  {
  }

  /** A child that takes a step has not succeeded, and its parent still counts on it. */
  lemma LiveKid(t: nat, p: Proc, m: seq<int>, kid: Proc, kid': Proc, m': seq<int>)
    requires Inv(t, p, m) && (p.left == Kid(kid) || p.right == Kid(kid)) && Step(t, kid, m, kid', m')
    ensures !KidsDone(p) && KidsInv(t, p, m) && Inv(t, kid, m) && kid.pc != SUCCESS
  {
    hide Step;
    if AllDone(kid) { DoneTakesNoStep(t, kid, m, kid', m'); }
    if Inv(t, kid, m) && kid.pc == SUCCESS { SuccessIsAllDone(t, kid, m); }
  }
}
