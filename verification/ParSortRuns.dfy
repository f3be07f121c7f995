/**
 What holds of whole runs of the parallel sort.
 */
module ParSortRuns {
  import opened ParSortMerge
  import opened ParSort

  datatype World = World(root: Proc, mem: seq<int>)

  ghost predicate IsRun(t: nat, run: seq<World>) {
    && run != []
    && forall i | 0 <= i < |run| - 1 :: Step(t, run[i].root, run[i].mem, run[i + 1].root, run[i + 1].mem)
  }

  /** merge_sort(arr, begin, end, t) has just been called. */
  function Call(begin: nat, end: nat, mem: seq<int>): (w: World)
    requires begin <= end <= |mem|
  {
    World(Forked(begin, end, mem).proc, mem)
  }

  lemma {:induction false} RunKeepsInv(t: nat, begin: nat, end: nat, mem: seq<int>, run: seq<World>)
    requires begin <= end <= |mem| && IsRun(t, run) && run[0] == Call(begin, end, mem)
    ensures var w := run[|run| - 1];
      && Inv(t, w.root, w.mem)
      && w.root.lo == begin && w.root.hi == end && w.root.orig == mem[begin..end]
      && SameOutside(mem, w.mem, begin, end)
    decreases |run|
  {
    hide Inv, Step;
    if |run| == 1 {
      ForkedInv(t, begin, end, mem);
    } else {
      var n := |run| - 2;
      assert IsRun(t, run[..n + 1]);
      RunKeepsInv(t, begin, end, mem, run[..n + 1]);
      StepKeepsInv(t, run[n].root, run[n].mem, run[n + 1].root, run[n + 1].mem);
    }
  }

  /**
   If the call returns normally, the range is a sorted permutation of what it was and every
   process has succeeded; in any case nothing outside the range was touched.
   */
  lemma SortedOnReturn(t: nat, begin: nat, end: nat, mem: seq<int>, run: seq<World>)
    requires begin <= end <= |mem| && IsRun(t, run) && run[0] == Call(begin, end, mem)
    ensures var w := run[|run| - 1];
      && |w.mem| == |mem| && w.mem[..begin] == mem[..begin] && w.mem[end..] == mem[end..]
      && (w.root.pc == SUCCESS ==>
            && Sorted(w.mem[begin..end]) && multiset(w.mem[begin..end]) == multiset(mem[begin..end])
            && AllDone(w.root))
  {
    RunKeepsInv(t, begin, end, mem, run);
  }

  // ----- who writes where

  /** The process at the end of a path of left (false) and right (true) children. */
  function At(p: Proc, path: seq<bool>): (kid: Kid)
    decreases |path|
  {
    if path == [] then Kid(p)
    else
      var kid := if path[0] then p.right else p.left;
      if kid.NoKid? then NoKid else At(kid.proc, path[1..])
  }

  /** The process may write to the shared array in its next step. */
  predicate Writer(p: Proc) {
    p.pc.Sorting? || p.pc.Copying?
  }

  lemma {:induction false} DoneBelow(p: Proc, path: seq<bool>)
    requires AllDone(p) && At(p, path).Kid?
    ensures AllDone(At(p, path).proc)
    decreases |path|
  {
    if path != [] { DoneBelow((if path[0] then p.right else p.left).proc, path[1..]); }
  }

  /** A process that has not succeeded works inside the range of its ancestors, with its invariant intact. */
  lemma {:induction false} InsideAncestor(t: nat, p: Proc, m: seq<int>, path: seq<bool>)
    requires Inv(t, p, m) && At(p, path).Kid? && At(p, path).proc.pc != SUCCESS
    ensures var q := At(p, path).proc; p.lo <= q.lo <= q.hi <= p.hi && Inv(t, q, m)
    decreases |path|
  {
    if path != [] {
      var kid := (if path[0] then p.right else p.left).proc;
      NotDone(t, p, m, path);
      InsideAncestor(t, kid, m, path[1..]);
    }
  }

  /** Above a process that has not succeeded, the parent still counts on its children. */
  lemma NotDone(t: nat, p: Proc, m: seq<int>, path: seq<bool>)
    requires Inv(t, p, m) && path != [] && At(p, path).Kid? && At(p, path).proc.pc != SUCCESS
    ensures !KidsDone(p) && KidsInv(t, p, m)
  {
    var kid := (if path[0] then p.right else p.left).proc;
    if AllDone(kid) { DoneBelow(kid, path[1..]); }
  }

  /** Whenever a process may write, every process below it has ended. */
  lemma WriterAlone(t: nat, p: Proc, m: seq<int>, path: seq<bool>)
    requires Inv(t, p, m) && At(p, path).Kid? && Writer(At(p, path).proc)
    ensures KidsDone(At(p, path).proc)
  {
    InsideAncestor(t, p, m, path);
  }

  /** Processes that may write at the same time have disjoint ranges. */
  lemma {:induction false} WritersDisjoint(t: nat, p: Proc, m: seq<int>, a: seq<bool>, b: seq<bool>)
    requires Inv(t, p, m) && a != b
    requires At(p, a).Kid? && Writer(At(p, a).proc) && At(p, b).Kid? && Writer(At(p, b).proc)
    ensures var q, r := At(p, a).proc, At(p, b).proc; q.hi <= r.lo || r.hi <= q.lo
    decreases |a|
  {
    hide KidsDone, AllDone;
    if a != [] { NotDone(t, p, m, a); }
    if b != [] { NotDone(t, p, m, b); }
    if a == [] || b == [] {
      WriterHasNoKids(t, p, m);
    } else if a[0] == b[0] {
      var kid := (if a[0] then p.right else p.left).proc;
      assert a == [a[0]] + a[1..] && b == [b[0]] + b[1..];
      WritersDisjoint(t, kid, m, a[1..], b[1..]);
    } else {
      InsideAncestor(t, (if a[0] then p.right else p.left).proc, m, a[1..]);
      InsideAncestor(t, (if b[0] then p.right else p.left).proc, m, b[1..]);
    }
  }

  lemma WriterHasNoKids(t: nat, p: Proc, m: seq<int>)
    requires Inv(t, p, m) && Writer(p)
    ensures KidsDone(p)
  {
  }

  /** A step that changes the array is a step of a writer, inside its own range. */
  lemma {:induction false} StepWritesOwnCells(t: nat, p: Proc, m: seq<int>, p': Proc, m': seq<int>)
      returns (path: seq<bool>)
    requires Inv(t, p, m) && Step(t, p, m, p', m') && m' != m
    ensures At(p, path).Kid? && Writer(At(p, path).proc)
    ensures var q := At(p, path).proc; q.lo <= q.hi <= |m| && SameOutside(m, m', q.lo, q.hi)
    decreases p
  {
    if p.lo <= p.hi <= |m| && Works(t, p, m, p', m') {
      path := [];
    } else if p.left.Kid? && p'.left.Kid? && p' == p.(left := p'.left)
           && Step(t, p.left.proc, m, p'.left.proc, m') {
      LiveKid(t, p, m, p.left.proc, p'.left.proc, m');
      var rest := StepWritesOwnCells(t, p.left.proc, m, p'.left.proc, m');
      path := [false] + rest;
      assert path[1..] == rest;
    } else {
      LiveKid(t, p, m, p.right.proc, p'.right.proc, m');
      var rest := StepWritesOwnCells(t, p.right.proc, m, p'.right.proc, m');
      path := [true] + rest;
      assert path[1..] == rest;
    }
  }

  // ----- how long a run can be

  /** A bound on the steps of a call on n cells, not counting the writes of qsort. */
  function Work(t: nat, n: nat): (w: nat) {
    if n <= t || n < 2 then 2
    else Work(t, n / 2) + Work(t, n - n / 2) + 2 * n + 10
  }

  /** What is left of it for a process alone. */
  function Own(t: nat, p: Proc): (w: int)
    requires p.lo <= p.hi
  {
    var n, h := p.hi - p.lo, p.hi - Mid(p);
    match p.pc
    case Entered => Work(t, n)
    case Sorting => 1
    case ForkLeft => Work(t, n - h) + Work(t, h) + 2 * n + 9
    case ForkRight => Work(t, h) + 2 * n + 7
    case WaitLeft => 2 * n + 5
    case WaitRight => 2 * n + 4
    case Merging(i, j, _) => (Mid(p) - i) + (p.hi - j) + n + 2
    case Copying(k, _) => n - k + 1
    case Ended(_) => 0
  }

  function Rank(t: nat, p: Proc): (w: int) {
    (if p.lo <= p.hi then Own(t, p) else 0)
    + (if p.left.Kid? then Rank(t, p.left.proc) else 0)
    + (if p.right.Kid? then Rank(t, p.right.proc) else 0)
  }

  lemma {:induction false} DoneHasNoRank(t: nat, p: Proc)
    requires AllDone(p)
    ensures Rank(t, p) == 0
    decreases p
  {
    if p.left.Kid? { DoneHasNoRank(t, p.left.proc); }
    if p.right.Kid? { DoneHasNoRank(t, p.right.proc); }
  }

  lemma {:induction false} RankNonNegative(t: nat, p: Proc, m: seq<int>)
    requires Inv(t, p, m)
    ensures Rank(t, p) >= Own(t, p) >= 0
    decreases p
  {
    if p.left.Kid? {
      if AllDone(p.left.proc) { DoneHasNoRank(t, p.left.proc); } else { RankNonNegative(t, p.left.proc, m); }
    }
    if p.right.Kid? {
      if AllDone(p.right.proc) { DoneHasNoRank(t, p.right.proc); } else { RankNonNegative(t, p.right.proc, m); }
    }
  }

  /** A threshold of 0 lets only empty ranges come to an end. */
  predicate Ends(t: nat, p: Proc) {
    t >= 1 || p.lo == p.hi
  }

  lemma KidsEnd(t: nat, p: Proc, m: seq<int>)
    requires Ends(t, p) && KidsInv(t, p, m)
    ensures p.left.Kid? ==> Ends(t, p.left.proc)
    ensures p.right.Kid? ==> Ends(t, p.right.proc)
  {
  }

  lemma WorkUnfold(t: nat, n: nat)
    requires t >= 1 || n == 0
    ensures Work(t, n) == if n <= t then 2 else Work(t, n / 2) + Work(t, n - n / 2) + 2 * n + 10
  {
  }

  lemma NoKidNoRank(t: nat)
    ensures KidRank(t, NoKid) == 0
  {
  }

  lemma WorkDecreasesRank(t: nat, p: Proc, m: seq<int>, p': Proc, m': seq<int>)
    requires Ends(t, p) && Inv(t, p, m) && Works(t, p, m, p', m')
    ensures p' == p || Rank(t, p') < Rank(t, p)
  {
    hide AllDone, KidsInv, IsSortOf, Merged, CompareI64, Rank, KidRank, Work, Ends;
    SameKidRank(t, p, p');
    if p.pc.ForkLeft? || p.pc.ForkRight? {
      ForkDecreasesRank(t, p, m, p', m');
    } else {
      OwnDecreases(t, p, m, p', m');
    }
  }

  lemma ForkDecreasesRank(t: nat, p: Proc, m: seq<int>, p': Proc, m': seq<int>)
    requires p.pc.ForkLeft? || p.pc.ForkRight?
    requires Inv(t, p, m) && Works(t, p, m, p', m')
    ensures Own(t, p') + KidRank(t, p'.left) + KidRank(t, p'.right)
          < Own(t, p) + KidRank(t, p.left) + KidRank(t, p.right)
  {
    hide AllDone, KidsInv, IsSortOf, Rank, KidRank, Work;
    NoKidNoRank(t);
    ForkedRank(t, p.lo, Mid(p), m);
    ForkedRank(t, Mid(p), p.hi, m);
  }

  lemma OwnDecreases(t: nat, p: Proc, m: seq<int>, p': Proc, m': seq<int>)
    requires !p.pc.ForkLeft? && !p.pc.ForkRight?
    requires Ends(t, p) && p.lo <= p.hi <= |m| && Works(t, p, m, p', m')
    ensures p' == p || Own(t, p') < Own(t, p)
    ensures p'.lo == p.lo && p'.hi == p.hi && p'.left == p.left && p'.right == p.right
  {
    hide IsSortOf, CompareI64, Work;
    var n := p.hi - p.lo;
    assert p.hi - Mid(p) == n - n / 2;
    WorkUnfold(t, n);
  }

  function KidRank(t: nat, kid: Kid): (w: int) {
    if kid.Kid? then Rank(t, kid.proc) else 0
  }

  lemma ForkedRank(t: nat, lo: nat, hi: nat, m: seq<int>)
    requires lo <= hi <= |m|
    ensures KidRank(t, Forked(lo, hi, m)) == Work(t, hi - lo)
  {
  }

  lemma EndedOwnsNothing(t: nat, p: Proc)
    requires p.lo <= p.hi && p.pc.Ended?
    ensures Own(t, p) == 0
  {
  }

  lemma {:induction false} RankSplit(t: nat, p: Proc)
    requires p.lo <= p.hi
    ensures Rank(t, p) == Own(t, p) + KidRank(t, p.left) + KidRank(t, p.right)
  {
    hide Own;
  }

  lemma {:induction false} SameKidRank(t: nat, p: Proc, p': Proc)
    requires p.lo <= p.hi && p'.lo == p.lo && p'.hi == p.hi
    ensures p'.pc == p.pc ==> Own(t, p') == Own(t, p)
    ensures Rank(t, p) == Own(t, p) + KidRank(t, p.left) + KidRank(t, p.right)
    ensures Rank(t, p') == Own(t, p') + KidRank(t, p'.left) + KidRank(t, p'.right)
  {
    hide Rank, KidRank, Work;
    RankSplit(t, p);
    RankSplit(t, p');
  }

  /** Every step but a write of qsort uses up some of the work that is left. */
  lemma {:induction false} StepDecreasesRank(t: nat, p: Proc, m: seq<int>, p': Proc, m': seq<int>)
    requires Ends(t, p) && Inv(t, p, m) && Step(t, p, m, p', m')
    ensures p' == p || Rank(t, p') < Rank(t, p)
    decreases p
  {
    hide AllDone, Works, Rank, Own, Ends, KidsInv;
    StepKeepsInv(t, p, m, p', m');
    SameKidRank(t, p, p');
    if Works(t, p, m, p', m') {
      WorkDecreasesRank(t, p, m, p', m');
    } else if Fails(p, p') && m' == m {
      OwnPositive(t, p, m);
      EndedOwnsNothing(t, p');
    } else if p.left.Kid? && p'.left.Kid? && p' == p.(left := p'.left)
           && Step(t, p.left.proc, m, p'.left.proc, m') {
      LiveKid(t, p, m, p.left.proc, p'.left.proc, m');
      KidsEnd(t, p, m);
      StepDecreasesRank(t, p.left.proc, m, p'.left.proc, m');
    } else {
      LiveKid(t, p, m, p.right.proc, p'.right.proc, m');
      KidsEnd(t, p, m);
      StepDecreasesRank(t, p.right.proc, m, p'.right.proc, m');
    }
  }

  lemma OwnPositive(t: nat, p: Proc, m: seq<int>)
    requires Inv(t, p, m) && !p.pc.Ended?
    ensures Own(t, p) > 0
  {
    hide KidsInv, AllDone, IsSortOf, Merged;
    WorkPositive(t, p.hi - p.lo);
  }

  lemma WorkPositive(t: nat, n: nat)
    ensures Work(t, n) >= 2
  {
  }

  /** The steps of a run that are not writes of qsort. */
  function Changes(run: seq<World>): (k: nat) {
    if |run| < 2 then 0
    else Changes(run[..|run| - 1]) + if run[|run| - 1].root == run[|run| - 2].root then 0 else 1
  }

  /** So a run on n cells takes at most Work(t, n) steps besides those of qsort, failures included. */
  lemma {:induction false} RunIsBounded(t: nat, begin: nat, end: nat, mem: seq<int>, run: seq<World>)
    requires (t >= 1 || begin == end) && begin <= end <= |mem| && IsRun(t, run) && run[0] == Call(begin, end, mem)
    ensures Changes(run) + Rank(t, run[|run| - 1].root) <= Work(t, end - begin)
    ensures Changes(run) <= Work(t, end - begin)
    decreases |run|
  {
    hide Inv, Step, Rank, Work;
    RunKeepsInv(t, begin, end, mem, run);
    RankNonNegative(t, run[|run| - 1].root, run[|run| - 1].mem);
    if |run| == 1 {
      ForkedRank(t, begin, end, mem);
    } else {
      var n := |run| - 2;
      assert IsRun(t, run[..n + 1]);
      RunIsBounded(t, begin, end, mem, run[..n + 1]);
      RunKeepsInv(t, begin, end, mem, run[..n + 1]);
      StepDecreasesRank(t, run[n].root, run[n].mem, run[n + 1].root, run[n + 1].mem);
    }
  }

  // ----- threshold 0

  /** The run of a right child, seen from its parent. */
  function Lifted(p: Proc, run: seq<World>): (r: seq<World>)
    ensures |r| == |run|
    ensures forall i | 0 <= i < |run| :: r[i] == World(p.(right := Kid(run[i].root)), run[i].mem)
  {
    seq(|run|, i requires 0 <= i < |run| => World(p.(right := Kid(run[i].root)), run[i].mem))
  }

  lemma LiftedIsRun(t: nat, p: Proc, run: seq<World>)
    requires IsRun(t, run)
    ensures IsRun(t, Lifted(p, run))
  {
    var r := Lifted(p, run);
    forall i | 0 <= i < |r| - 1 ensures Step(t, r[i].root, r[i].mem, r[i + 1].root, r[i + 1].mem) {
      assert Step(t, run[i].root, run[i].mem, run[i + 1].root, run[i + 1].mem);
    }
  }

  ghost predicate NeverIdle(run: seq<World>) {
    forall i | 0 <= i < |run| - 1 :: run[i].root != run[i + 1].root
  }

  lemma {:induction false} NeverIdleChanges(run: seq<World>)
    requires run != [] && NeverIdle(run)
    ensures Changes(run) == |run| - 1
    decreases |run|
  {
    if |run| >= 2 {
      NeverIdleChanges(run[..|run| - 1]);
      assert run[|run| - 2].root != run[|run| - 2 + 1].root;
    }
  }

  lemma RunCons(t: nat, w: World, run: seq<World>)
    requires IsRun(t, run) && NeverIdle(run)
    requires Step(t, w.root, w.mem, run[0].root, run[0].mem) && w.root != run[0].root
    ensures IsRun(t, [w] + run) && NeverIdle([w] + run)
  {
    hide Step;
    var r := [w] + run;
    assert forall i | 0 < i < |r| :: r[i] == run[i - 1];
  }

  /** With threshold 0 a non-empty range is split again and again: the right half of one cell is that cell. */
  lemma {:induction false} EndlessSplitting(lo: nat, hi: nat, m: seq<int>, k: nat) returns (run: seq<World>)
    requires lo < hi <= |m|
    ensures IsRun(0, run) && NeverIdle(run) && run[0] == Call(lo, hi, m) && |run| > k
    decreases k
  {
    var w := Call(lo, hi, m);
    if k == 0 {
      run := [w];
    } else {
      var p := w.root;
      var p1 := p.(pc := ForkLeft);
      var p2 := p1.(left := Forked(lo, Mid(p), m), pc := ForkRight);
      var p3 := p2.(right := Forked(lo + (hi - lo) / 2, hi, m), pc := WaitLeft);
      var below := EndlessSplitting(lo + (hi - lo) / 2, hi, m, k - 1);
      var tail := Lifted(p3, below);
      LiftedIsRun(0, p3, below);
      assert NeverIdle(tail) by {
        forall i | 0 <= i < |tail| - 1 ensures tail[i].root != tail[i + 1].root {
          assert below[i].root != below[i + 1].root;
        }
      }
      assert tail[0] == World(p3, m);
      RunCons(0, World(p2, m), tail);
      RunCons(0, World(p1, m), [World(p2, m)] + tail);
      RunCons(0, w, [World(p1, m)] + ([World(p2, m)] + tail));
      run := [w] + ([World(p1, m)] + ([World(p2, m)] + tail));
    }
  }

  ghost predicate Bounds(t: nat, begin: nat, end: nat, mem: seq<int>, bound: nat)
    requires begin <= end <= |mem|
  {
    forall run: seq<World> | IsRun(t, run) && run[0] == Call(begin, end, mem) :: Changes(run) <= bound
  }

  /** The sort is sure to come to an end exactly when the threshold is at least 1 or there is nothing to sort. */
  lemma EndsIff(t: nat, begin: nat, end: nat, mem: seq<int>)
    requires begin <= end <= |mem|
    ensures (exists bound :: Bounds(t, begin, end, mem, bound)) <==> t >= 1 || begin == end
  {
    hide Step, Work, Changes;
    if t >= 1 || begin == end {
      forall run: seq<World> | IsRun(t, run) && run[0] == Call(begin, end, mem)
        ensures Changes(run) <= Work(t, end - begin)
      {
        RunIsBounded(t, begin, end, mem, run);
      }
      assert Bounds(t, begin, end, mem, Work(t, end - begin));
    } else {
      forall bound: nat ensures !Bounds(t, begin, end, mem, bound) {
        var run := EndlessSplitting(begin, end, mem, bound + 1);
        NeverIdleChanges(run);
      }
    }
  }

  // ----- no deadlock

  /** A process that has not ended is in qsort, or it or a descendant can take a step without any failure. */
  lemma {:induction false} NeverStuck(t: nat, p: Proc, m: seq<int>) returns (path: seq<bool>, q': Proc, m': seq<int>)
    requires Inv(t, p, m) && !p.pc.Ended?
    ensures At(p, path).Kid?
    ensures var q := At(p, path).proc;
      q.pc.Sorting? || (q.lo <= q.hi <= |m| && q' != q && Works(t, q, m, q', m'))
    decreases p
  {
    hide Merged, IsSortOf, AllDone, CompareI64;
    path, q', m' := [], p, m;
    match p.pc
    case Entered =>
      q' := p.(pc := if p.hi - p.lo <= t then Sorting else if p.hi > p.lo then ForkLeft else SUCCESS);
    case Sorting =>
    case ForkLeft =>
      q' := p.(left := Forked(p.lo, Mid(p), m), pc := ForkRight);
    case ForkRight =>
      q' := p.(right := Forked(p.lo + (p.hi - p.lo) / 2, p.hi, m), pc := WaitLeft);
    case WaitLeft =>
      var l := p.left.proc;
      if l.pc.Ended? {
        q' := p.(pc := if l.pc == SUCCESS then WaitRight
                       else Ended(Exit(if l.pc.status.Crashed? then 253 else 252)));
      } else {
        var rest;
        rest, q', m' := NeverStuck(t, l, m);
        path := [false] + rest;
        assert path[1..] == rest;
      }
    case WaitRight =>
      var r := p.right.proc;
      if r.pc.Ended? {
        q' := p.(pc := if r.pc == SUCCESS then Merging(p.lo, Mid(p), [])
                       else Ended(Exit(if r.pc.status.Crashed? then 3 else 4)));
      } else {
        var rest;
        rest, q', m' := NeverStuck(t, r, m);
        path := [true] + rest;
        assert path[1..] == rest;
      }
    case Merging(i, j, temp) =>
      q' := p.(pc := MergeNext(p, m, i, j, temp));
    case Copying(k, temp) =>
      if k < |temp| {
        m' := m[p.lo + k := temp[k]];
        q' := p.(pc := Copying(k + 1, temp));
      } else {
        q' := p.(pc := SUCCESS);
      }
  }
}
