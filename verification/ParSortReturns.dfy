/**
 When the parallel sort returns, and what its exit status tells: without a failed system call or a
 crash every process ends with status 0, and every other status names what went wrong.
 */
module ParSortReturns {
  import opened ParSortMerge
  import opened ParSort
  import opened ParSortRuns

  // ----- runs without failures

  /** A step of one process of the tree that is neither a crash nor a failed fork or waitpid. */
  ghost predicate CleanStep(t: nat, p: Proc, m: seq<int>, p': Proc, m': seq<int>) {
    || (p.lo <= p.hi <= |m| && Works(t, p, m, p', m'))
    || (p.left.Kid? && p'.left.Kid? && p' == p.(left := p'.left)
        && CleanStep(t, p.left.proc, m, p'.left.proc, m'))
    || (p.right.Kid? && p'.right.Kid? && p' == p.(right := p'.right)
        && CleanStep(t, p.right.proc, m, p'.right.proc, m'))
  }

  ghost predicate IsCleanRun(t: nat, run: seq<World>) {
    && run != []
    && forall i | 0 <= i < |run| - 1 :: CleanStep(t, run[i].root, run[i].mem, run[i + 1].root, run[i + 1].mem)
  }

  lemma {:induction false} CleanIsStep(t: nat, p: Proc, m: seq<int>, p': Proc, m': seq<int>)
    requires CleanStep(t, p, m, p', m')
    ensures Step(t, p, m, p', m')
    decreases p
  {
    hide Works;
    if p.lo <= p.hi <= |m| && Works(t, p, m, p', m') {
    } else if p.left.Kid? && p'.left.Kid? && p' == p.(left := p'.left)
           && CleanStep(t, p.left.proc, m, p'.left.proc, m') {
      CleanIsStep(t, p.left.proc, m, p'.left.proc, m');
    } else {
      CleanIsStep(t, p.right.proc, m, p'.right.proc, m');
    }
  }

  lemma CleanRunIsRun(t: nat, run: seq<World>)
    requires IsCleanRun(t, run)
    ensures IsRun(t, run)
  {
    hide Step, CleanStep;
    forall i | 0 <= i < |run| - 1 ensures Step(t, run[i].root, run[i].mem, run[i + 1].root, run[i + 1].mem) {
      CleanIsStep(t, run[i].root, run[i].mem, run[i + 1].root, run[i + 1].mem);
    }
  }

  /** Every process that has ended has ended with status 0. */
  predicate Healthy(p: Proc) {
    && (p.pc.Ended? ==> p.pc == SUCCESS)
    && (p.left.Kid? ==> Healthy(p.left.proc))
    && (p.right.Kid? ==> Healthy(p.right.proc))
  }

  lemma {:induction false} CleanStepKeepsHealthy(t: nat, p: Proc, m: seq<int>, p': Proc, m': seq<int>)
    requires Healthy(p) && CleanStep(t, p, m, p', m')
    ensures Healthy(p')
    decreases p
  {
    hide Merged, IsSortOf, CompareI64;
    if p.lo <= p.hi <= |m| && Works(t, p, m, p', m') {
    } else if p.left.Kid? && p'.left.Kid? && p' == p.(left := p'.left)
           && CleanStep(t, p.left.proc, m, p'.left.proc, m') {
      CleanStepKeepsHealthy(t, p.left.proc, m, p'.left.proc, m');
    } else {
      CleanStepKeepsHealthy(t, p.right.proc, m, p'.right.proc, m');
    }
  }

  lemma {:induction false} CleanRunKeepsHealthy(t: nat, run: seq<World>)
    requires IsCleanRun(t, run) && Healthy(run[0].root)
    ensures Healthy(run[|run| - 1].root)
    decreases |run|
  {
    hide Healthy, CleanStep;
    if |run| > 1 {
      var n := |run| - 2;
      assert IsCleanRun(t, run[..n + 1]);
      CleanRunKeepsHealthy(t, run[..n + 1]);
      CleanStepKeepsHealthy(t, run[n].root, run[n].mem, run[n + 1].root, run[n + 1].mem);
    }
  }

  /**
   Without failures no process ever ends with another status than 0; so a call that has ended has
   returned normally, with its range sorted.
   */
  lemma NoFailureNoError(t: nat, begin: nat, end: nat, mem: seq<int>, run: seq<World>)
    requires begin <= end <= |mem| && IsCleanRun(t, run) && run[0] == Call(begin, end, mem)
    ensures var w := run[|run| - 1];
      && Healthy(w.root) && |w.mem| == |mem|
      && (w.root.pc.Ended? ==>
            && w.root.pc == SUCCESS && AllDone(w.root)
            && Sorted(w.mem[begin..end]) && multiset(w.mem[begin..end]) == multiset(mem[begin..end]))
  {
    hide CleanStep, Step;
    CleanRunKeepsHealthy(t, run);
    CleanRunIsRun(t, run);
    SortedOnReturn(t, begin, end, mem, run);
  }

  // ----- every such call can return

  /** What qsort leaves, computed by merging. */
  function SortOf(s: seq<int>): (r: seq<int>)
    ensures |r| == |s|
    decreases |s|
  {
    if |s| < 2 then s else Merged(SortOf(s[..|s| / 2]), SortOf(s[|s| / 2..]))
  }

  lemma {:induction false} SortOfSorts(s: seq<int>)
    ensures IsSortOf(SortOf(s), s)
    decreases |s|
  {
    if |s| >= 2 {
      var n := |s| / 2;
      SortOfSorts(s[..n]);
      SortOfSorts(s[n..]);
      BothHalves(SortOf(s[..n]), SortOf(s[n..]), s, n);
    }
  }

  lemma QsortCanFinish(t: nat, p: Proc, m: seq<int>) returns (m': seq<int>)
    requires p.lo <= p.hi <= |m| && p.pc == Sorting && |p.orig| == p.hi - p.lo
    ensures Works(t, p, m, p, m') && |m'| == |m|
    ensures Works(t, p, m', p.(pc := SUCCESS), m')
  {
    hide SortOf;
    var r := SortOf(p.orig);
    SortOfSorts(p.orig);
    m' := m[..p.lo] + r + m[p.hi..];
    assert m'[..p.lo] == m[..p.lo] && m'[p.hi..] == m[p.hi..] && m'[p.lo..p.hi] == r;
    assert QsortWrites(p, m, p, m');
  }

  /** One action, after qsort has been left to finish if need be. */
  lemma {:induction false} CanGoOn(t: nat, p: Proc, m: seq<int>) returns (m1: seq<int>, p': Proc, m': seq<int>)
    requires Inv(t, p, m) && Healthy(p) && !p.pc.Ended?
    ensures m1 == m || CleanStep(t, p, m, p, m1)
    ensures CleanStep(t, p, m1, p', m') && p' != p
    decreases p
  {
    hide Merged, IsSortOf, AllDone, CompareI64;
    m1, p', m' := m, p, m;
    match p.pc
    case Entered =>
      p' := p.(pc := if p.hi - p.lo <= t then Sorting else if p.hi > p.lo then ForkLeft else SUCCESS);
    case Sorting =>
      m1 := QsortCanFinish(t, p, m);
      m', p' := m1, p.(pc := SUCCESS);
    case ForkLeft =>
      p' := p.(left := Forked(p.lo, Mid(p), m), pc := ForkRight);
    case ForkRight =>
      p' := p.(right := Forked(p.lo + (p.hi - p.lo) / 2, p.hi, m), pc := WaitLeft);
    case WaitLeft =>
      var l := p.left.proc;
      if l.pc.Ended? {
        p' := p.(pc := WaitRight);
      } else {
        var l';
        m1, l', m' := CanGoOn(t, l, m);
        p' := p.(left := Kid(l'));
      }
    case WaitRight =>
      var r := p.right.proc;
      if r.pc.Ended? {
        p' := p.(pc := Merging(p.lo, Mid(p), []));
      } else {
        var r';
        m1, r', m' := CanGoOn(t, r, m);
        p' := p.(right := Kid(r'));
      }
    case Merging(i, j, temp) =>
      p' := p.(pc := MergeNext(p, m, i, j, temp));
    case Copying(k, temp) =>
      if k < |temp| {
        m' := m[p.lo + k := temp[k]];
        p' := p.(pc := Copying(k + 1, temp));
      } else {
        p' := p.(pc := SUCCESS);
      }
  }

  lemma CleanRunCons(t: nat, w: World, run: seq<World>)
    requires IsCleanRun(t, run) && CleanStep(t, w.root, w.mem, run[0].root, run[0].mem)
    ensures IsCleanRun(t, [w] + run)
  {
    hide CleanStep;
    var r := [w] + run;
    assert forall i | 0 < i < |r| :: r[i] == run[i - 1];
  }

  /** From every healthy state of a call that must end, some continuation without failures returns. */
  lemma {:induction false} CanReturn(t: nat, p: Proc, m: seq<int>) returns (run: seq<World>)
    requires Ends(t, p) && Inv(t, p, m) && Healthy(p)
    ensures IsCleanRun(t, run) && run[0] == World(p, m) && run[|run| - 1].root.pc == SUCCESS
    decreases Rank(t, p)
  {
    hide Inv, Healthy, CleanStep, Step, Rank;
    if p.pc.Ended? {
      EndedHealthy(p);
      run := [World(p, m)];
    } else {
      var m1, p', m' := CanGoOn(t, p, m);
      if m1 != m {
        CleanIsStep(t, p, m, p, m1);
        StepKeepsInv(t, p, m, p, m1);
      }
      CleanIsStep(t, p, m1, p', m');
      StepKeepsInv(t, p, m1, p', m');
      CleanStepKeepsHealthy(t, p, m1, p', m');
      StepDecreasesRank(t, p, m1, p', m');
      RankNonNegative(t, p', m');
      var rest := CanReturn(t, p', m');
      CleanRunCons(t, World(p, m1), rest);
      run := [World(p, m1)] + rest;
      if m1 != m {
        CleanRunCons(t, World(p, m), run);
        run := [World(p, m)] + run;
      }
    }
  }

  lemma EndedHealthy(p: Proc)
    requires Healthy(p) && p.pc.Ended?
    ensures p.pc == SUCCESS
  {
  }

  /**
   Whatever a run without failures has done so far, it can be carried on to a normal return, for
   every threshold of at least 1 and for an empty range.
   */
  lemma CallCanReturn(t: nat, begin: nat, end: nat, mem: seq<int>, run: seq<World>) returns (rest: seq<World>)
    requires t >= 1 || begin == end
    requires begin <= end <= |mem| && IsCleanRun(t, run) && run[0] == Call(begin, end, mem)
    ensures IsCleanRun(t, rest) && rest[0] == run[|run| - 1]
    ensures var w := rest[|rest| - 1];
      && w.root.pc == SUCCESS && |w.mem| == |mem|
      && Sorted(w.mem[begin..end]) && multiset(w.mem[begin..end]) == multiset(mem[begin..end])
  {
    hide CleanStep, Step, Inv, Healthy;
    var w := run[|run| - 1];
    CleanRunIsRun(t, run);
    RunKeepsInv(t, begin, end, mem, run);
    NoFailureNoError(t, begin, end, mem, run);
    rest := CanReturn(t, w.root, w.mem);
    CleanRunJoin(t, run, rest);
    NoFailureNoError(t, begin, end, mem, run + rest[1..]);
    assert (run + rest[1..])[|run + rest[1..]| - 1] == rest[|rest| - 1];
  }

  lemma CleanRunJoin(t: nat, a: seq<World>, b: seq<World>)
    requires IsCleanRun(t, a) && IsCleanRun(t, b) && a[|a| - 1] == b[0]
    ensures IsCleanRun(t, a + b[1..])
  {
    hide CleanStep;
    var r := a + b[1..];
    forall i | 0 <= i < |r| - 1 ensures CleanStep(t, r[i].root, r[i].mem, r[i + 1].root, r[i + 1].mem) {
      if i < |a| - 1 {
        assert r[i] == a[i] && r[i + 1] == a[i + 1];
      } else {
        assert r[i] == b[i - (|a| - 1)] && r[i + 1] == b[i - (|a| - 1) + 1];
      }
    }
  }

  // ----- what a process does alone, and what its exit status says

  /** Which children a process has where, when it forks, and why it ended. */
  predicate Explained(t: nat, p: Proc) {
    var size := p.hi - p.lo;
    var both := p.left.Kid? && p.right.Kid?;
    var leftDone, rightDone := p.left.Kid? && p.left.proc.pc == SUCCESS, p.right.Kid? && p.right.proc.pc == SUCCESS;
    && p.lo <= p.hi && (p.left.Kid? || p.right.Kid? ==> size > t)
    && (p.left.Kid? ==> p.left.proc.lo == p.lo && p.left.proc.hi == Mid(p))
    && (p.right.Kid? ==> p.right.proc.lo == Mid(p) && p.right.proc.hi == p.hi)
    && match p.pc
       case Entered => KidsForked(p, false, false)
       case Sorting => KidsForked(p, false, false) && size <= t
       case ForkLeft => KidsForked(p, false, false) && size > t
       case ForkRight => KidsForked(p, true, false)
       case WaitLeft => both
       case WaitRight => both && leftDone
       case Merging(_, _, _) => both && leftDone && rightDone
       case Copying(_, _) => both && leftDone && rightDone
       case Ended(Crashed) => true
       case Ended(Exit(code)) =>
         || (code == 0 && (if size <= t then KidsForked(p, false, false) else both && leftDone && rightDone))
         || (code == 255 && KidsForked(p, false, false) && size > t)
         || (code == 1 && KidsForked(p, true, false))
         || (code == 254 && both)
         || (code == 253 && both && p.left.proc.pc == Ended(Crashed))
         || (code == 252 && both && p.left.proc.pc.Ended? && !leftDone && p.left.proc.pc != Ended(Crashed))
         || (code == 2 && both && leftDone)
         || (code == 3 && both && leftDone && p.right.proc.pc == Ended(Crashed))
         || (code == 4 && both && leftDone && p.right.proc.pc.Ended? && !rightDone && p.right.proc.pc != Ended(Crashed))
  }

  predicate AllExplained(t: nat, p: Proc) {
    && Explained(t, p)
    && (p.left.Kid? ==> AllExplained(t, p.left.proc))
    && (p.right.Kid? ==> AllExplained(t, p.right.proc))
  }

  lemma WorkKeepsExplained(t: nat, p: Proc, m: seq<int>, p': Proc, m': seq<int>)
    requires p.lo <= p.hi <= |m| && AllExplained(t, p) && Works(t, p, m, p', m')
    ensures AllExplained(t, p')
  {
    hide Merged, IsSortOf, CompareI64;
  }

  lemma FailureKeepsExplained(t: nat, p: Proc, p': Proc)
    requires AllExplained(t, p) && Fails(p, p')
    ensures AllExplained(t, p')
  {
  }

  /** A process that has ended stays so, with its status. */
  lemma EndedStays(t: nat, p: Proc, m: seq<int>, p': Proc, m': seq<int>)
    requires Step(t, p, m, p', m') && p.pc.Ended?
    ensures p'.pc == p.pc
  {
  }

  lemma StepKeepsRange(t: nat, p: Proc, m: seq<int>, p': Proc, m': seq<int>)
    requires Step(t, p, m, p', m')
    ensures p'.lo == p.lo && p'.hi == p.hi
  {
  }

  lemma {:induction false} StepKeepsExplained(t: nat, p: Proc, m: seq<int>, p': Proc, m': seq<int>)
    requires AllExplained(t, p) && Step(t, p, m, p', m')
    ensures AllExplained(t, p')
    decreases p
  {
    hide Works, Fails;
    if p.lo <= p.hi <= |m| && Works(t, p, m, p', m') {
      WorkKeepsExplained(t, p, m, p', m');
    } else if Fails(p, p') && m' == m {
      FailureKeepsExplained(t, p, p');
    } else if p.left.Kid? && p'.left.Kid? && p' == p.(left := p'.left)
           && Step(t, p.left.proc, m, p'.left.proc, m') {
      StepKeepsExplained(t, p.left.proc, m, p'.left.proc, m');
      StepKeepsRange(t, p.left.proc, m, p'.left.proc, m');
      if p.left.proc.pc.Ended? { EndedStays(t, p.left.proc, m, p'.left.proc, m'); }
    } else {
      StepKeepsExplained(t, p.right.proc, m, p'.right.proc, m');
      StepKeepsRange(t, p.right.proc, m, p'.right.proc, m');
      if p.right.proc.pc.Ended? { EndedStays(t, p.right.proc, m, p'.right.proc, m'); }
    }
  }

  /**
   After any run, failures included: only ranges above the threshold were split and only the others
   given to qsort, and the exit status of every process tells what it met.
   */
  lemma {:induction false} ExitStatusExplained(t: nat, begin: nat, end: nat, mem: seq<int>, run: seq<World>)
    requires begin <= end <= |mem| && IsRun(t, run) && run[0] == Call(begin, end, mem)
    ensures AllExplained(t, run[|run| - 1].root)
    decreases |run|
  {
    hide AllExplained, Step;
    if |run| == 1 {
      CallExplained(t, begin, end, mem);
    } else {
      var n := |run| - 2;
      assert IsRun(t, run[..n + 1]);
      ExitStatusExplained(t, begin, end, mem, run[..n + 1]);
      StepKeepsExplained(t, run[n].root, run[n].mem, run[n + 1].root, run[n + 1].mem);
    }
  }

  lemma CallExplained(t: nat, begin: nat, end: nat, mem: seq<int>)
    requires begin <= end <= |mem|
    ensures AllExplained(t, Call(begin, end, mem).root)
  {
  }

  // ----- exactly when a call can return

  /** With threshold 0 a non-empty range has a non-empty right half, and so on without end. */
  lemma {:induction false} EndlessNeverSucceeds(p: Proc)
    requires AllExplained(0, p) && p.lo < p.hi
    ensures p.pc != SUCCESS
    decreases p
  {
    if p.pc == SUCCESS { EndlessNeverSucceeds(p.right.proc); }
  }

  ghost predicate Returns(t: nat, begin: nat, end: nat, mem: seq<int>, run: seq<World>)
    requires begin <= end <= |mem|
  {
    IsCleanRun(t, run) && run[0] == Call(begin, end, mem) && run[|run| - 1].root.pc == SUCCESS
  }

  /** Some run returns exactly when the threshold is at least 1 or there is nothing to sort. */
  lemma CanReturnIff(t: nat, begin: nat, end: nat, mem: seq<int>)
    requires begin <= end <= |mem|
    ensures (exists run :: Returns(t, begin, end, mem, run)) <==> t >= 1 || begin == end
  {
    hide AllExplained, Step, CleanStep;
    if t >= 1 || begin == end {
      var rest := CallCanReturn(t, begin, end, mem, [Call(begin, end, mem)]);
      assert Returns(t, begin, end, mem, rest);
    } else {
      forall run: seq<World> | IsCleanRun(t, run) && run[0] == Call(begin, end, mem)
        ensures run[|run| - 1].root.pc != SUCCESS
      {
        CleanRunIsRun(t, run);
        ExitStatusExplained(t, begin, end, mem, run);
        RunKeepsInv(t, begin, end, mem, run);
        EndlessNeverSucceeds(run[|run| - 1].root);
      }
    }
  }
}
