/**
 Where the cycles of a run come from, and what happens to dirty blocks.
 */
module CacheCycles {
  import opened CacheModel

  // ----- counting events of a run

  /** Whether access a evicts a dirty block from state s. */
  predicate WritesBack(c: Config, s: State, a: Access)
    requires Usable(c) && |s.sets| == c.setNum
  {
    var l := s.sets[SetOf(c, a.address)];
    Fetches(c, l, OpOf(c, a)) && EvictsDirty(c, l)
  }

  /** Whether access a makes a block dirty that was clean or absent. */
  predicate MakesDirty(c: Config, s: State, a: Access)
    requires Usable(c) && |s.sets| == c.setNum
  {
    var l, op := s.sets[SetOf(c, a.address)], OpOf(c, a);
    && Dirties(c, op)
    && (Hit(l, op.tag) || c.writeAllocate)
    && (Hit(l, op.tag) ==> !l[Position(l, op.tag)].dirty)
  }

  function DirtyEvictions(c: Config, trace: seq<Access>): (w: nat)
    requires Usable(c)
  {
    if trace == [] then 0
    else
      var before := trace[..|trace| - 1];
      DirtyEvictions(c, before) + if WritesBack(c, Run(c, before), trace[|trace| - 1]) then 1 else 0
  }

  function MadeDirty(c: Config, trace: seq<Access>): (d: nat)
    requires Usable(c)
  {
    if trace == [] then 0
    else
      var before := trace[..|trace| - 1];
      MadeDirty(c, before) + if MakesDirty(c, Run(c, before), trace[|trace| - 1]) then 1 else 0
  }

  // ----- cycles

  function Times(m: nat, n: nat): (p: nat) {
    m * n
  }

  lemma OneMore(m: nat, n: nat)
    ensures Times(m, n + 1) == Times(m, n) + m
  {
  }

  function StoreHitCost(c: Config): (cycles: nat) {
    if c.writeThrough then 101 else 1
  }

  function StoreMissCost(c: Config): (cycles: nat) {
    if c.writeAllocate then 25 * c.byteNum + StoreHitCost(c) else 100
  }

  /** What counters and write-backs cost altogether. */
  function Bill(c: Config, n: Counters, w: nat): (cycles: nat) {
    n.loadHit + Times(25 * c.byteNum, n.loadMiss) + Times(StoreHitCost(c), n.storeHit)
    + Times(StoreMissCost(c), n.storeMiss) + Times(25 * c.byteNum, w)
  }

  lemma BillOfStep(c: Config, n: Counters, w: nat, l: seq<Line>, op: Op)
    requires Usable(c)
    ensures var w' := w + if Fetches(c, l, op) && EvictsDirty(c, l) then 1 else 0;
      Bill(c, Count(c, n, l, op), w') == Bill(c, n, w) + Cost(c, l, op)
  {
    hide Times, Position;
    OneMore(25 * c.byteNum, n.loadMiss);
    OneMore(StoreHitCost(c), n.storeHit);
    OneMore(StoreMissCost(c), n.storeMiss);
    OneMore(25 * c.byteNum, w);
  }

  lemma {:induction false} CyclesAreBilled(c: Config, trace: seq<Access>)
    requires Usable(c)
    ensures Run(c, trace).n.cycles == Bill(c, Run(c, trace).n, DirtyEvictions(c, trace))
  {
    hide Times;
    if trace == [] {
      NothingToPay(25 * c.byteNum);
      NothingToPay(StoreHitCost(c));
      NothingToPay(StoreMissCost(c));
    } else {
      var before, a := trace[..|trace| - 1], trace[|trace| - 1];
      CyclesAreBilled(c, before);
      var l, op := Run(c, before).sets[SetOf(c, a.address)], OpOf(c, a);
      BillOfStep(c, Run(c, before).n, DirtyEvictions(c, before), l, op);
      hide Bill, SetStep, Cost, SetOf;
    }
  }

  lemma NothingToPay(m: nat)
    ensures Times(m, 0) == 0
  {
  }

  /** Every cycle is accounted for, under each combination of the write policies. */
  lemma CycleAccount(c: Config, trace: seq<Access>)
    requires Usable(c)
    ensures var n, memory, w := Run(c, trace).n, 25 * c.byteNum, DirtyEvictions(c, trace);
      n.cycles == n.loadHit
                  + memory * n.loadMiss
                  + (if c.writeThrough then 101 else 1) * n.storeHit
                  + (if c.writeAllocate then memory + (if c.writeThrough then 101 else 1) else 100) * n.storeMiss
                  + memory * w
  {
    CyclesAreBilled(c, trace);
    hide Run, DirtyEvictions;
  }

  /** Every access is counted once as a load or store and once as a hit or miss. */
  lemma {:induction false} AccessCounts(c: Config, trace: seq<Access>)
    requires Usable(c)
    ensures var n := Run(c, trace).n;
      && n.totalLoad + n.totalStore == |trace|
      && n.loadHit + n.loadMiss == n.totalLoad
      && n.storeHit + n.storeMiss == n.totalStore
  {
    if trace != [] {
      AccessCounts(c, trace[..|trace| - 1]);
      hide Cost, SetStep, Hit, SetOf;
    }
  }

  /** The write-back configuration that csim.cpp allows. */
  lemma WriteBackCycles(c: Config, trace: seq<Access>)
    requires Usable(c) && c.writeAllocate && !c.writeThrough
    ensures var n := Run(c, trace).n;
      n.cycles == n.loadHit + n.storeHit + n.storeMiss
                  + 25 * c.byteNum * (n.loadMiss + n.storeMiss + DirtyEvictions(c, trace))
  {
    hide Run, DirtyEvictions;
    CycleAccount(c, trace);
    var n := Run(c, trace).n;
    Collect(25 * c.byteNum, n.loadMiss, n.storeMiss, DirtyEvictions(c, trace));
  }

  lemma Collect(m: nat, a: nat, b: nat, w: nat)
    ensures m * (a + b + w) == m * a + m * b + m * w
    ensures (m + 1) * b == m * b + b
  {
  }

  lemma {:induction false} NoDirtyEvictions(c: Config, trace: seq<Access>)
    requires Usable(c) && c.writeThrough
    ensures DirtyEvictions(c, trace) == 0 && MadeDirty(c, trace) == 0
  {
    if trace != [] {
      NoDirtyEvictions(c, trace[..|trace| - 1]);
      RunInv(c, trace[..|trace| - 1]);
    }
  }

  /** Under write-through no block is ever dirty and nothing is written back. */
  lemma WriteThroughCycles(c: Config, trace: seq<Access>)
    requires Usable(c) && c.writeThrough
    ensures var n := Run(c, trace).n;
      n.cycles == n.loadHit + 25 * c.byteNum * n.loadMiss + 101 * n.storeHit
                  + (if c.writeAllocate then 25 * c.byteNum + 101 else 100) * n.storeMiss
    ensures forall s, i | 0 <= s < c.setNum && 0 <= i < |Run(c, trace).sets[s]| :: !Run(c, trace).sets[s][i].dirty
  {
    CycleAccount(c, trace);
    NoDirtyEvictions(c, trace);
    RunInv(c, trace);
  }

  // ----- dirty blocks

  function DirtyLines(l: seq<Line>): (d: nat) {
    if l == [] then 0
    else DirtyLines(l[..|l| - 1]) + if l[|l| - 1].dirty then 1 else 0
  }

  function DirtyBlocks(sets: seq<seq<Line>>): (d: nat) {
    if sets == [] then 0
    else DirtyBlocks(sets[..|sets| - 1]) + DirtyLines(sets[|sets| - 1])
  }

  lemma {:induction false} DirtyConcat(a: seq<Line>, b: seq<Line>)
    ensures DirtyLines(a + b) == DirtyLines(a) + DirtyLines(b)
  {
    if b == [] {
      assert a + b == a;
    } else {
      assert (a + b)[..|a + b| - 1] == a + b[..|b| - 1];
      DirtyConcat(a, b[..|b| - 1]);
    }
  }

  lemma DirtyAround(a: seq<Line>, x: Line, b: seq<Line>)
    ensures DirtyLines(a + [x] + b) == DirtyLines(a) + DirtyLines(b) + if x.dirty then 1 else 0
    ensures DirtyLines([x] + a + b) == DirtyLines(a) + DirtyLines(b) + if x.dirty then 1 else 0
  {
    DirtyConcat(a + [x], b);
    DirtyConcat(a, [x]);
    DirtyConcat([x] + a, b);
    DirtyConcat([x], a);
    assert [x][..0] == [];
  }

  lemma DirtyAfterHit(c: Config, l: seq<Line>, op: Op)
    requires Usable(c) && Hit(l, op.tag)
    ensures DirtyLines(SetStep(c, l, op))
         == DirtyLines(l) + if Dirties(c, op) && !l[Position(l, op.tag)].dirty then 1 else 0
  {
    var i := Position(l, op.tag);
    var a, b := l[..i], l[i + 1..];
    var x := l[i];
    var x' := if Dirties(c, op) then x.(dirty := true) else x;
    assert l == a + [x] + b;
    MarkedPosition(l, op.tag);
    assert SetStep(c, l, op) == if c.lru then [x'] + a + b else a + [x'] + b;
    DirtyAround(a, x, b);
    DirtyAround(a, x', b);
  }

  lemma DirtyAfterFetch(c: Config, l: seq<Line>, op: Op)
    requires Usable(c) && Fetches(c, l, op)
    ensures DirtyLines(SetStep(c, l, op)) + (if EvictsDirty(c, l) then 1 else 0)
         == DirtyLines(l) + if Dirties(c, op) then 1 else 0
  {
    var x := Line(op.tag, Dirties(c, op));
    DirtyConcat([x], Kept(c, l));
    assert [x][..0] == [];
  }

  lemma {:induction false} DirtyUpdate(sets: seq<seq<Line>>, i: nat, l: seq<Line>)
    requires i < |sets|
    ensures DirtyBlocks(sets[i := l]) + DirtyLines(sets[i]) == DirtyBlocks(sets) + DirtyLines(l)
  {
    var n := |sets| - 1;
    if i == n {
      assert sets[i := l][..n] == sets[..n];
    } else {
      assert sets[i := l][..n] == sets[..n][i := l];
      DirtyUpdate(sets[..n], i, l);
    }
  }

  lemma {:induction false} NoneDirtyAtFirst(sets: seq<seq<Line>>)
    requires forall i | 0 <= i < |sets| :: sets[i] == []
    ensures DirtyBlocks(sets) == 0
  {
    if sets != [] { NoneDirtyAtFirst(sets[..|sets| - 1]); }
  }

  lemma DirtyAfterStep(c: Config, s: State, a: Access)
    requires Usable(c) && |s.sets| == c.setNum
    ensures DirtyBlocks(Step(c, s, a).sets) + (if WritesBack(c, s, a) then 1 else 0)
         == DirtyBlocks(s.sets) + if MakesDirty(c, s, a) then 1 else 0
  {
    var i, op := SetOf(c, a.address), OpOf(c, a);
    var l := s.sets[i];
    DirtyUpdate(s.sets, i, SetStep(c, l, op));
    if Hit(l, op.tag) {
      DirtyAfterHit(c, l, op);
    } else if Fetches(c, l, op) {
      DirtyAfterFetch(c, l, op);
    }
  }

  /** Each time a block became dirty it was later written back, or it is still dirty in the cache. */
  lemma {:induction false} DirtyConservation(c: Config, trace: seq<Access>)
    requires Usable(c)
    ensures DirtyEvictions(c, trace) + DirtyBlocks(Run(c, trace).sets) == MadeDirty(c, trace)
    ensures MadeDirty(c, trace) <= Run(c, trace).n.totalStore
  {
    if trace == [] {
      NoneDirtyAtFirst(Empty(c).sets);
    } else {
      hide DirtyBlocks, SetStep, Cost, WritesBack, Hit, Fetches;
      DirtyConservation(c, trace[..|trace| - 1]);
      DirtyAfterStep(c, Run(c, trace[..|trace| - 1]), trace[|trace| - 1]);
    }
  }
}
