/**
 What the cache simulator computes, on lists: a set is the list of its lines, order 0 first.
 The class Cache of CacheSim is proved against these functions, and the theorems about LRU,
 FIFO, cycles and set independence are proved about them.
 */
module CacheModel {

  datatype Config = Config(setNum: nat, blockNum: nat, byteNum: nat,
                           writeAllocate: bool, writeThrough: bool, lru: bool)

  datatype Line = Line(tag: nat, dirty: bool)

  /** One access of a trace, and the same access as the set it falls into sees it. */
  datatype Access = Access(store: bool, address: nat)
  datatype Op = Op(store: bool, tag: nat)

  datatype Counters = Counters(totalLoad: nat, totalStore: nat, loadHit: nat, loadMiss: nat,
                               storeHit: nat, storeMiss: nat, cycles: nat)

  datatype State = State(sets: seq<seq<Line>>, n: Counters)

  /** csim.cpp accepts a size of 0 as a power of two; the simulator needs at least 1 of each. */
  predicate Usable(c: Config) {
    c.setNum >= 1 && c.blockNum >= 1 && c.byteNum >= 1
  }

  // ----- address decoding

  function BlockOf(c: Config, address: nat): (b: nat)
    requires Usable(c)
  {
    address / c.byteNum
  }

  function SetOf(c: Config, address: nat): (s: nat)
    requires Usable(c)
    ensures s < c.setNum
  {
    BlockOf(c, address) % c.setNum
  }

  function TagOf(c: Config, address: nat): (t: nat)
    requires Usable(c)
  {
    BlockOf(c, address) / c.setNum
  }

  // ----- one set

  function Tags(l: seq<Line>): (s: seq<nat>)
    ensures |s| == |l|
  {
    seq(|l|, i requires 0 <= i < |l| => l[i].tag)
  }

  /** The order of a tag, or |l| when the tag is not in the set. */
  function Position(l: seq<Line>, tag: nat): (i: nat)
    ensures i <= |l|
    ensures i < |l| ==> l[i].tag == tag
    ensures forall j | 0 <= j < i :: l[j].tag != tag
  {
    if l == [] then 0
    else if l[0].tag == tag then 0
    else 1 + Position(l[1..], tag)
  }

  predicate Hit(l: seq<Line>, tag: nat) {
    Position(l, tag) < |l|
  }

  function Touched(l: seq<Line>, tag: nat): (l': seq<Line>)
    requires Hit(l, tag)
    ensures |l'| == |l|
  {
    var i := Position(l, tag);
    [l[i]] + l[..i] + l[i + 1..]
  }

  function Marked(l: seq<Line>, tag: nat): (l': seq<Line>)
    requires Hit(l, tag)
    ensures |l'| == |l|
  {
    var i := Position(l, tag);
    l[i := l[i].(dirty := true)]
  }

  /** A full set gives up its last line. */
  function Kept(c: Config, l: seq<Line>): (l': seq<Line>)
    requires Usable(c)
  {
    if |l| == c.blockNum then l[..|l| - 1] else l
  }

  predicate EvictsDirty(c: Config, l: seq<Line>)
    requires Usable(c)
  {
    |l| == c.blockNum && l[|l| - 1].dirty
  }

  /** A miss brings its block in, unless it is a store without write-allocate. */
  predicate Fetches(c: Config, l: seq<Line>, op: Op) {
    !Hit(l, op.tag) && (op.store ==> c.writeAllocate)
  }

  /** A store leaves the block dirty under write-back. */
  predicate Dirties(c: Config, op: Op) {
    op.store && !c.writeThrough
  }

  function SetStep(c: Config, l: seq<Line>, op: Op): (l': seq<Line>)
    requires Usable(c)
  {
    if Hit(l, op.tag) then
      var marked := if Dirties(c, op) then Marked(l, op.tag) else l;
      MarkedPosition(l, op.tag);
      if c.lru then Touched(marked, op.tag) else marked
    else if Fetches(c, l, op) then [Line(op.tag, Dirties(c, op))] + Kept(c, l)
    else l
  }

  lemma MarkedPosition(l: seq<Line>, tag: nat)
    requires Hit(l, tag)
    ensures Hit(Marked(l, tag), tag)
    ensures Position(Marked(l, tag), tag) == Position(l, tag)
  {
    var i, m := Position(l, tag), Marked(l, tag);
    assert m[i].tag == tag && forall j | 0 <= j < i :: m[j].tag == l[j].tag;
  }

  function Cost(c: Config, l: seq<Line>, op: Op): (cycles: nat)
    requires Usable(c)
  {
    var memory := 25 * c.byteNum;
    var eviction := if EvictsDirty(c, l) then memory else 0;
    if Hit(l, op.tag) then 1 + if op.store && c.writeThrough then 100 else 0
    else if !op.store then eviction + memory
    else if c.writeAllocate then memory + eviction + 1 + if c.writeThrough then 100 else 0
    else 100
  }

  function Count(c: Config, n: Counters, l: seq<Line>, op: Op): (n': Counters)
    requires Usable(c)
  {
    var hit := Hit(l, op.tag);
    n.(totalLoad := n.totalLoad + if op.store then 0 else 1,
       totalStore := n.totalStore + if op.store then 1 else 0,
       loadHit := n.loadHit + if !op.store && hit then 1 else 0,
       loadMiss := n.loadMiss + if !op.store && !hit then 1 else 0,
       storeHit := n.storeHit + if op.store && hit then 1 else 0,
       storeMiss := n.storeMiss + if op.store && !hit then 1 else 0,
       cycles := n.cycles + Cost(c, l, op))
  }

  // ----- the whole cache

  const ZERO := Counters(0, 0, 0, 0, 0, 0, 0)

  function Empty(c: Config): (s: State)
    ensures |s.sets| == c.setNum
  {
    State(seq(c.setNum, i => []), ZERO)
  }

  function OpOf(c: Config, a: Access): (op: Op)
    requires Usable(c)
  {
    Op(a.store, TagOf(c, a.address))
  }

  function Step(c: Config, s: State, a: Access): (s': State)
    requires Usable(c) && |s.sets| == c.setNum
    ensures |s'.sets| == c.setNum
  {
    var i, op := SetOf(c, a.address), OpOf(c, a);
    State(s.sets[i := SetStep(c, s.sets[i], op)], Count(c, s.n, s.sets[i], op))
  }

  /** The state after a trace. */
  function Run(c: Config, trace: seq<Access>): (s: State)
    requires Usable(c)
    ensures |s.sets| == c.setNum
  {
    if trace == [] then Empty(c)
    else Step(c, Run(c, trace[..|trace| - 1]), trace[|trace| - 1])
  }

  // ----- invariants of a set

  predicate DistinctTags(l: seq<Line>) {
    forall i, j | 0 <= i < j < |l| :: l[i].tag != l[j].tag
  }

  predicate SetInv(c: Config, l: seq<Line>) {
    && |l| <= c.blockNum
    && DistinctTags(l)
    && (c.writeThrough ==> forall i | 0 <= i < |l| :: !l[i].dirty)
  }

  lemma PositionInTags(l: seq<Line>, tag: nat)
    ensures Hit(l, tag) <==> tag in Tags(l)
  {
    if Hit(l, tag) { assert Tags(l)[Position(l, tag)] == tag; }
  }

  lemma TouchedDistinct(l: seq<Line>, tag: nat)
    requires DistinctTags(l) && Hit(l, tag)
    ensures DistinctTags(Touched(l, tag))
  {
    var i, t := Position(l, tag), Touched(l, tag);
    assert forall j | 0 <= j < |t| :: t[j] == l[if j == 0 then i else if j <= i then j - 1 else j];
  }

  lemma SetStepInv(c: Config, l: seq<Line>, op: Op)
    requires Usable(c) && SetInv(c, l)
    ensures SetInv(c, SetStep(c, l, op))
  {
    if Hit(l, op.tag) {
      MarkedPosition(l, op.tag);
      var marked := if Dirties(c, op) then Marked(l, op.tag) else l;
      assert DistinctTags(marked);
      TouchedDistinct(marked, op.tag);
    } else {
      var l' := [Line(op.tag, Dirties(c, op))] + Kept(c, l);
      assert forall j | 0 < j < |l'| :: l'[j] == l[j - 1];
      assert DistinctTags(l');
    }
  }

  lemma {:induction false} RunInv(c: Config, trace: seq<Access>)
    requires Usable(c)
    ensures forall i | 0 <= i < c.setNum :: SetInv(c, Run(c, trace).sets[i])
  {
    if trace != [] {
      RunInv(c, trace[..|trace| - 1]);
      var s, a := Run(c, trace[..|trace| - 1]), trace[|trace| - 1];
      SetStepInv(c, s.sets[SetOf(c, a.address)], OpOf(c, a));
    }
  }
}
