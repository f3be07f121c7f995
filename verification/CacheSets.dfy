/**
 The sets of a cache do not interfere, and the tags of a set, read by order, are what the
 replacement policy alone decides.
 */
module CacheSets {
  import opened Words
  import opened CacheModel

  // ----- set independence

  /** The operations of a trace that fall into set s. */
  function OpsFor(c: Config, trace: seq<Access>, s: nat): (ops: seq<Op>)
    requires Usable(c)
  {
    if trace == [] then []
    else
      var last := trace[|trace| - 1];
      OpsFor(c, trace[..|trace| - 1], s) + if SetOf(c, last.address) == s then [OpOf(c, last)] else []
  }

  /** One set on its own. */
  function SetRun(c: Config, ops: seq<Op>): (l: seq<Line>)
    requires Usable(c)
  {
    if ops == [] then []
    else SetStep(c, SetRun(c, ops[..|ops| - 1]), ops[|ops| - 1])
  }

  lemma {:induction false} SetIndependence(c: Config, trace: seq<Access>, s: nat)
    requires Usable(c) && s < c.setNum
    ensures Run(c, trace).sets[s] == SetRun(c, OpsFor(c, trace, s))
  {
    if trace != [] {
      var before, last := trace[..|trace| - 1], trace[|trace| - 1];
      SetIndependence(c, before, s);
      var ops := OpsFor(c, trace, s);
      if SetOf(c, last.address) == s {
        assert ops[..|ops| - 1] == OpsFor(c, before, s);
      } else {
        assert ops == OpsFor(c, before, s);
      }
    }
  }

  /** The accesses that fall into set s, at the addresses that have the same tags in a cache of one set. */
  function Readdressed(c: Config, trace: seq<Access>, s: nat): (t: seq<Access>)
    requires Usable(c)
  {
    if trace == [] then []
    else
      var last := trace[|trace| - 1];
      Readdressed(c, trace[..|trace| - 1], s)
      + if SetOf(c, last.address) == s then [Access(last.store, TagOf(c, last.address) * c.byteNum)] else []
  }

  lemma ReaddressedTag(c: Config, tag: nat)
    requires Usable(c)
    ensures var c1 := c.(setNum := 1); SetOf(c1, tag * c.byteNum) == 0 && TagOf(c1, tag * c.byteNum) == tag
  {
    DivModUnique(tag * c.byteNum, c.byteNum, tag, 0);
  }

  lemma SameSetStep(c: Config, l: seq<Line>, op: Op)
    requires Usable(c)
    ensures SetStep(c.(setNum := 1), l, op) == SetStep(c, l, op)
  {
  }

  /** Set s holds what a one-set cache holds after just the accesses that fall into set s. */
  lemma {:induction false} OneSetCache(c: Config, trace: seq<Access>, s: nat)
    requires Usable(c) && s < c.setNum
    ensures Run(c.(setNum := 1), Readdressed(c, trace, s)).sets == [Run(c, trace).sets[s]]
  {
    hide SetStep, TagOf, SetOf, Count;
    var c1 := c.(setNum := 1);
    if trace != [] {
      var before, last := trace[..|trace| - 1], trace[|trace| - 1];
      OneSetCache(c, before, s);
      var t := Readdressed(c, trace, s);
      if SetOf(c, last.address) == s {
        assert t[..|t| - 1] == Readdressed(c, before, s);
        ReaddressedTag(c, TagOf(c, last.address));
        SameSetStep(c, Run(c, before).sets[s], OpOf(c, last));
      } else {
        assert t == Readdressed(c, before, s);
      }
    }
  }

  // ----- the tags of a set

  function Without(s: seq<nat>, x: nat): (r: seq<nat>) {
    if s == [] then []
    else if s[0] == x then Without(s[1..], x)
    else [s[0]] + Without(s[1..], x)
  }

  /** What an operation does to the tags of a set, read by order. */
  function TagStep(c: Config, s: seq<nat>, op: Op): (s': seq<nat>)
    requires Usable(c)
  {
    if op.tag in s then (if c.lru then [op.tag] + Without(s, op.tag) else s)
    else if op.store && !c.writeAllocate then s
    else [op.tag] + if |s| == c.blockNum then s[..|s| - 1] else s
  }

  function TagRun(c: Config, ops: seq<Op>): (s: seq<nat>)
    requires Usable(c)
  {
    if ops == [] then []
    else TagStep(c, TagRun(c, ops[..|ops| - 1]), ops[|ops| - 1])
  }

  lemma {:induction false} WithoutAbsent(s: seq<nat>, x: nat)
    requires x !in s
    ensures Without(s, x) == s
  {
    if s != [] { WithoutAbsent(s[1..], x); }
  }

  lemma {:induction false} WithoutOne(a: seq<nat>, x: nat, b: seq<nat>)
    requires x !in a && x !in b
    ensures Without(a + [x] + b, x) == a + b
  {
    var s := a + [x] + b;
    if a == [] {
      assert s[1..] == b;
      WithoutAbsent(b, x);
      assert a + b == b;
    } else {
      assert s[1..] == a[1..] + [x] + b;
      WithoutOne(a[1..], x, b);
    }
  }

  lemma TagsOfTouched(l: seq<Line>, tag: nat)
    requires DistinctTags(l) && Hit(l, tag)
    ensures Tags(Touched(l, tag)) == [tag] + Without(Tags(l), tag)
  {
    var i := Position(l, tag);
    var a, b := Tags(l[..i]), Tags(l[i + 1..]);
    assert Tags(l) == a + [tag] + b;
    assert tag !in b;
    WithoutOne(a, tag, b);
    assert Tags(Touched(l, tag)) == [tag] + (a + b);
  }

  lemma TagsOfMarked(l: seq<Line>, tag: nat)
    requires DistinctTags(l) && Hit(l, tag)
    ensures Tags(Marked(l, tag)) == Tags(l) && DistinctTags(Marked(l, tag)) && Hit(Marked(l, tag), tag)
  {
    MarkedPosition(l, tag);
    assert forall i | 0 <= i < |l| :: Marked(l, tag)[i].tag == l[i].tag;
  }

  lemma TagsOfStep(c: Config, l: seq<Line>, op: Op)
    requires Usable(c) && SetInv(c, l)
    ensures Tags(SetStep(c, l, op)) == TagStep(c, Tags(l), op)
  {
    hide Touched, Marked, Position, DistinctTags;
    PositionInTags(l, op.tag);
    if Hit(l, op.tag) {
      TagsOfMarked(l, op.tag);
      TagsOfTouched(if Dirties(c, op) then Marked(l, op.tag) else l, op.tag);
    } else if Fetches(c, l, op) {
      assert Tags(Kept(c, l)) == if |l| == c.blockNum then Tags(l)[..|l| - 1] else Tags(l);
    }
  }

  lemma {:induction false} SetRunInv(c: Config, ops: seq<Op>)
    requires Usable(c)
    ensures SetInv(c, SetRun(c, ops))
    ensures Tags(SetRun(c, ops)) == TagRun(c, ops)
  {
    if ops != [] {
      SetRunInv(c, ops[..|ops| - 1]);
      SetStepInv(c, SetRun(c, ops[..|ops| - 1]), ops[|ops| - 1]);
      TagsOfStep(c, SetRun(c, ops[..|ops| - 1]), ops[|ops| - 1]);
    }
  }

  /** The tags of a set of the cache after a trace. */
  lemma TagsAfterTrace(c: Config, trace: seq<Access>, s: nat)
    requires Usable(c) && s < c.setNum
    ensures Tags(Run(c, trace).sets[s]) == TagRun(c, OpsFor(c, trace, s))
  {
    SetIndependence(c, trace, s);
    SetRunInv(c, OpsFor(c, trace, s));
  }
}
