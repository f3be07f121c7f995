/**
 LRU inclusion: a cache with more ways holds everything that one with fewer ways holds, in the
 same order, under write-allocate and under no-write-allocate.
 */
module CacheInclusion {
  import opened CacheModel
  import opened CacheSets
  import opened CacheLru

  /** s is t with some elements left out. */
  predicate Subsequence(s: seq<nat>, t: seq<nat>) {
    s == [] || (t != [] && ((s[0] == t[0] && Subsequence(s[1..], t[1..])) || Subsequence(s, t[1..])))
  }

  lemma {:induction false} SubsequenceRefl(s: seq<nat>)
    ensures Subsequence(s, s)
  {
    if s != [] { SubsequenceRefl(s[1..]); }
  }

  lemma {:induction false} SubsequenceSize(s: seq<nat>, t: seq<nat>)
    requires Subsequence(s, t)
    ensures |s| <= |t|
    ensures |s| == |t| ==> s == t
    ensures forall x | x in s :: x in t
    decreases |t|
  {
    if s != [] {
      if s[0] == t[0] && Subsequence(s[1..], t[1..]) {
        SubsequenceSize(s[1..], t[1..]);
        assert s == [s[0]] + s[1..] && t == [t[0]] + t[1..];
      } else {
        SubsequenceSize(s, t[1..]);
      }
    }
  }

  lemma {:induction false} SubsequenceWithout(s: seq<nat>, t: seq<nat>, x: nat)
    requires Subsequence(s, t)
    ensures Subsequence(Without(s, x), Without(t, x))
    decreases |t|
  {
    if s != [] {
      if s[0] == t[0] && Subsequence(s[1..], t[1..]) {
        SubsequenceWithout(s[1..], t[1..], x);
      } else {
        SubsequenceWithout(s, t[1..], x);
      }
    }
  }

  lemma SubsequenceCons(x: nat, s: seq<nat>, t: seq<nat>)
    requires Subsequence(s, t)
    ensures Subsequence([x] + s, [x] + t)
    ensures Subsequence(s, [x] + t)
  {
    assert ([x] + s)[1..] == s && ([x] + t)[1..] == t;
  }

  lemma {:induction false} SubsequenceInit(s: seq<nat>, t: seq<nat>)
    requires Subsequence(s, t) && s != []
    ensures t != []
    ensures Subsequence(s[..|s| - 1], t[..|t| - 1])
    ensures Subsequence(s[..|s| - 1], t)
    decreases |t|
  {
    if |s| > 1 {
      var s', t' := s[..|s| - 1], t[..|t| - 1];
      SubsequenceSize(s, t);
      if s[0] == t[0] && Subsequence(s[1..], t[1..]) {
        SubsequenceInit(s[1..], t[1..]);
        assert s'[1..] == s[1..][..|s| - 2] && t'[1..] == t[1..][..|t| - 2];
      } else {
        SubsequenceSize(s, t[1..]);
        SubsequenceInit(s, t[1..]);
        assert t'[1..] == t[1..][..|t| - 2];
      }
    }
  }

  /** The tags of one set in a small cache and in a large one. */
  ghost predicate Included(k: nat, s: seq<nat>, t: seq<nat>) {
    && Distinct(s) && Distinct(t)
    && Subsequence(s, t)
    && (|s| < k ==> s == t)
  }

  lemma StepDistinct(c: Config, s: seq<nat>, op: Op)
    requires Usable(c) && Distinct(s) && |s| <= c.blockNum
    ensures Distinct(TagStep(c, s, op)) && |TagStep(c, s, op)| <= c.blockNum
  {
    WithoutDistinct(s, op.tag);
    WithoutElements(s, op.tag);
    assert op.tag !in Elements(Without(s, op.tag));
  }

  lemma IncludedStep(c: Config, d: Config, s: seq<nat>, t: seq<nat>, op: Op)
    requires Usable(c) && Usable(d) && c.lru && d == c.(blockNum := d.blockNum) && c.blockNum <= d.blockNum
    requires |s| <= c.blockNum && |t| <= d.blockNum && Included(c.blockNum, s, t)
    ensures Included(c.blockNum, TagStep(c, s, op), TagStep(d, t, op))
  {
    hide Distinct;
    var x := op.tag;
    StepDistinct(c, s, op);
    StepDistinct(d, t, op);
    SubsequenceSize(s, t);
    SubsequenceWithout(s, t, x);
    WithoutDistinct(s, x);
    if x in s {
      SubsequenceCons(x, Without(s, x), Without(t, x));
    } else if x in t {
      WithoutAbsent(s, x);
      SubsequenceInit(s, Without(t, x));
      SubsequenceCons(x, s, Without(t, x));
      SubsequenceCons(x, s[..|s| - 1], Without(t, x));
    } else if |s| == c.blockNum {
      SubsequenceInit(s, t);
      SubsequenceCons(x, s[..|s| - 1], t[..|t| - 1]);
      SubsequenceCons(x, s[..|s| - 1], t);
    } else {
      SubsequenceRefl([x] + s);
    }
  }

  lemma {:induction false} IncludedRun(c: Config, d: Config, ops: seq<Op>)
    requires Usable(c) && Usable(d) && c.lru && d == c.(blockNum := d.blockNum) && c.blockNum <= d.blockNum
    ensures Included(c.blockNum, TagRun(c, ops), TagRun(d, ops))
  {
    if ops != [] {
      var before := ops[..|ops| - 1];
      IncludedRun(c, d, before);
      SetRunInv(c, before);
      SetRunInv(d, before);
      IncludedStep(c, d, TagRun(c, before), TagRun(d, before), ops[|ops| - 1]);
    }
  }

  /** Every set of the cache with fewer ways is a subsequence of the same set with more ways. */
  lemma Inclusion(c: Config, d: Config, trace: seq<Access>, s: nat)
    requires Usable(c) && Usable(d) && c.lru && d == c.(blockNum := d.blockNum) && c.blockNum <= d.blockNum
    requires s < c.setNum
    ensures Subsequence(Tags(Run(c, trace).sets[s]), Tags(Run(d, trace).sets[s]))
  {
    TagsAfterTrace(c, trace, s);
    TagsAfterTrace(d, trace, s);
    SameOps(c, d, trace, s);
    IncludedRun(c, d, OpsFor(c, trace, s));
  }

  lemma {:induction false} SameOps(c: Config, d: Config, trace: seq<Access>, s: nat)
    requires Usable(c) && Usable(d) && d == c.(blockNum := d.blockNum)
    ensures OpsFor(c, trace, s) == OpsFor(d, trace, s)
  {
    if trace != [] { SameOps(c, d, trace[..|trace| - 1], s); }
  }

  /** So more ways never cost a load hit or a store hit. */
  lemma {:induction false} MoreWaysMoreHits(c: Config, d: Config, trace: seq<Access>)
    requires Usable(c) && Usable(d) && c.lru && d == c.(blockNum := d.blockNum) && c.blockNum <= d.blockNum
    ensures Run(c, trace).n.loadHit <= Run(d, trace).n.loadHit
    ensures Run(c, trace).n.storeHit <= Run(d, trace).n.storeHit
  {
    if trace != [] {
      var before, a := trace[..|trace| - 1], trace[|trace| - 1];
      MoreWaysMoreHits(c, d, before);
      var s := SetOf(c, a.address);
      Inclusion(c, d, before, s);
      SubsequenceSize(Tags(Run(c, before).sets[s]), Tags(Run(d, before).sets[s]));
      PositionInTags(Run(c, before).sets[s], TagOf(c, a.address));
      PositionInTags(Run(d, before).sets[s], TagOf(d, a.address));
      hide Hit, Cost, SetStep;
    }
  }
}
