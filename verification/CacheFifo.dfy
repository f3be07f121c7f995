/** When a FIFO cache with more ways holds everything that one with fewer ways holds. */
module CacheFifo {
  import opened Words
  import opened CacheModel
  import opened CacheSets
  import opened CacheLru
  import opened CacheInclusion

  /** The same cache with at least as many ways. */
  predicate Widens(c: Config, d: Config) {
    Usable(c) && Usable(d) && !c.lru && d == c.(blockNum := d.blockNum) && c.blockNum <= d.blockNum
  }

  /** Every tag that set s holds in the narrow cache it holds in the wide one. */
  ghost predicate Contained(c: Config, d: Config, trace: seq<Access>, s: nat)
    requires Widens(c, d) && s < c.setNum
  {
    forall x | x in Tags(Run(c, trace).sets[s]) :: x in Tags(Run(d, trace).sets[s])
  }

  ghost predicate InOrder(c: Config, d: Config, trace: seq<Access>, s: nat)
    requires Widens(c, d) && s < c.setNum
  {
    Subsequence(Tags(Run(c, trace).sets[s]), Tags(Run(d, trace).sets[s]))
  }

  /** All tags of the trace are below a bound; 32-bit addresses have tags below 2^tagLen. */
  ghost predicate Below(c: Config, trace: seq<Access>, tags: nat)
    requires Usable(c)
  {
    forall a | a in trace :: TagOf(c, a.address) < tags
  }

  // ----- inclusion holds

  /** One way holds the tag fetched last, which nothing has pushed out of more ways. */
  lemma {:induction false} OneWayContained(c: Config, d: Config, ops: seq<Op>)
    requires Widens(c, d) && c.blockNum == 1
    ensures |TagRun(c, ops)| <= 1
    ensures forall x | x in TagRun(c, ops) :: x in TagRun(d, ops)
  {
    if ops != [] { OneWayContained(c, d, ops[..|ops| - 1]); }
  }

  /** Distinct tags below a bound are at most that many. */
  lemma {:induction false} BelowSize(s: seq<nat>, n: nat)
    requires Distinct(s) && forall x | x in s :: x < n
    ensures |s| <= n
    decreases n
  {
    if n == 0 {
      assert forall i | 0 <= i < |s| :: s[i] in s;
    } else {
      WithoutDistinct(s, n - 1);
      WithoutElements(s, n - 1);
      var r := Without(s, n - 1);
      forall i | 0 <= i < |r| ensures r[i] < n - 1 { assert r[i] in Elements(r); }
      BelowSize(r, n - 1);
    }
  }

  /** With room for all tags the wide cache evicts nothing. */
  lemma {:induction false} RoomForAll(c: Config, d: Config, ops: seq<Op>, tags: nat)
    requires Widens(c, d) && tags <= d.blockNum && forall op | op in ops :: op.tag < tags
    ensures Distinct(TagRun(d, ops)) && forall x | x in TagRun(d, ops) :: x < tags
    ensures forall x | x in TagRun(c, ops) :: x in TagRun(d, ops)
  {
    if ops != [] {
      var before, op := ops[..|ops| - 1], ops[|ops| - 1];
      RoomForAll(c, d, before, tags);
      var t := TagRun(d, before);
      if op.tag !in t { BelowSize([op.tag] + t, tags); }
      KeepsRoom(d, t, op, tags);
    }
  }

  lemma KeepsRoom(d: Config, t: seq<nat>, op: Op, tags: nat)
    requires Usable(d) && !d.lru && Distinct(t) && op.tag < tags && forall x | x in t :: x < tags
    requires op.tag !in t ==> |t| < d.blockNum
    ensures var t' := TagStep(d, t, op);
      Distinct(t') && (forall x | x in t' :: x < tags) && (forall x | x in t :: x in t')
  {
  }

  lemma {:induction false} OpsBelow(c: Config, trace: seq<Access>, s: nat, tags: nat)
    requires Usable(c) && Below(c, trace, tags)
    ensures forall op | op in OpsFor(c, trace, s) :: op.tag < tags
  {
    if trace != [] { OpsBelow(c, trace[..|trace| - 1], s, tags); }
  }

  lemma ShortInOrder(s: seq<nat>, t: seq<nat>)
    requires |s| <= 1 && forall x | x in s :: x in t
    ensures Subsequence(s, t)
    decreases |t|
  {
    if s != [] {
      assert s[0] in t;
      if s[0] != t[0] { ShortInOrder(s, t[1..]); }
    }
  }

  // ----- inclusion fails

  function Loads(tags: seq<nat>): (ops: seq<Op>) {
    seq(|tags|, i requires 0 <= i < |tags| => Op(false, tags[i]))
  }

  /** Loads of blocks of set 0 with these tags. */
  function LoadTrace(c: Config, tags: seq<nat>): (trace: seq<Access>)
    requires Usable(c)
  {
    seq(|tags|, i requires 0 <= i < |tags| => Access(false, tags[i] * c.setNum * c.byteNum))
  }

  lemma AddressOfTag(c: Config, tag: nat)
    requires Usable(c)
    ensures SetOf(c, tag * c.setNum * c.byteNum) == 0 && TagOf(c, tag * c.setNum * c.byteNum) == tag
  {
    DivModUnique(tag * c.setNum * c.byteNum, c.byteNum, tag * c.setNum, 0);
    DivModUnique(tag * c.setNum, c.setNum, tag, 0);
  }

  lemma {:induction false} TraceLoads(c: Config, tags: seq<nat>)
    requires Usable(c)
    ensures OpsFor(c, LoadTrace(c, tags), 0) == Loads(tags)
    decreases |tags|
  {
    if tags != [] {
      hide SetOf, TagOf;
      var init, last := tags[..|tags| - 1], tags[|tags| - 1];
      TraceLoads(c, init);
      AddressOfTag(c, last);
      assert LoadTrace(c, tags)[..|tags| - 1] == LoadTrace(c, init);
      assert Loads(tags) == Loads(init) + [Op(false, last)];
    }
  }

  lemma LoadOne(c: Config, tags: seq<nat>, tag: nat)
    requires Usable(c)
    ensures TagRun(c, Loads(tags + [tag])) == TagStep(c, TagRun(c, Loads(tags)), Op(false, tag))
  {
    var ops := Loads(tags + [tag]);
    assert ops[..|ops| - 1] == Loads(tags) && ops[|ops| - 1] == Op(false, tag);
  }

  function Up(n: nat): (s: seq<nat>) {
    seq(n, i => i)
  }

  function Down(n: nat): (s: seq<nat>) {
    seq(n, i requires 0 <= i < n => n - 1 - i)
  }

  /** Loading 0 .. n - 1 leaves the last of them, the latest first. */
  lemma {:induction false} FillUp(c: Config, n: nat)
    requires Usable(c) && !c.lru
    ensures TagRun(c, Loads(Up(n))) == Take(Down(n), c.blockNum)
  {
    if n == 0 {
      assert Loads(Up(0)) == [] && Take(Down(0), c.blockNum) == [];
    } else {
      hide TagRun, TagStep, Loads, Down, Take;
      FillUp(c, n - 1);
      assert Up(n) == Up(n - 1) + [n - 1];
      LoadOne(c, Up(n - 1), n - 1);
      FillOne(c, n - 1);
    }
  }

  lemma FillOne(c: Config, n: nat)
    requires Usable(c) && !c.lru
    ensures TagStep(c, Take(Down(n), c.blockNum), Op(false, n)) == Take(Down(n + 1), c.blockNum)
  {
    var s := Take(Down(n), c.blockNum);
    assert Down(n + 1) == [n] + Down(n);
    assert n !in s;
    assert |s| == c.blockNum ==> s[..|s| - 1] == Down(n)[..c.blockNum - 1];
  }

  /** The loads 0 .. K - 1, 0, K of the anomaly. */
  function Anomaly(ways: nat): (tags: seq<nat>) {
    Up(ways) + [0] + [ways]
  }

  /** In K ways the second 0 hits, and K pushes it out. */
  lemma WideLosesTag(d: Config)
    requires Usable(d) && !d.lru
    ensures 0 !in TagRun(d, Loads(Anomaly(d.blockNum)))
  {
    var n := d.blockNum;
    FillUp(d, n);
    assert Down(n)[n - 1] == 0;
    LoadOne(d, Up(n), 0);
    LoadOne(d, Up(n) + [0], n);
    var front := Down(n)[..n - 1];
    assert forall i | 0 <= i < |front| :: front[i] > 0;
  }

  /** In fewer ways, but more than one, the second 0 is fetched anew, and K pushes out another. */
  lemma NarrowKeepsTag(c: Config, n: nat)
    requires Usable(c) && !c.lru && 2 <= c.blockNum < n
    ensures 0 in TagRun(c, Loads(Anomaly(n)))
  {
    FillUp(c, n);
    var s := Take(Down(n), c.blockNum);
    assert 0 !in s;
    LoadOne(c, Up(n), 0);
    var s' := [0] + s[..|s| - 1];
    assert TagRun(c, Loads(Up(n) + [0])) == s';
    LoadOne(c, Up(n) + [0], n);
    assert [n] + s'[..|s'| - 1] == [n, 0] + s'[1..|s'| - 1];
    assert ([n] + s'[..|s'| - 1])[1] == 0;
  }

  lemma AnomalyTrace(c: Config, d: Config)
    requires Widens(c, d) && 2 <= c.blockNum < d.blockNum
    ensures var trace := LoadTrace(c, Anomaly(d.blockNum));
      Below(c, trace, d.blockNum + 1) && !Contained(c, d, trace, 0)
  {
    var tags := Anomaly(d.blockNum);
    var trace := LoadTrace(c, tags);
    forall a | a in trace ensures TagOf(c, a.address) < d.blockNum + 1 {
      var i :| 0 <= i < |tags| && a == trace[i];
      AddressOfTag(c, tags[i]);
    }
    TraceLoads(c, tags);
    SameOps(c, d, trace, 0);
    TagsAfterTrace(c, trace, 0);
    TagsAfterTrace(d, trace, 0);
    NarrowKeepsTag(c, d.blockNum);
    WideLosesTag(d);
  }

  // ----- exactly when

  /**
   With tags below a bound, more ways hold all that fewer ways hold exactly when there is only one
   way, or as many in both, or room for every tag.
   */
  lemma FifoContainedIff(c: Config, d: Config, tags: nat)
    requires Widens(c, d)
    ensures (forall trace, s: nat | s < c.setNum && Below(c, trace, tags) :: Contained(c, d, trace, s))
       <==> c.blockNum == 1 || c.blockNum == d.blockNum || tags <= d.blockNum
  {
    if c.blockNum == 1 || c.blockNum == d.blockNum || tags <= d.blockNum {
      forall trace, s: nat | s < c.setNum && Below(c, trace, tags) ensures Contained(c, d, trace, s) {
        TagsAfterTrace(c, trace, s);
        TagsAfterTrace(d, trace, s);
        SameOps(c, d, trace, s);
        var ops := OpsFor(c, trace, s);
        OpsBelow(c, trace, s, tags);
        if c.blockNum == 1 { OneWayContained(c, d, ops); }
        if tags <= d.blockNum { RoomForAll(c, d, ops, tags); }
      }
    } else {
      AnomalyTrace(c, d);
      assert Below(c, LoadTrace(c, Anomaly(d.blockNum)), tags);
    }
  }

  /** FIFO inclusion, as LRU has it for all ways, holds exactly for one way or no widening. */
  lemma FifoInclusionIff(c: Config, d: Config)
    requires Widens(c, d)
    ensures (forall trace, s: nat | s < c.setNum :: InOrder(c, d, trace, s)) <==>
        c.blockNum == 1 || c.blockNum == d.blockNum
  {
    if c.blockNum == 1 || c.blockNum == d.blockNum {
      forall trace, s: nat | s < c.setNum ensures InOrder(c, d, trace, s) {
        TagsAfterTrace(c, trace, s);
        TagsAfterTrace(d, trace, s);
        SameOps(c, d, trace, s);
        if c.blockNum == 1 {
          OneWayContained(c, d, OpsFor(c, trace, s));
          ShortInOrder(TagRun(c, OpsFor(c, trace, s)), TagRun(d, OpsFor(c, trace, s)));
        } else {
          SubsequenceRefl(TagRun(c, OpsFor(c, trace, s)));
        }
      }
    } else {
      AnomalyTrace(c, d);
      var trace := LoadTrace(c, Anomaly(d.blockNum));
      if InOrder(c, d, trace, 0) {
        SubsequenceSize(Tags(Run(c, trace).sets[0]), Tags(Run(d, trace).sets[0]));
      }
    }
  }
}
