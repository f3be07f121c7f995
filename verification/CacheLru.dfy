/**
 The classical theorems about LRU and FIFO replacement, for the simulator as it is written.
 */
module CacheLru {
  import opened CacheModel
  import opened CacheAddress
  import opened CacheSets

  // ----- sequences without duplicates

  predicate Distinct(s: seq<nat>) {
    forall i, j | 0 <= i < j < |s| :: s[i] != s[j]
  }

  function Take(s: seq<nat>, n: nat): (r: seq<nat>)
    ensures r <= s
  {
    if |s| <= n then s else s[..n]
  }

  function Elements(s: seq<nat>): (r: set<nat>) {
    set x | x in s
  }

  lemma {:induction false} WithoutConcat(a: seq<nat>, b: seq<nat>, x: nat)
    ensures Without(a + b, x) == Without(a, x) + Without(b, x)
  {
    if a == [] {
      assert a + b == b;
    } else {
      assert (a + b)[1..] == a[1..] + b;
      WithoutConcat(a[1..], b, x);
    }
  }

  lemma {:induction false} WithoutElements(s: seq<nat>, x: nat)
    ensures Elements(Without(s, x)) == Elements(s) - {x}
  {
    if s != [] {
      WithoutElements(s[1..], x);
      assert Elements(s) == {s[0]} + Elements(s[1..]);
      assert s[0] != x ==> Elements(Without(s, x)) == {s[0]} + Elements(Without(s[1..], x));
    }
  }

  lemma {:induction false} WithoutDistinct(s: seq<nat>, x: nat)
    requires Distinct(s)
    ensures Distinct(Without(s, x))
    ensures |Without(s, x)| == if x in s then |s| - 1 else |s|
  {
    if s != [] {
      WithoutDistinct(s[1..], x);
      WithoutElements(s[1..], x);
      if s[0] == x {
        WithoutAbsent(s[1..], x);
      } else {
        assert s[0] !in Elements(Without(s[1..], x));
      }
    }
  }

  lemma {:induction false} DistinctSize(s: seq<nat>)
    requires Distinct(s)
    ensures |Elements(s)| == |s|
  {
    if s != [] {
      DistinctSize(s[1..]);
      assert Elements(s) == {s[0]} + Elements(s[1..]);
    }
  }

  // ----- LRU is truncated move-to-front

  /** All tags ever used, the most recent first. */
  function Recency(ops: seq<Op>): (s: seq<nat>) {
    if ops == [] then []
    else [ops[|ops| - 1].tag] + Without(Recency(ops[..|ops| - 1]), ops[|ops| - 1].tag)
  }

  lemma {:induction false} RecencyDistinct(ops: seq<Op>)
    ensures Distinct(Recency(ops))
  {
    if ops != [] {
      RecencyDistinct(ops[..|ops| - 1]);
      var s, x := Recency(ops[..|ops| - 1]), ops[|ops| - 1].tag;
      WithoutDistinct(s, x);
      WithoutElements(s, x);
      assert x !in Elements(Without(s, x));
    }
  }

  lemma MoveFromWithin(a: seq<nat>, x: nat, b: seq<nat>, n: nat)
    requires x !in a && x !in b && |a| < n
    ensures x in Take(a + [x] + b, n)
    ensures Take([x] + Without(a + [x] + b, x), n) == [x] + Without(Take(a + [x] + b, n), x)
  {
    var b' := Take(b, n - 1 - |a|);
    assert Take(a + [x] + b, n) == a + [x] + b';
    assert (a + [x] + b')[|a|] == x;
    WithoutOne(a, x, b);
    WithoutOne(a, x, b');
    assert Take([x] + (a + b), n) == [x] + (a + b');
  }

  lemma MoveFromBeyond(a: seq<nat>, x: nat, b: seq<nat>, n: nat)
    requires x !in a && x !in b && 1 <= n <= |a|
    ensures x !in Take(a + [x] + b, n)
    ensures Take([x] + Without(a + [x] + b, x), n) == [x] + Take(a + [x] + b, n - 1)
  {
    assert Take(a + [x] + b, n) == a[..n];
    WithoutOne(a, x, b);
    assert Take([x] + (a + b), n) == [x] + a[..n - 1];
    assert Take(a + [x] + b, n - 1) == a[..n - 1];
  }

  lemma TakeAfterMove(s: seq<nat>, x: nat, n: nat)
    requires Distinct(s) && n >= 1
    ensures x in Take(s, n) ==> Take([x] + Without(s, x), n) == [x] + Without(Take(s, n), x)
    ensures x !in Take(s, n) ==> Take([x] + Without(s, x), n) == [x] + Take(s, n - 1)
  {
    if x in s {
      var i :| 0 <= i < |s| && s[i] == x;
      assert s == s[..i] + [x] + s[i + 1..] && x !in s[..i] && x !in s[i + 1..];
      if i < n {
        MoveFromWithin(s[..i], x, s[i + 1..], n);
      } else {
        MoveFromBeyond(s[..i], x, s[i + 1..], n);
      }
    } else {
      WithoutAbsent(s, x);
      assert Take([x] + s, n) == [x] + Take(s, n - 1);
    }
  }

  /** With LRU and write-allocate a set holds the blockNum most recently used tags, in order. */
  lemma {:induction false} LruIsTruncatedRecency(c: Config, ops: seq<Op>)
    requires Usable(c) && c.lru && c.writeAllocate
    ensures TagRun(c, ops) == Take(Recency(ops), c.blockNum)
  {
    if ops != [] {
      var before, x := ops[..|ops| - 1], ops[|ops| - 1].tag;
      LruIsTruncatedRecency(c, before);
      RecencyDistinct(before);
      TakeAfterMove(Recency(before), x, c.blockNum);
    }
  }

  // ----- FIFO is a bounded queue

  /** All tags ever fetched, the latest first; a tag is fetched when it is not among the latest blockNum. */
  function FetchLog(c: Config, ops: seq<Op>): (s: seq<nat>) {
    if ops == [] then []
    else
      var log, op := FetchLog(c, ops[..|ops| - 1]), ops[|ops| - 1];
      if op.tag in Take(log, c.blockNum) || (op.store && !c.writeAllocate) then log else [op.tag] + log
  }

  /** With FIFO a set holds the blockNum tags fetched last, under either write policy. */
  lemma {:induction false} FifoIsBoundedQueue(c: Config, ops: seq<Op>)
    requires Usable(c) && !c.lru
    ensures TagRun(c, ops) == Take(FetchLog(c, ops), c.blockNum)
  {
    if ops != [] {
      FifoIsBoundedQueue(c, ops[..|ops| - 1]);
    }
  }

  // ----- stack distance

  /** Access j is the last use of the block of address a in the trace. */
  predicate LastUse(c: Config, trace: seq<Access>, j: nat, a: nat)
    requires Usable(c)
  {
    && j < |trace| && BlockOf(c, trace[j].address) == BlockOf(c, a)
    && forall k | j < k < |trace| :: BlockOf(c, trace[k].address) != BlockOf(c, a)
  }

  /** The blocks of the set of address a that are used after access j. */
  function UsedSince(c: Config, trace: seq<Access>, j: nat, a: nat): (blocks: set<nat>)
    requires Usable(c)
  {
    set k | j < k < |trace| && SetOf(c, trace[k].address) == SetOf(c, a) :: BlockOf(c, trace[k].address)
  }

  /** The block of a was used before, and fewer than blockNum other blocks of its set since. */
  ghost predicate ReusedSoon(c: Config, trace: seq<Access>, a: nat)
    requires Usable(c)
  {
    exists j :: LastUse(c, trace, j, a) && |UsedSince(c, trace, j, a)| < c.blockNum
  }

  function TagOfBlock(c: Config, b: nat): (t: nat)
    requires Usable(c)
  {
    b / c.setNum
  }

  function TagsOfBlocks(c: Config, blocks: set<nat>): (tags: set<nat>)
    requires Usable(c)
  {
    set b | b in blocks :: TagOfBlock(c, b)
  }

  lemma BlockFromTag(c: Config, b: nat)
    requires Usable(c)
    ensures b == c.setNum * TagOfBlock(c, b) + b % c.setNum
  {
  }

  lemma {:induction false} SameSetBlocks(c: Config, blocks: set<nat>, s: nat)
    requires Usable(c) && forall b | b in blocks :: b % c.setNum == s
    ensures |TagsOfBlocks(c, blocks)| == |blocks|
  {
    hide TagOfBlock;
    if blocks != {} {
      var b :| b in blocks;
      var rest := blocks - {b};
      SameSetBlocks(c, rest, s);
      BlockFromTag(c, b);
      forall d | d in rest ensures TagOfBlock(c, d) != TagOfBlock(c, b) {
        BlockFromTag(c, d);
      }
      OneMoreBlock(c, rest, b);
      assert blocks == rest + {b};
    }
  }

  lemma OneMoreBlock(c: Config, blocks: set<nat>, b: nat)
    requires Usable(c)
    ensures TagsOfBlocks(c, blocks + {b}) == TagsOfBlocks(c, blocks) + {TagOfBlock(c, b)}
  {
    hide TagOfBlock;
    assert forall t | t in TagsOfBlocks(c, blocks) + {TagOfBlock(c, b)} ::
      exists d :: d in blocks + {b} && TagOfBlock(c, d) == t;
  }

  /** How the operations of a set and the blocks used since grow with one more access. */
  lemma OneMoreAccess(c: Config, trace: seq<Access>, j: nat, a: nat)
    requires Usable(c) && j < |trace| - 1 && LastUse(c, trace, j, a)
    ensures var n := |trace| - 1;
      var last, ops := trace[n], OpsFor(c, trace, SetOf(c, a));
      && LastUse(c, trace[..n], j, a)
      && (SetOf(c, last.address) == SetOf(c, a) ==>
            && ops != [] && ops[|ops| - 1].tag == TagOfBlock(c, BlockOf(c, last.address)) != TagOf(c, a)
            && ops[..|ops| - 1] == OpsFor(c, trace[..n], SetOf(c, a))
            && UsedSince(c, trace, j, a) == UsedSince(c, trace[..n], j, a) + {BlockOf(c, last.address)})
      && (SetOf(c, last.address) != SetOf(c, a) ==>
            && ops == OpsFor(c, trace[..n], SetOf(c, a))
            && UsedSince(c, trace, j, a) == UsedSince(c, trace[..n], j, a))
  {
    var n := |trace| - 1;
    DecodeInjective(c, trace[n].address, a);
    OneMoreUse(c, trace, j, a);
    LastOp(c, trace, SetOf(c, a));
    hide BlockOf, SetOf, UsedSince, OpsFor;
    assert forall k | 0 <= k < n :: trace[..n][k] == trace[k];
  }

  lemma OneMoreUse(c: Config, trace: seq<Access>, j: nat, a: nat)
    requires Usable(c) && j < |trace| - 1
    ensures var n := |trace| - 1;
      UsedSince(c, trace, j, a) == UsedSince(c, trace[..n], j, a)
        + if SetOf(c, trace[n].address) == SetOf(c, a) then {BlockOf(c, trace[n].address)} else {}
  {
    hide BlockOf, SetOf;
    var n := |trace| - 1;
    var before, all := UsedSince(c, trace[..n], j, a), UsedSince(c, trace, j, a);
    assert forall k | 0 <= k < n :: trace[..n][k] == trace[k];
    assert before <= all;
    assert forall b | b in all ::
      b in before || (SetOf(c, trace[n].address) == SetOf(c, a) && b == BlockOf(c, trace[n].address));
  }

  lemma LastOp(c: Config, trace: seq<Access>, s: nat)
    requires Usable(c) && trace != []
    ensures var n := |trace| - 1;
      var last, ops, before := trace[n], OpsFor(c, trace, s), OpsFor(c, trace[..n], s);
      && (SetOf(c, last.address) != s ==> ops == before)
      && (SetOf(c, last.address) == s ==>
            ops != [] && ops[..|ops| - 1] == before && ops[|ops| - 1].tag == TagOfBlock(c, BlockOf(c, last.address)))
  {
    hide SetOf;
    var n := |trace| - 1;
    var last := if SetOf(c, trace[n].address) == s then [OpOf(c, trace[n])] else [];
    assert OpsFor(c, trace, s) == OpsFor(c, trace[..n], s) + last;
  }

  /** Before the last use of a tag in the recency list stand exactly the tags used since. */
  lemma {:induction false} RecencySplit(c: Config, trace: seq<Access>, j: nat, a: nat)
      returns (before: seq<nat>, after: seq<nat>)
    requires Usable(c) && LastUse(c, trace, j, a)
    ensures Recency(OpsFor(c, trace, SetOf(c, a))) == before + [TagOf(c, a)] + after
    ensures Elements(before) == TagsOfBlocks(c, UsedSince(c, trace, j, a))
  {
    var s, n := SetOf(c, a), |trace| - 1;
    var last, ops := trace[n], OpsFor(c, trace, s);
    if j == n {
      DecodeInjective(c, last.address, a);
      assert ops[..|ops| - 1] == OpsFor(c, trace[..n], s);
      before, after := [], Without(Recency(OpsFor(c, trace[..n], s)), TagOf(c, a));
    } else {
      hide BlockOf, SetOf, TagOf, UsedSince, TagsOfBlocks, OpsFor, TagOfBlock;
      OneMoreAccess(c, trace, j, a);
      var b, d := RecencySplit(c, trace[..n], j, a);
      if SetOf(c, last.address) == s {
        var y := TagOfBlock(c, BlockOf(c, last.address));
        WithoutConcat(b + [TagOf(c, a)], d, y);
        WithoutConcat(b, [TagOf(c, a)], y);
        WithoutAbsent([TagOf(c, a)], y);
        WithoutElements(b, y);
        before, after := [y] + Without(b, y), Without(d, y);
        assert Elements(before) == {y} + Elements(Without(b, y));
        OneMoreBlock(c, UsedSince(c, trace[..n], j, a), BlockOf(c, last.address));
      } else {
        before, after := b, d;
      }
    }
  }

  /** The last use of a block that was used at all. */
  lemma {:induction false} FindLastUse(c: Config, trace: seq<Access>, a: nat) returns (j: nat)
    requires Usable(c) && TagOf(c, a) in Recency(OpsFor(c, trace, SetOf(c, a)))
    ensures LastUse(c, trace, j, a)
  {
    hide BlockOf, SetOf, TagOf;
    var n, s := |trace| - 1, SetOf(c, a);
    assert trace != [];
    var last, ops := trace[n], OpsFor(c, trace, s);
    DecodeInjective(c, last.address, a);
    if BlockOf(c, last.address) == BlockOf(c, a) {
      j := n;
    } else {
      var earlier := Recency(OpsFor(c, trace[..n], s));
      if SetOf(c, last.address) == s {
        assert ops[..|ops| - 1] == OpsFor(c, trace[..n], s);
        WithoutElements(earlier, TagOf(c, last.address));
        assert TagOf(c, a) in Elements(Without(earlier, TagOf(c, last.address)));
      } else {
        assert ops == OpsFor(c, trace[..n], s);
      }
      j := FindLastUse(c, trace[..n], a);
    }
  }

  lemma LastUseUnique(c: Config, trace: seq<Access>, i: nat, j: nat, a: nat)
    requires Usable(c) && LastUse(c, trace, i, a) && LastUse(c, trace, j, a)
    ensures i == j
  {
    hide BlockOf;
  }

  /** With LRU and write-allocate an access hits exactly when its block is reused soon enough. */
  lemma HitIffReusedSoon(c: Config, trace: seq<Access>, a: nat)
    requires Usable(c) && c.lru && c.writeAllocate
    ensures Hit(Run(c, trace).sets[SetOf(c, a)], TagOf(c, a)) <==> ReusedSoon(c, trace, a)
  {
    hide BlockOf, SetOf, TagOf, UsedSince, TagsOfBlocks, OpsFor, Run;
    var s, x := SetOf(c, a), TagOf(c, a);
    var r := Recency(OpsFor(c, trace, s));
    PositionInTags(Run(c, trace).sets[s], x);
    TagsAfterTrace(c, trace, s);
    LruIsTruncatedRecency(c, OpsFor(c, trace, s));
    RecencyDistinct(OpsFor(c, trace, s));
    if x in r {
      var j := FindLastUse(c, trace, a);
      Distance(c, trace, j, a);
      forall i | LastUse(c, trace, i, a) ensures i == j { LastUseUnique(c, trace, i, j, a); }
    } else {
      forall j: nat ensures !LastUse(c, trace, j, a) {
        if LastUse(c, trace, j, a) { LastUseInRecency(c, trace, j, a); }
      }
    }
  }

  lemma LastUseInRecency(c: Config, trace: seq<Access>, j: nat, a: nat)
    requires Usable(c) && LastUse(c, trace, j, a)
    ensures TagOf(c, a) in Recency(OpsFor(c, trace, SetOf(c, a)))
  {
    var b, d := RecencySplit(c, trace, j, a);
    assert (b + [TagOf(c, a)] + d)[|b|] == TagOf(c, a);
  }

  lemma Distance(c: Config, trace: seq<Access>, j: nat, a: nat)
    requires Usable(c) && LastUse(c, trace, j, a)
    ensures TagOf(c, a) in Take(Recency(OpsFor(c, trace, SetOf(c, a))), c.blockNum)
       <==> |UsedSince(c, trace, j, a)| < c.blockNum
  {
    var b, d := RecencySplit(c, trace, j, a);
    var x, r := TagOf(c, a), Recency(OpsFor(c, trace, SetOf(c, a)));
    SameSetBlocks(c, UsedSince(c, trace, j, a), SetOf(c, a));
    RecencyDistinct(OpsFor(c, trace, SetOf(c, a)));
    hide BlockOf, SetOf, TagOf, UsedSince, TagsOfBlocks, OpsFor;
    assert forall i | 0 <= i < |b| :: r[i] == b[i];
    DistinctSize(b);
    assert r[|b|] == x;
    assert Take(r, c.blockNum) == if |r| <= c.blockNum then r else r[..c.blockNum];
    if |b| < c.blockNum {
      assert Take(r, c.blockNum)[|b|] == x;
    }
  }

  /** So the counters count an access as a hit exactly when its stack distance is below blockNum. */
  lemma StackDistance(c: Config, trace: seq<Access>, a: Access)
    requires Usable(c) && c.lru && c.writeAllocate
    ensures var n, n' := Run(c, trace).n, Run(c, trace + [a]).n;
      var hit := if ReusedSoon(c, trace, a.address) then 1 else 0;
      if a.store then n'.storeHit == n.storeHit + hit && n'.storeMiss == n.storeMiss + 1 - hit
                      && n'.loadHit == n.loadHit && n'.loadMiss == n.loadMiss
      else n'.loadHit == n.loadHit + hit && n'.loadMiss == n.loadMiss + 1 - hit
           && n'.storeHit == n.storeHit && n'.storeMiss == n.storeMiss
  {
    HitIffReusedSoon(c, trace, a.address);
    assert (trace + [a])[..|trace + [a]| - 1] == trace;
    hide ReusedSoon, SetStep, Cost, SetOf;
  }
}
