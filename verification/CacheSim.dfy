/**
 The class `cache` of cache.cpp, with its map from tags to (order, dirty) for every set, and
 the trace loop of csim.cpp.
 */
module CacheSim {
  import opened Words
  import opened CacheModel
  import opened CacheAddress

  datatype Block = Block(order: nat, dirty: bool)

  type Entries = map<nat, Block>

  /** A map of blocks stands for the list of its lines by order. */
  ghost predicate Represents(m: Entries, l: seq<Line>) {
    && (forall i | 0 <= i < |l| :: l[i].tag in m && m[l[i].tag] == Block(i, l[i].dirty))
    && (forall t | t in m :: m[t].order < |l| && l[m[t].order].tag == t)
  }

  lemma RepresentedHit(m: Entries, l: seq<Line>, tag: nat)
    requires Represents(m, l)
    ensures tag in m <==> Hit(l, tag)
    ensures tag in m ==> m[tag] == Block(Position(l, tag), l[Position(l, tag)].dirty)
  {
    if tag in m { assert l[m[tag].order].tag == tag; }
  }

  lemma {:induction false} RepresentedSize(m: Entries, l: seq<Line>)
    requires Represents(m, l)
    ensures |m| == |l|
    decreases |l|
  {
    if l == [] {
      assert m == map[];
    } else {
      var n := |l| - 1;
      var m' := m - {l[n].tag};
      assert Represents(m', l[..n]);
      RepresentedSize(m', l[..n]);
      assert m.Keys == m'.Keys + {l[n].tag};
    }
  }

  ghost predicate HasOrder(m: Entries, i: int) {
    exists t :: t in m && m[t].order == i
  }

  /**
   In a set of n blocks the orders are a permutation of 0 .. n - 1, one block to each order.
   */
  lemma OrdersArePermutation(c: Config, m: Entries, l: seq<Line>)
    requires Usable(c) && Represents(m, l) && SetInv(c, l)
    ensures |m| <= c.blockNum
    ensures forall t | t in m :: m[t].order < |m|
    ensures forall i | 0 <= i < |m| :: HasOrder(m, i)
    ensures forall t, u | t in m && u in m && m[t].order == m[u].order :: t == u
  {
    RepresentedSize(m, l);
    forall i | 0 <= i < |m| ensures HasOrder(m, i) {
      assert l[i].tag in m && m[l[i].tag].order == i;
    }
    forall t, u | t in m && u in m && m[t].order == m[u].order ensures t == u {
      assert t == l[m[t].order].tag && u == l[m[u].order].tag;
    }
  }

  /** So a full set has exactly one victim, the last line of the list. */
  lemma OneVictim(c: Config, m: Entries, l: seq<Line>)
    requires Usable(c) && Represents(m, l) && |m| == c.blockNum
    ensures |l| == c.blockNum
    ensures var v := l[|l| - 1].tag;
      v in m && m[v].dirty == l[|l| - 1].dirty && forall t | t in m :: m[t].order == c.blockNum - 1 <==> t == v
  {
    RepresentedSize(m, l);
  }

  // ----- how the updates of a map move the list

  /** Aging the blocks below a bound and giving order 0 to the block at the bound. */
  function Aged(b: Block, bound: nat): (b': Block) {
    if b.order < bound then Block(b.order + 1, b.dirty) else b
  }

  lemma RefreshIsTouch(m: Entries, l: seq<Line>, tag: nat, m': Entries)
    requires Represents(m, l) && tag in m
    requires m'.Keys == m.Keys
    requires forall t | t in m && t != tag :: m'[t] == Aged(m[t], m[tag].order)
    requires m'[tag] == Block(0, m[tag].dirty)
    ensures Hit(l, tag) && Represents(m', Touched(l, tag))
  {
    RepresentedHit(m, l, tag);
    var i, l' := Position(l, tag), Touched(l, tag);
    forall j | 0 <= j < |l'| ensures l'[j].tag in m' && m'[l'[j].tag] == Block(j, l'[j].dirty) {
      var k := if j == 0 then i else if j <= i then j - 1 else j;
      assert l'[j] == l[k] && m[l[k].tag].order == k;
    }
    forall t | t in m' ensures m'[t].order < |l'| && l'[m'[t].order].tag == t {
      assert l[m[t].order].tag == t;
    }
  }

  lemma MarkIsMark(m: Entries, l: seq<Line>, tag: nat)
    requires Represents(m, l) && tag in m
    ensures Hit(l, tag) && Represents(Put(m, tag, Block(m[tag].order, true)), Marked(l, tag))
  {
    RepresentedHit(m, l, tag);
  }

  lemma EraseIsDropLast(m: Entries, l: seq<Line>)
    requires Represents(m, l) && l != []
    ensures Represents(m - {l[|l| - 1].tag}, l[..|l| - 1])
  {
  }

  lemma AgeAndAddIsInsert(m: Entries, l: seq<Line>, tag: nat, m': Entries, dirty: bool)
    requires Represents(m, l) && tag !in m
    requires m'.Keys == m.Keys + {tag}
    requires forall t | t in m :: m'[t] == Block(m[t].order + 1, m[t].dirty)
    requires m'[tag] == Block(0, dirty)
    ensures Represents(m', [Line(tag, dirty)] + l)
  {
    var l' := [Line(tag, dirty)] + l;
    assert forall j | 0 < j < |l'| :: l'[j] == l[j - 1];
  }

  /** `data[index][tag] = b` */
  function Put(m: Entries, tag: nat, b: Block): (m': Entries) {
    m[tag := b]
  }

  // ----- the simulator

  class Cache {
    const config: Config
    const indexLen: nat
    const offsetLen: nat
    const tagLen: int
    var n: Counters
    var data: seq<Entries>
    ghost var lists: seq<seq<Line>>

    ghost predicate Valid()
      reads this
    {
      && Usable(config)
      && Decodes(config, indexLen, offsetLen) && tagLen == 32 - indexLen - offsetLen
      && |data| == |lists| == config.setNum
      && forall i | 0 <= i < |data| :: SetInv(config, lists[i]) && Represents(data[i], lists[i])
    }

    ghost function Contents(): (s: State)
      reads this
    {
      State(lists, n)
    }

    /** Any sizes make a cache; sizes that the decoder can use make one that works. */
    constructor (setNum: nat, blockNum: nat, byteNum: nat, writeAllocate: bool, writeThrough: bool, lru: bool)
      ensures config == Config(setNum, blockNum, byteNum, writeAllocate, writeThrough, lru)
      ensures Contents() == Empty(config)
      ensures (exists i, o :: Decodes(config, i, o)) ==> Valid()
    {
      config := Config(setNum, blockNum, byteNum, writeAllocate, writeThrough, lru);
      n := ZERO;
      data := seq(setNum, _ => map[]);
      lists := seq(setNum, _ => []);
      var index := HighestBitSet(setNum);
      var offset := HighestBitSet(byteNum);
      indexLen := index;
      offsetLen := offset;
      tagLen := 32 - (index as int) - (offset as int);
      new;
      forall i, o | Decodes(config, i, o) ensures indexLen == i && offsetLen == o {
        BitLengthUnique(index, i);
        BitLengthUnique(offset, o);
      }
    }

    predicate IsSetFull(index: nat)
      reads this
      requires index < |data|
    {
      |data[index]| == config.blockNum
    }

    predicate IsHit(index: nat, tag: nat)
      reads this
      requires index < |data|
    {
      tag in data[index]
    }

    /** Raises the order of every block of a set that is below the bound. */
    method AgeBelow(index: nat, bound: nat)
      requires index < |data|
      modifies this`data
      ensures |data| == old(|data|)
      ensures forall i | 0 <= i < |data| && i != index :: data[i] == old(data[i])
      ensures data[index].Keys == old(data[index].Keys)
      ensures forall t | t in data[index] :: data[index][t] == Aged(old(data[index])[t], bound)
    {
      ghost var before := data[index];
      var todo := data[index].Keys;
      while todo != {}
        invariant |data| == old(|data|)
        invariant forall i | 0 <= i < |data| && i != index :: data[i] == old(data[i])
        invariant data[index].Keys == before.Keys && todo <= before.Keys
        invariant forall t | t in before ::
                    data[index][t] == if t in todo then before[t] else Aged(before[t], bound)
        decreases |todo|
      {
        var t :| t in todo;
        if data[index][t].order < bound {
          data := data[index := Put(data[index], t, Block(data[index][t].order + 1, data[index][t].dirty))];
        }
        todo := todo - {t};
      }
    }

    /** Raises the order of every block of a set. */
    method AgeAll(index: nat)
      requires index < |data|
      modifies this`data
      ensures |data| == old(|data|)
      ensures forall i | 0 <= i < |data| && i != index :: data[i] == old(data[i])
      ensures data[index].Keys == old(data[index].Keys)
      ensures forall t | t in data[index] ::
                data[index][t] == Block(old(data[index])[t].order + 1, old(data[index])[t].dirty)
    {
      ghost var before := data[index];
      var todo := data[index].Keys;
      while todo != {}
        invariant |data| == old(|data|)
        invariant forall i | 0 <= i < |data| && i != index :: data[i] == old(data[i])
        invariant data[index].Keys == before.Keys && todo <= before.Keys
        invariant forall t | t in before ::
                    data[index][t] == if t in todo then before[t] else Block(before[t].order + 1, before[t].dirty)
        decreases |todo|
      {
        var t :| t in todo;
        data := data[index := Put(data[index], t, Block(data[index][t].order + 1, data[index][t].dirty))];
        todo := todo - {t};
      }
    }

    /** Removes the victim of a full set and charges the write-back of a dirty one. */
    method Evict(index: nat)
      requires Valid() && index < |data| && IsSetFull(index)
      modifies this
      ensures Valid()
      ensures lists == old(lists)[index := Kept(config, old(lists)[index])]
      ensures n == old(n).(cycles := old(n).cycles
                + if EvictsDirty(config, old(lists)[index]) then 25 * config.byteNum else 0)
      ensures data[index].Keys <= old(data[index].Keys)
    {
      hide Represents, Decodes, SetInv;
      OneVictim(config, data[index], lists[index]);
      ghost var l := lists[index];
      ghost var victim := l[|l| - 1].tag;
      ghost var charge := if EvictsDirty(config, l) then 25 * config.byteNum else 0;
      var key: nat := *;
      var todo := data[index].Keys;
      while todo != {}
        invariant data == old(data) && lists == old(lists) && todo <= data[index].Keys
        invariant victim !in todo ==> key == victim
        invariant n == old(n).(cycles := old(n).cycles + if victim in todo then 0 else charge)
        decreases |todo|
      {
        var t :| t in todo;
        if data[index][t].order == config.blockNum - 1 {
          if data[index][t].dirty {
            n := n.(cycles := n.cycles + config.byteNum * 25);
          }
          key := t;
        }
        todo := todo - {t};
      }
      EraseIsDropLast(data[index], l);
      KeptInv(config, l);
      data := data[index := data[index] - {key}];
      lists := lists[index := l[..|l| - 1]];
    }

    /** Moves a block to order 0 and ages the blocks that were more recent. */
    method Refresh(index: nat, tag: nat)
      requires Valid() && index < |data| && IsHit(index, tag)
      modifies this`data, this`lists
      ensures Valid() && Hit(old(lists)[index], tag) && IsHit(index, tag)
      ensures lists == old(lists)[index := Touched(old(lists)[index], tag)]
    {
      hide Represents, Decodes, SetInv, Touched, Position;
      ghost var m, l := data[index], lists[index];
      var maxi := data[index][tag].order;
      AgeBelow(index, maxi);
      data := data[index := Put(data[index], tag, Block(0, data[index][tag].dirty))];
      RefreshIsTouch(m, l, tag, data[index]);
      TouchedInv(config, l, tag);
      lists := lists[index := Touched(l, tag)];
    }

    /** Ages all blocks of a set that is not full and adds a block of order 0. */
    method AddBlock(index: nat, tag: nat, dirty: bool)
      requires Valid() && index < |data| && !IsHit(index, tag)
      requires |lists[index]| < config.blockNum && (dirty ==> !config.writeThrough)
      modifies this`data, this`lists
      ensures Valid()
      ensures lists == old(lists)[index := [Line(tag, dirty)] + old(lists)[index]]
    {
      hide Represents, Decodes, SetInv, Position;
      ghost var m, l := data[index], lists[index];
      AgeAll(index);
      data := data[index := Put(data[index], tag, Block(0, dirty))];
      AgeAndAddIsInsert(m, l, tag, data[index], dirty);
      RepresentedHit(m, l, tag);
      AddedInv(config, l, tag, dirty);
      lists := lists[index := [Line(tag, dirty)] + l];
    }

    method CountLoadHit(index: nat, tag: nat)
      requires Valid() && index < |data| && IsHit(index, tag)
      modifies this
      ensures Valid() && Hit(old(lists)[index], tag)
      ensures lists == old(lists)[index := SetStep(config, old(lists)[index], Op(false, tag))]
      ensures n == old(n).(loadHit := old(n).loadHit + 1,
                           cycles := old(n).cycles + Cost(config, old(lists)[index], Op(false, tag)))
    {
      hide Represents, Decodes, SetInv, Touched, Position;
      RepresentedHit(data[index], lists[index], tag);
      if config.lru {
        Refresh(index, tag);
      }
      n := n.(loadHit := n.loadHit + 1, cycles := n.cycles + 1);
    }

    method CountLoadMiss(index: nat, tag: nat)
      requires Valid() && index < |data| && !IsHit(index, tag)
      modifies this
      ensures Valid() && !Hit(old(lists)[index], tag)
      ensures lists == old(lists)[index := SetStep(config, old(lists)[index], Op(false, tag))]
      ensures n == old(n).(loadMiss := old(n).loadMiss + 1,
                           cycles := old(n).cycles + Cost(config, old(lists)[index], Op(false, tag)))
    {
      hide Represents, Decodes, Position;
      RepresentedHit(data[index], lists[index], tag);
      RepresentedSize(data[index], lists[index]);
      if IsSetFull(index) {
        Evict(index);
      }
      AddBlock(index, tag, false);
      n := n.(loadMiss := n.loadMiss + 1, cycles := n.cycles + config.byteNum * 25);
    }

    method CountStoreHit(index: nat, tag: nat)
      requires Valid() && index < |data| && IsHit(index, tag)
      modifies this
      ensures Valid() && Hit(old(lists)[index], tag)
      ensures lists == old(lists)[index := SetStep(config, old(lists)[index], Op(true, tag))]
      ensures n == old(n).(storeHit := old(n).storeHit + 1,
                           cycles := old(n).cycles + Cost(config, old(lists)[index], Op(true, tag)))
    {
      hide Represents, Decodes, SetInv, Touched, Marked, Position;
      ghost var l := lists[index];
      RepresentedHit(data[index], l, tag);
      n := n.(storeHit := n.storeHit + 1, cycles := n.cycles + 1);
      if config.lru {
        Refresh(index, tag);
      }
      if config.writeThrough {
        n := n.(cycles := n.cycles + 100);
      } else {
        MarkIsMark(data[index], lists[index], tag);
        TouchThenMark(l, tag);
        MarkedInv(config, lists[index], tag);
        data := data[index := Put(data[index], tag, Block(data[index][tag].order, true))];
        lists := lists[index := Marked(lists[index], tag)];
      }
    }

    method CountStoreMiss(index: nat, tag: nat)
      requires Valid() && index < |data| && !IsHit(index, tag)
      modifies this
      ensures Valid() && !Hit(old(lists)[index], tag)
      ensures lists == old(lists)[index := SetStep(config, old(lists)[index], Op(true, tag))]
      ensures n == old(n).(storeMiss := old(n).storeMiss + 1,
                           cycles := old(n).cycles + Cost(config, old(lists)[index], Op(true, tag)))
    {
      hide Represents, Decodes, Position;
      RepresentedHit(data[index], lists[index], tag);
      RepresentedSize(data[index], lists[index]);
      n := n.(storeMiss := n.storeMiss + 1);
      if config.writeAllocate {
        n := n.(cycles := n.cycles + 25 * config.byteNum);
        if IsSetFull(index) {
          Evict(index);
        }
        var dirty := true;
        n := n.(cycles := n.cycles + 1);
        if config.writeThrough {
          dirty := false;
          n := n.(cycles := n.cycles + 100);
        }
        AddBlock(index, tag, dirty);
      } else {
        n := n.(cycles := n.cycles + 100);
      }
    }

    method Load(address: nat)
      requires Valid() && address < Pow2(32)
      modifies this
      ensures Valid()
      ensures Contents() == Step(config, old(Contents()), Access(false, address))
    {
      hide Represents, SetInv, SetStep, Cost, Hit, GetLowSig, Pow2;
      DecodeExact(config, indexLen, offsetLen, address);
      var index := GetLowSig(address, offsetLen, indexLen);
      var tag := GetLowSig(address, indexLen + offsetLen, tagLen);
      if IsHit(index, tag) {
        CountLoadHit(index, tag);
      } else {
        CountLoadMiss(index, tag);
      }
      n := n.(totalLoad := n.totalLoad + 1);
    }

    method Store(address: nat)
      requires Valid() && address < Pow2(32)
      modifies this
      ensures Valid()
      ensures Contents() == Step(config, old(Contents()), Access(true, address))
    {
      hide Represents, SetInv, SetStep, Cost, Hit, GetLowSig, Pow2;
      DecodeExact(config, indexLen, offsetLen, address);
      var index := GetLowSig(address, offsetLen, indexLen);
      var tag := GetLowSig(address, offsetLen + indexLen, tagLen);
      if IsHit(index, tag) {
        CountStoreHit(index, tag);
      } else {
        CountStoreMiss(index, tag);
      }
      n := n.(totalStore := n.totalStore + 1);
    }
  }

  lemma KeptInv(c: Config, l: seq<Line>)
    requires Usable(c) && SetInv(c, l)
    ensures SetInv(c, Kept(c, l))
  {
  }

  lemma TouchedInv(c: Config, l: seq<Line>, tag: nat)
    requires Usable(c) && SetInv(c, l) && Hit(l, tag)
    ensures SetInv(c, Touched(l, tag))
  {
    TouchedDistinct(l, tag);
  }

  lemma MarkedInv(c: Config, l: seq<Line>, tag: nat)
    requires Usable(c) && SetInv(c, l) && Hit(l, tag) && !c.writeThrough
    ensures SetInv(c, Marked(l, tag))
  {
    MarkedPosition(l, tag);
  }

  lemma AddedInv(c: Config, l: seq<Line>, tag: nat, dirty: bool)
    requires Usable(c) && SetInv(c, l) && !Hit(l, tag) && |l| < c.blockNum && (dirty ==> !c.writeThrough)
    ensures SetInv(c, [Line(tag, dirty)] + l)
  {
    var l' := [Line(tag, dirty)] + l;
    assert forall j | 0 < j < |l'| :: l'[j] == l[j - 1];
  }

  /** Marking the refreshed block is refreshing the marked block. */
  lemma TouchThenMark(l: seq<Line>, tag: nat)
    requires Hit(l, tag)
    ensures Hit(Touched(l, tag), tag) && Hit(Marked(l, tag), tag)
    ensures Marked(Touched(l, tag), tag) == Touched(Marked(l, tag), tag)
  {
    MarkedPosition(l, tag);
    assert Touched(l, tag)[0].tag == tag;
  }

  // ----- the trace loop

  /** One line of a trace; the third word of a line is not looked at. */
  datatype TraceLine = TraceLine(op: string, address: int)

  /** The accesses of a trace: other operations are skipped, addresses are cut to 32 bits. */
  function Accesses(lines: seq<TraceLine>): (t: seq<Access>) {
    if lines == [] then []
    else
      var last := lines[|lines| - 1];
      var before := Accesses(lines[..|lines| - 1]);
      if last.op == "l" then before + [Access(false, Pattern(last.address))]
      else if last.op == "s" then before + [Access(true, Pattern(last.address))]
      else before
  }

  /** How many lines have this operation. */
  function LinesWith(lines: seq<TraceLine>, op: string): (n: nat) {
    if lines == [] then 0 else (if lines[0].op == op then 1 else 0) + LinesWith(lines[1..], op)
  }

  lemma {:induction false} LinesWithSnoc(lines: seq<TraceLine>, last: TraceLine, op: string)
    ensures LinesWith(lines + [last], op) == LinesWith(lines, op) + if last.op == op then 1 else 0
  {
    if lines == [] {
      assert lines + [last] == [last];
    } else {
      assert (lines + [last])[1..] == lines[1..] + [last];
      LinesWithSnoc(lines[1..], last, op);
    }
  }

  /** The lines that count, loads and stores. */
  function LoadsAndStores(lines: seq<TraceLine>): (n: nat) {
    LinesWith(lines, "l") + LinesWith(lines, "s")
  }

  lemma AccessesOfOneMore(lines: seq<TraceLine>, last: TraceLine)
    ensures LoadsAndStores(lines + [last])
            == LoadsAndStores(lines) + if last.op == "l" || last.op == "s" then 1 else 0
    ensures Accesses(lines + [last])
            == Accesses(lines) + if last.op == "l" || last.op == "s"
                                 then [Access(last.op == "s", last.address % 0x1_0000_0000)] else []
  {
    LinesWithSnoc(lines, last, "l");
    LinesWithSnoc(lines, last, "s");
    assert (lines + [last])[..|lines|] == lines;
  }

  lemma {:induction false} AccessesSize(lines: seq<TraceLine>)
    ensures |Accesses(lines)| == LoadsAndStores(lines)
    decreases |lines|
  {
    if lines != [] {
      hide Accesses, LoadsAndStores;
      var init, last := lines[..|lines| - 1], lines[|lines| - 1];
      AccessesSize(init);
      AccessesOfOneMore(init, last);
      assert lines == init + [last];
    }
  }

  /**
   A line with "l" or "s" is the access after those of such lines before it: a store exactly for "s",
   at its address modulo 2^32; by their number, the other lines contribute nothing.
   */
  lemma {:induction false} AccessOfLine(lines: seq<TraceLine>, i: nat)
    requires i < |lines| && (lines[i].op == "l" || lines[i].op == "s")
    ensures LoadsAndStores(lines[..i]) < |Accesses(lines)| == LoadsAndStores(lines)
    ensures Accesses(lines)[LoadsAndStores(lines[..i])]
            == Access(lines[i].op == "s", lines[i].address % 0x1_0000_0000)
    decreases |lines|
  {
    hide Accesses, LoadsAndStores;
    var init, last := lines[..|lines| - 1], lines[|lines| - 1];
    AccessesSize(lines);
    AccessesSize(init);
    AccessesOfOneMore(init, last);
    assert lines == init + [last];
    if i < |init| {
      AccessOfLine(init, i);
      assert init[..i] == lines[..i];
    }
  }

  function StoresIn(trace: seq<Access>): (n: nat) {
    if trace == [] then 0 else StoresIn(trace[..|trace| - 1]) + if trace[|trace| - 1].store then 1 else 0
  }

  lemma {:induction false} RunTotals(c: Config, trace: seq<Access>)
    requires Usable(c)
    ensures Run(c, trace).n.totalStore == StoresIn(trace)
    ensures Run(c, trace).n.totalLoad + StoresIn(trace) == |trace|
    decreases |trace|
  {
    if trace != [] {
      hide Cost, SetStep, Hit;
      RunTotals(c, trace[..|trace| - 1]);
    }
  }

  lemma NoStores()
    ensures StoresIn(Accesses([])) == 0 == LinesWith([], "s")
  {
  }

  lemma StoresInSnoc(trace: seq<Access>, a: Access)
    ensures StoresIn(trace + [a]) == StoresIn(trace) + if a.store then 1 else 0
  {
    assert (trace + [a])[..|trace|] == trace;
  }

  lemma {:induction false} StoresOfLines(lines: seq<TraceLine>)
    ensures StoresIn(Accesses(lines)) == LinesWith(lines, "s")
    decreases |lines|
  {
    if lines != [] {
      hide Accesses, StoresIn, LinesWith;
      var init, last := lines[..|lines| - 1], lines[|lines| - 1];
      StoresOfLines(init);
      AccessesOfOneMore(init, last);
      LinesWithSnoc(init, last, "s");
      StoresInSnoc(Accesses(init), Access(last.op == "s", last.address % 0x1_0000_0000));
      assert lines == init + [last];
    } else {
      NoStores();
    }
  }

  lemma TotalsOfLines(c: Config, lines: seq<TraceLine>)
    requires Usable(c)
    ensures Run(c, Accesses(lines)).n.totalLoad == LinesWith(lines, "l")
    ensures Run(c, Accesses(lines)).n.totalStore == LinesWith(lines, "s")
  {
    hide Accesses, Run;
    RunTotals(c, Accesses(lines));
    AccessesSize(lines);
    StoresOfLines(lines);
  }

  method Simulate(cache: Cache, lines: seq<TraceLine>)
    requires cache.Valid() && cache.Contents() == Empty(cache.config)
    modifies cache
    ensures cache.Valid()
    ensures cache.Contents() == Run(cache.config, Accesses(lines))
    ensures cache.n.totalLoad == LinesWith(lines, "l") && cache.n.totalStore == LinesWith(lines, "s")
  {
    hide Represents, Decodes, SetInv, Step, Pow2;
    Pow2Literals();
    for i := 0 to |lines|
      invariant cache.Valid()
      invariant cache.Contents() == Run(cache.config, Accesses(lines[..i]))
    {
      assert lines[..i + 1][..i] == lines[..i];
      ghost var before, now := Accesses(lines[..i]), Accesses(lines[..i + 1]);
      var address := Pattern(lines[i].address);
      if lines[i].op == "l" {
        assert now[..|now| - 1] == before;
        cache.Load(address);
      } else if lines[i].op == "s" {
        assert now[..|now| - 1] == before;
        cache.Store(address);
      }
    }
    assert lines[..|lines|] == lines;
    TotalsOfLines(cache.config, lines);
  }
}
