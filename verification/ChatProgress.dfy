/** Deadlock freedom: from every reachable state the threads that hold locks can all let go of them. */
module ChatProgress {
  import opened ChatModel
  import opened ChatControl
  import opened ChatSemaphore
  import opened ChatOrder
  import opened ChatSafety

  /** How many steps a thread is from holding no lock. */
  function Rank(pc: Pc): (n: nat) {
    match pc
    case FindLookup(_, _) => 2
    case FindUnlock(_, _, _) => 1
    case AddInsert => 2
    case AddUnlock => 1
    case RemoveErase => 2
    case RemoveUnlock => 1
    case TakePop => 2
    case TakeUnlock => 1
    case Cast(_, todo, stage) =>
      1 + 5 * |todo| +
      match stage { case Idle => 0 case Lock(_) => 4 case Push(_) => 3 case Post(_) => 2 case Unlock(_) => 1 }
    case _ => 0
  }

  lemma RankOfHolders(t: nat, pc: Pc)
    ensures Rank(pc) > 0 <==> HoldsServer(pc) || HoldsRoom(pc) || HeldQueue(t, pc).Some?
  {
  }

  /** A thread at the semaphore holds no lock, and only room locks are held while taking another. */
  lemma LockOrder(t: nat, pc: Pc)
    ensures pc.Wait? ==> Rank(pc) == 0
    ensures pc.FindLock? || pc.AddLock? || pc.RemoveLock? || pc.CastLock? || pc.TakeLock? ==> Rank(pc) == 0
    ensures pc.Cast? && pc.stage.Lock? ==> HoldsRoom(pc) && !HoldsServer(pc) && HeldQueue(t, pc) == None
  {
  }

  /** A lock holder waits for one thing only: the queue lock of the member it serves. */
  predicate Blocked(s: State, t: nat)
    requires t < |s.threads|
  {
    var pc := s.threads[t].pc;
    pc.Cast? && pc.stage.Lock? && Live(s, pc.stage.target) && s.queues[pc.stage.target].lock != None
  }

  /** A receiver in its loop, with nothing lost. */
  predicate Going(th: Thread) {
    Serving(th.pc) || ((th.pc.Free? || th.pc.Check?) && th.connected)
  }

  /** A receiver that goes on in the same room since the same join. */
  predicate Stays(th: Thread, th': Thread) {
    Going(th) ==> Going(th') && th'.joined == th.joined && th'.room == th.room
  }

  predicate Advances(s: State, n: State, t: nat)
    requires t < |s.threads|
  {
    && |n.threads| == |s.threads| && Rank(n.threads[t].pc) < Rank(s.threads[t].pc)
    && (n.threads[t].pc.Cast? ==> s.threads[t].pc.Cast?)
    && Stays(s.threads[t], n.threads[t])
    && (forall v | 0 <= v < |s.threads| && v != t :: n.threads[v] == s.threads[v])
  }

  /** Thread t takes a step towards letting go, and no other thread moves. */
  lemma HolderMoves(s: State, t: nat) returns (step: Step)
    requires Safe(s) && t < |s.threads| && Rank(s.threads[t].pc) > 0 && !Blocked(s, t)
    ensures Enabled(s, step)
    ensures Advances(s, After(s, step), t)
  {
    hide Control, Safe, RoomEffectOk;
    SafeParts(s);
    ControlOf(s, t);
    var pc := s.threads[t].pc;
    if pc.Cast? && pc.stage.Idle? && pc.todo != {} {
      var u :| u in pc.todo;
      step := Pick(t, u);
      PickMoves(s, t, u);
    } else {
      step := Act(t);
      StepKeepsSafe(s, step);
      SafeParts(After(s, step));
      ActMoves(s, t);
    }
  }

  lemma PickMoves(s: State, t: nat, u: nat)
    requires Safe(s) && Enabled(s, Pick(t, u))
    ensures Advances(s, After(s, Pick(t, u)), t)
  {
    hide Control;
    StepKeepsSafe(s, Pick(t, u));
    var todo := s.threads[t].pc.todo;
    assert |todo - {u}| == |todo| - 1;
  }

  lemma EffectsLowerRank(t: nat, th: Thread, q: Queue, room: Room)
    requires Rank(th.pc) > 0
    ensures IsTake(th.pc) ==>
      var e := Take(t, th, q);
      e.ok ==> Rank(e.thread.pc) < Rank(th.pc) && !e.thread.pc.Cast? && Stays(th, e.thread)
    ensures IsMembership(th.pc) ==>
        var e := Membership(t, th, room); Rank(e.thread.pc) < Rank(th.pc) && !e.thread.pc.Cast?
    ensures IsEnqueue(th.pc) ==> var e := Enqueue(t, th, q); e.ok ==> Rank(e.thread.pc) < Rank(th.pc)
    ensures IsCastEdge(th.pc) ==> var e := CastEdge(t, th, room); Rank(e.thread.pc) < Rank(th.pc)
    ensures !th.pc.Delete?
  {
  }

  lemma ActMoves(s: State, t: nat)
    requires t < |s.threads| == |s.queues| && CanAct(s, t) && Rank(s.threads[t].pc) > 0
    requires !Acted(s, t).fault
    ensures Advances(s, Acted(s, t), t)
  {
    hide RoomEnabled, FindEnabled, TakeEnabled, CastEnabled, Take, Membership, Enqueue, CastEdge, Destroy;
    var th := s.threads[t];
    var u := if IsEnqueue(th.pc) && Live(s, th.pc.stage.target) then th.pc.stage.target else t;
    EffectsLowerRank(t, th, s.queues[u],
                     if HasRoom(s, t) then s.rooms[th.room.value] else Room("", None, {}, []));
  }

  // ----- running a holder to the end of its critical section

  function Holders(s: State): (ts: set<nat>) {
    set t: nat | t < |s.threads| && Rank(s.threads[t].pc) > 0
  }

  lemma {:induction false} RunsJoin(s: State, a: seq<Step>, b: seq<Step>)
    requires Runs(s, a) && Runs(Final(s, a), b)
    ensures Runs(s, a + b) && Final(s, a + b) == Final(Final(s, a), b)
    decreases |a|
  {
    hide Enabled, After;
    if a == [] {
      assert a + b == b;
    } else {
      assert (a + b)[0] == a[0] && (a + b)[1..] == a[1..] + b;
      RunsJoin(After(s, a[0]), a[1..], b);
    }
  }

  lemma StepThenRun(s: State, step: Step, steps: seq<Step>)
    requires Enabled(s, step) && Runs(After(s, step), steps)
    ensures Runs(s, [step] + steps) && Final(s, [step] + steps) == Final(After(s, step), steps)
  {
    hide Enabled, After;
    assert ([step] + steps)[1..] == steps;
  }

  /** The member whose queue lock blocks a broadcast holds that lock itself, and nothing blocks it. */
  lemma BlockedByReceiver(s: State, t: nat)
    requires Safe(s) && t < |s.threads| && s.threads[t].pc.Cast? && s.threads[t].pc.stage.Lock?
    ensures var u := s.threads[t].pc.stage.target;
            && u < |s.threads| && u != t && !s.threads[u].pc.Cast?
            && (Blocked(s, t) ==> Rank(s.threads[u].pc) > 0)
  {
    hide Control;
    var u := s.threads[t].pc.stage.target;
    TargetIsLive(s, t);
    ControlOf(s, t);
    ControlOf(s, u);
    if Blocked(s, t) {
      var b := s.queues[u].lock.value;
      if b != u { SameRoomTarget(s, t, b, u); }
    }
  }

  /** Two broadcasts never serve one member at once: it is in one room, and that room has one lock. */
  lemma SameRoomTarget(s: State, t: nat, b: nat, u: nat)
    requires Safe(s) && t < |s.threads| && b < |s.threads|
    requires s.threads[t].pc.Cast? && s.threads[t].pc.stage == Lock(u)
    ensures HeldQueue(b, s.threads[b].pc) == Some(u) ==> b == u
  {
    hide Control;
    TargetIsLive(s, t);
    ControlOf(s, t);
    ControlOf(s, b);
    if HeldQueue(b, s.threads[b].pc) == Some(u) && b != u {
      TargetIsLive(s, b);
    }
  }

  lemma FinishStep(s: State, t: nat) returns (step: Step)
    requires Safe(s) && t < |s.threads| && Rank(s.threads[t].pc) > 0 && !Blocked(s, t)
    ensures Enabled(s, step) && Safe(After(s, step))
    ensures Advances(s, After(s, step), t)
  {
    step := HolderMoves(s, t);
    StepKeepsSafe(s, step);
  }

  /** Thread t, helped by the receivers in its way, lets go of its locks. */
  lemma {:induction false} LetGo(s: State, t: nat) returns (steps: seq<Step>)
    requires Safe(s) && t < |s.threads|
    ensures Runs(s, steps)
    ensures var n := Final(s, steps);
            && Safe(n) && |n.threads| == |s.threads| && Rank(n.threads[t].pc) == 0
            && (forall v | 0 <= v < |s.threads| && Rank(s.threads[v].pc) == 0 :: Rank(n.threads[v].pc) == 0)
            && (forall v | 0 <= v < |s.threads| && s.threads[v].pc.Cast? && v != t :: n.threads[v] == s.threads[v])
            && (forall v | 0 <= v < |s.threads| :: Stays(s.threads[v], n.threads[v]))
    decreases if s.threads[t].pc.Cast? then 1 else 0, Rank(s.threads[t].pc)
  {
    hide Safe, Rank, Enabled, After, Going;
    if Rank(s.threads[t].pc) == 0 {
      steps := [];
    } else if Blocked(s, t) {
      var u := s.threads[t].pc.stage.target;
      BlockedByReceiver(s, t);
      var clear := LetGo(s, u);
      var m := Final(s, clear);
      BlockedByReceiver(m, t);
      var step := FinishStep(m, t);
      var rest := LetGo(After(m, step), t);
      StepThenRun(m, step, rest);
      RunsJoin(s, clear, [step] + rest);
      steps := clear + ([step] + rest);
    } else {
      var step := FinishStep(s, t);
      var rest := LetGo(After(s, step), t);
      StepThenRun(s, step, rest);
      steps := [step] + rest;
    }
  }

  predicate Unlocked(s: State) {
    && s.serverLock == None
    && (forall r | 0 <= r < |s.rooms| :: s.rooms[r].lock == None)
    && (forall u | 0 <= u < |s.queues| :: s.queues[u].lock == None)
  }

  lemma NoHoldersNoLocks(s: State)
    requires Safe(s) && Holders(s) == {}
    ensures Unlocked(s)
  {
    hide Rank;
    forall t | 0 <= t < |s.threads|
      ensures !HoldsServer(s.threads[t].pc) && !HoldsRoom(s.threads[t].pc)
      ensures HeldQueue(t, s.threads[t].pc) == None
    {
      RankOfHolders(t, s.threads[t].pc);
      assert t !in Holders(s);
    }
    forall r | 0 <= r < |s.rooms| ensures s.rooms[r].lock == None { assert RoomInv(s, r); }
    forall u | 0 <= u < |s.queues| ensures s.queues[u].lock == None { assert QueueInv(s, u); }
  }

  /** No deadlock: some continuation of every run leaves every lock free. */
  lemma {:induction false} Release(s: State) returns (steps: seq<Step>)
    requires Safe(s)
    ensures Runs(s, steps) && Unlocked(Final(s, steps))
    ensures var n := Final(s, steps);
      && Safe(n) && Holders(n) == {} && |n.threads| == |s.threads|
      && (forall v | 0 <= v < |s.threads| :: Stays(s.threads[v], n.threads[v]))
    decreases Holders(s)
  {
    hide Safe, Rank, Enabled, After, Unlocked, Going;
    if Holders(s) == {} {
      NoHoldersNoLocks(s);
      steps := [];
    } else {
      var t :| t in Holders(s);
      var first := LetGo(s, t);
      var m := Final(s, first);
      assert Holders(m) <= Holders(s) && t !in Holders(m);
      var rest := Release(m);
      RunsJoin(s, first, rest);
      steps := first + rest;
    }
  }

  lemma NoDeadlock(s: State)
    requires Reachable(s)
    ensures exists steps :: Runs(s, steps) && Unlocked(Final(s, steps))
  {
    ReachableIsSafe(s);
    var steps := Release(s);
  }

  // ----- every broadcast can be delivered

  /** Steps to the next wait, and a round for each message the semaphore counts. */
  function RoundsLeft(pc: Pc, q: Queue): (n: nat) {
    7 * q.avail +
    match pc
    case TakeLock => 6
    case TakePop => 5
    case TakeUnlock => 4
    case Deliver => 3
    case Free => 2
    case Check => 1
    case _ => 0
  }

  /** The receiver's next operation; its sends succeed. */
  function NextStep(u: nat, pc: Pc): (step: Step) {
    if pc.Deliver? then Send(u, true) else Act(u)
  }

  /** When only u may hold locks, nothing locks the queue that u is about to lock, or whose count it awaits. */
  lemma QueueIsFree(s: State, u: nat)
    requires Safe(s) && u < |s.threads| && Holders(s) <= {u} && (s.threads[u].pc.Wait? || s.threads[u].pc.TakeLock?)
    ensures s.queues[u].lock == None
  {
    hide Control, Rank;
    ControlOf(s, u);
    if s.queues[u].lock.Some? {
      var b := s.queues[u].lock.value;
      RankOfHolders(b, s.threads[b].pc);
      assert b in Holders(s);
    }
  }

  lemma GoesOn(s: State, u: nat)
    requires Safe(s) && u < |s.threads| && Holders(s) <= {u} && Going(s.threads[u])
    requires s.threads[u].pc.Wait? ==> s.queues[u].avail > 0
    ensures Enabled(s, NextStep(u, s.threads[u].pc))
  {
    hide Control, Holders;
    ControlOf(s, u);
    if s.threads[u].pc.TakeLock? { QueueIsFree(s, u); }
  }

  lemma TakeGoesOn(u: nat, th: Thread, q: Queue)
    requires Going(th) && IsTake(th.pc)
    ensures var e := Take(u, th, q);
      e.ok ==> Going(e.thread) && Stays(th, e.thread) && RoundsLeft(e.thread.pc, e.queue) < RoundsLeft(th.pc, q)
  {
  }

  lemma ReceiverMoves(s: State, u: nat)
    requires Safe(s) && u < |s.threads| && Going(s.threads[u]) && Enabled(s, NextStep(u, s.threads[u].pc))
    ensures var n := After(s, NextStep(u, s.threads[u].pc));
      && Safe(n) && |n.threads| == |s.threads| == |n.queues| == |s.queues| && Stays(s.threads[u], n.threads[u])
      && (forall v | 0 <= v < |s.threads| && v != u :: n.threads[v] == s.threads[v])
      && RoundsLeft(n.threads[u].pc, n.queues[u]) < RoundsLeft(s.threads[u].pc, s.queues[u])
  {
    hide Control, Sems, Order, Take, RoundsLeft, TakeEnabled;
    var th := s.threads[u];
    var step := NextStep(u, th.pc);
    StepKeepsSafe(s, step);
    ControlOf(s, u);
    if th.pc.Deliver? {
      SendGoesOn(th, s.queues[u]);
    } else {
      TakeGoesOn(u, th, s.queues[u]);
    }
  }

  lemma SendGoesOn(th: Thread, q: Queue)
    requires th.pc.Deliver?
    ensures var n := SentBy(th, true); Going(n) && Stays(th, n) && RoundsLeft(n.pc, q) < RoundsLeft(th.pc, q)
  {
  }

  /** What user u was sent is all that its room saw since it joined. */
  predicate CaughtUp(s: State, u: nat) {
    && HasRoom(s, u) && s.threads[u].joined <= |HistoryOf(s, u)|
    && s.threads[u].delivered == HistoryOf(s, u)[s.threads[u].joined..]
  }

  lemma NothingPending(s: State, u: nat)
    requires Safe(s) && u < |s.threads| && Holders(s) <= {u} && s.threads[u].pc.Wait?
    ensures HasRoom(s, u) && !Pending(s, u)
  {
    hide Control, Rank;
    ControlOf(s, u);
    Holder(s, u);
    var lock := s.rooms[s.threads[u].room.value].lock;
    if lock.Some? {
      RankOfHolders(lock.value, s.threads[lock.value].pc);
      assert lock.value in Holders(s);
    }
  }

  /** A receiver that waits for nothing has been sent everything. */
  lemma IdleIsCaughtUp(s: State, u: nat)
    requires Safe(s) && u < |s.threads| && Holders(s) <= {u} && s.threads[u].pc.Wait? && s.queues[u].avail == 0
    ensures CaughtUp(s, u)
  {
    hide Control, Holders;
    NothingPending(s, u);
    QueueIsFree(s, u);
    OrderOf(s, u);
    assert SemInv(s, u);
    var th, h := s.threads[u], HistoryOf(s, u);
    assert Pipeline(th, s.queues[u]) == th.delivered;
    assert h[th.joined..|h|] == h[th.joined..];
  }

  lemma SizesOf(s: State, u: nat)
    requires Safe(s) && u < |s.threads|
    ensures u < |s.queues|
  {
    SafeParts(s);
    ControlOf(s, u);
  }

  lemma {:induction false} Drain(s: State, u: nat) returns (steps: seq<Step>)
    requires Safe(s) && u < |s.threads| && Holders(s) <= {u} && Going(s.threads[u])
    ensures u < |s.queues| && Runs(s, steps)
    ensures var n := Final(s, steps); u < |n.threads| && Stays(s.threads[u], n.threads[u]) && CaughtUp(n, u)
    decreases RoundsLeft(s.threads[u].pc, s.queues[u])
  {
    hide Safe, Rank, Enabled, After, RoundsLeft, CaughtUp;
    SizesOf(s, u);
    if s.threads[u].pc.Wait? && s.queues[u].avail == 0 {
      IdleIsCaughtUp(s, u);
      steps := [];
    } else {
      var step := NextStep(u, s.threads[u].pc);
      GoesOn(s, u);
      ReceiverMoves(s, u);
      assert Holders(After(s, step)) <= {u};
      var rest := Drain(After(s, step), u);
      StepThenRun(s, step, rest);
      steps := [step] + rest;
    }
  }

  /** From every reachable state a receiver in its loop can be sent every message its room saw since its join. */
  lemma EveryBroadcastArrives(s: State, u: nat)
    requires Reachable(s) && u < |s.threads| && Going(s.threads[u])
    ensures exists steps ::
              && Runs(s, steps) && u < |Final(s, steps).threads|
              && Stays(s.threads[u], Final(s, steps).threads[u]) && CaughtUp(Final(s, steps), u)
  {
    hide Safe, Going, CaughtUp, Unlocked;
    ReachableIsSafe(s);
    var first := Release(s);
    var rest := Drain(Final(s, first), u);
    RunsJoin(s, first, rest);
  }
}
