/** What holds in every reachable state of the chat server, and over its runs. */
module ChatSafety {
  import opened ChatModel
  import opened ChatControl
  import opened ChatSemaphore
  import opened ChatOrder
  import opened ChatOwnership

  ghost predicate Safe(s: State) {
    Control(s) && Sems(s) && Order(s) && Owned(s) && !s.fault
  }

  // ----- nothing undefined happens

  /** A consumer past the semaphore finds a message. */
  lemma PopFindsMessage(s: State, t: nat)
    requires Sems(s) && t < |s.threads| && s.threads[t].pc.TakePop?
    ensures t < |s.queues| && s.queues[t].messages != []
  {
    assert SemInv(s, t);
  }

  lemma TakeIsDefined(s: State, t: nat)
    requires Control(s) && Sems(s) && t < |s.threads| && t < |s.queues| && IsTake(s.threads[t].pc) && TakeEnabled(s, t)
    ensures Take(t, s.threads[t], s.queues[t]).ok
  {
    hide Control;
    ControlOf(s, t);
    if s.threads[t].pc.TakePop? { PopFindsMessage(s, t); }
  }

  lemma EnqueueIsDefined(s: State, t: nat)
    requires Control(s) && t < |s.threads| && IsEnqueue(s.threads[t].pc)
    ensures Live(s, s.threads[t].pc.stage.target)
    ensures Enqueue(t, s.threads[t], s.queues[s.threads[t].pc.stage.target]).ok
  {
    hide Control;
    ControlOf(s, t);
    TargetIsLive(s, t);
  }

  /** A user is destroyed with nobody at its queue: it left its room before. */
  lemma DestroyIsDefined(s: State, t: nat)
    requires Control(s) && t < |s.threads| && s.threads[t].pc.Delete?
    ensures t < |s.queues| && s.queues[t].lock == None && Destroy(s.threads[t], s.queues[t]).ok
  {
    hide Control;
    ControlOf(s, t);
    var lock := s.queues[t].lock;
    if lock.Some? {
      var b := lock.value;
      if b != t { TargetIsLive(s, b); }
    }
  }

  lemma ActedIsDefined(s: State, t: nat)
    requires Safe(s) && t < |s.threads| && CanAct(s, t)
    ensures !Acted(s, t).fault
  {
    hide Control, Sems, Order, Owned, Conveys, Find, Membership, Take, CastEdge, Enqueue, Destroy, WithQueueEffect,
        RoomEffectOk;
    ControlOf(s, t);
    var th, q := s.threads[t], s.queues[t];
    if IsFind(th.pc) {
      FindKeepsControl(s, t);
    } else if IsMembership(th.pc) {
      MembershipActs(s, t);
    } else if IsTake(th.pc) {
      TakeIsDefined(s, t);
      TakeConveys(t, th, q);
      QueueEffectKeepsOwned(s, t, t, Take(t, th, q));
    } else if IsCastEdge(th.pc) {
      CastEdgeActs(s, t);
    } else if IsEnqueue(th.pc) {
      EnqueueIsDefined(s, t);
      var u := th.pc.stage.target;
      EnqueueConveys(t, th, s.queues[u]);
      QueueEffectKeepsOwned(s, t, u, Enqueue(t, th, s.queues[u]));
    } else {
      DestroyIsDefined(s, t);
      DestroyConveys(t, th, q);
      QueueEffectKeepsOwned(s, t, t, Destroy(th, q));
    }
  }

  lemma StepKeepsSafe(s: State, step: Step)
    requires Safe(s) && Enabled(s, step)
    ensures Safe(After(s, step))
  {
    hide Control, Sems, Order, Owned, Acted, CanAct, PickMember;
    StepKeepsControl(s, step);
    StepKeepsSems(s, step);
    StepKeepsOrder(s, step);
    StepKeepsOwned(s, step);
    match step
    case Act(t) => ActedIsDefined(s, t);
    case Pick(t, u) => PickKeepsControl(s, t, u);
    case _ =>
  }

  lemma {:induction false} RunKeepsSafe(s: State, steps: seq<Step>)
    requires Safe(s) && Runs(s, steps)
    ensures Safe(Final(s, steps))
    decreases |steps|
  {
    if steps != [] {
      StepKeepsSafe(s, steps[0]);
      RunKeepsSafe(After(s, steps[0]), steps[1..]);
    }
  }

  /** In no interleaving does a thread touch a destroyed user, pop an empty deque, or go wrong otherwise. */
  lemma ReachableIsSafe(s: State)
    requires Reachable(s)
    ensures Safe(s)
  {
    var steps :| Runs(Start(), steps) && Final(Start(), steps) == s;
    RunKeepsSafe(Start(), steps);
  }

  // ----- what the invariants say of a reachable state

  /** Queue length, semaphore, and the operations under way between the two. */
  lemma SemaphoreCounts(s: State, u: nat)
    requires Reachable(s) && u < |s.threads| && !Gone(s.threads[u].pc)
    ensures u < |s.queues|
    ensures |s.queues[u].messages| == s.queues[u].avail + One(Posting(s, u)) + One(Popping(s.threads[u].pc))
  {
    ReachableIsSafe(s);
    assert SemInv(s, u);
  }

  /**
   Ordered broadcast: when the lock of a member's room is free, what the member was sent or lost,
   holds, and has queued is the room's history since it joined.
   */
  lemma OrderedBroadcast(s: State, u: nat)
    requires Reachable(s) && u < |s.threads| && IsMember(s.threads[u].pc)
    ensures HasRoom(s, u) && u < |s.queues|
    ensures var room := s.rooms[s.threads[u].room.value];
            room.lock == None ==>
              s.threads[u].joined <= |room.history|
                && Pipeline(s.threads[u], s.queues[u]) == room.history[s.threads[u].joined..]
    ensures s.threads[u].connected ==> s.threads[u].lost == []
  {
    hide Safe, Control, Order;
    ReachableIsSafe(s);
    SafeParts(s);
    ControlOf(s, u);
    OrderOf(s, u);
    Holder(s, u);
    var h := HistoryOf(s, u);
    assert h[s.threads[u].joined..|h|] == h[s.threads[u].joined..];
  }

  lemma SafeParts(s: State)
    requires Safe(s)
    ensures Control(s) && Order(s) && Sems(s) && Owned(s) && !s.fault
  {
  }

  /**
   For ever after its leave, what a user was sent or lost, was destroyed with, and still has queued
   is exactly the history between its join and its leave.
   */
  lemma OrderedUntilLeave(s: State, u: nat)
    requires Reachable(s) && u < |s.threads| && Past(s.threads[u].pc)
    ensures u < |s.queues|
    ensures var th, h := s.threads[u], HistoryOf(s, u);
            && th.joined <= th.left <= |h|
            && th.delivered + th.lost + th.dropped + Data(s.queues[u].messages) == h[th.joined..th.left]
    ensures s.threads[u].pc.Done? ==> s.queues[u].messages == []
  {
    hide Safe, Control, Order;
    ReachableIsSafe(s);
    SafeParts(s);
    ControlOf(s, u);
    OrderOf(s, u);
  }

  /** For ever after, what was delivered is a gapless stretch of the room's history, within the stay. */
  lemma DeliveredInOrder(s: State, u: nat)
    requires Reachable(s) && u < |s.threads| && s.threads[u].delivered != []
    ensures HasRoom(s, u)
    ensures var th, h := s.threads[u], s.rooms[s.threads[u].room.value].history;
            && th.joined + |th.delivered| <= |h| && th.delivered == h[th.joined..th.joined + |th.delivered|]
            && (Past(th.pc) ==> th.joined + |th.delivered| <= th.left)
  {
    hide Safe, Control, Order, InStep;
    ReachableIsSafe(s);
    SafeParts(s);
    OrderOf(s, u);
    PrefixOfSlice(s.threads[u], s.queues[u], HistoryOf(s, u), Pending(s, u));
  }

  /** Two users of one room see the messages they share in the same order. */
  lemma SameOrder(s: State, u: nat, v: nat)
    requires Reachable(s) && u < |s.threads| && v < |s.threads|
    requires s.threads[u].delivered != [] && s.threads[v].delivered != [] && s.threads[u].room == s.threads[v].room
    requires s.threads[u].joined <= s.threads[v].joined <= s.threads[u].joined + |s.threads[u].delivered|
    ensures var late := s.threads[u].delivered[s.threads[v].joined - s.threads[u].joined..];
            late <= s.threads[v].delivered || s.threads[v].delivered <= late
  {
    DeliveredInOrder(s, u);
    DeliveredInOrder(s, v);
    var h := s.rooms[s.threads[u].room.value].history;
    var a, b := s.threads[u], s.threads[v];
    var late := a.delivered[b.joined - a.joined..];
    assert late == h[b.joined..a.joined + |a.delivered|];
    assert if |late| <= |b.delivered| then late == b.delivered[..|late|] else b.delivered == late[..|b.delivered|];
  }

  /** Every member is alive, and a worker about to delete its user is in no room. */
  lemma MembersAreLive(s: State, r: nat, u: nat)
    requires Reachable(s) && r < |s.rooms|
    ensures u in s.rooms[r].members ==> Live(s, u)
    ensures u < |s.threads| && Gone(s.threads[u].pc) ==> u !in s.rooms[r].members
  {
    ReachableIsSafe(s);
    assert RoomInv(s, r);
  }

  /** No two threads are in the critical section of one lock. */
  lemma MutualExclusion(s: State, t: nat, v: nat)
    requires Reachable(s) && t < |s.threads| && v < |s.threads| && t != v
    ensures !(HoldsServer(s.threads[t].pc) && HoldsServer(s.threads[v].pc))
    ensures HoldsRoom(s.threads[t].pc) && HoldsRoom(s.threads[v].pc) ==> s.threads[t].room != s.threads[v].room
    ensures HeldQueue(t, s.threads[t].pc) == None || HeldQueue(t, s.threads[t].pc) != HeldQueue(v, s.threads[v].pc)
  {
    ReachableIsSafe(s);
    assert ThreadInv(s, t) && ThreadInv(s, v);
  }

  // ----- ownership

  predicate InHandOf(s: State, t: nat, id: nat) {
    t < |s.threads| && exists m | m in s.threads[t].hand :: m.id == id
  }

  predicate Queued(s: State, u: nat, i: nat, id: nat) {
    u < |s.queues| && i < |s.queues[u].messages| && s.queues[u].messages[i].id == id
  }

  /** A message is in at most one hand or one position of one queue, and in none exactly when it is freed. */
  lemma OneOwner(s: State, id: nat)
    requires Reachable(s) && id < |s.places|
    ensures forall t, v | InHandOf(s, t, id) && InHandOf(s, v, id) :: t == v
    ensures forall u, i, v, j | Queued(s, u, i, id) && Queued(s, v, j, id) :: u == v && i == j
    ensures forall t, u, i :: !(InHandOf(s, t, id) && Queued(s, u, i, id))
    ensures s.places[id] == Freed <==> (forall t :: !InHandOf(s, t, id)) && (forall u, i :: !Queued(s, u, i, id))
  {
    hide Reachable, Control, Sems, Order;
    ReachableIsSafe(s);
    assert PlaceInv(s, id);
    forall t | InHandOf(s, t, id) ensures s.places[id] == InHand(t) { assert HandInv(s, t); }
    forall u: nat, i: nat | Queued(s, u, i, id)
      ensures s.places[id] == InQueue(u, s.queues[u].popped + i)
    {
      assert DequeInv(s, u);
    }
    match s.places[id]
    case InHand(t) =>
      assert s.threads[t].hand[0] in s.threads[t].hand;
      assert InHandOf(s, t, id);
    case InQueue(u, k) => assert Queued(s, u, k - s.queues[u].popped, id);
    case Freed =>
  }

  /** Once every worker is done, every message ever created has been freed. */
  lemma NothingLeaks(s: State, id: nat)
    requires Reachable(s) && id < |s.places|
    requires forall t | 0 <= t < |s.threads| :: s.threads[t].pc.Done?
    ensures s.places[id] == Freed
  {
    ReachableIsSafe(s);
    assert PlaceInv(s, id);
    forall t | 0 <= t < |s.threads| ensures s.threads[t].hand == [] && s.queues[t].messages == [] {
      assert ThreadInv(s, t) && QueueInv(s, t);
    }
  }

  // ----- over runs

  /** Rooms stay, keep their names, and only add to their history; names keep their rooms. */
  predicate Extends(s: State, n: State) {
    && |s.rooms| <= |n.rooms| && |s.threads| <= |n.threads| && |s.places| <= |n.places|
    && (forall r | 0 <= r < |s.rooms| :: n.rooms[r].name == s.rooms[r].name && s.rooms[r].history <= n.rooms[r].history)
    && (forall name | name in s.roomOf :: name in n.roomOf && n.roomOf[name] == s.roomOf[name])
  }

  lemma RoomEffectsExtend(t: nat, th: Thread, room: Room)
    ensures IsMembership(th.pc) ==>
        var e := Membership(t, th, room); e.room.name == room.name && room.history <= e.room.history
    ensures IsCastEdge(th.pc) ==>
        var e := CastEdge(t, th, room); e.room.name == room.name && room.history <= e.room.history
  {
    hide DeliveryText;
  }

  lemma ActedExtends(s: State, t: nat)
    requires t < |s.threads| == |s.queues| && CanAct(s, t)
    ensures Extends(s, Acted(s, t))
  {
    hide Membership, Take, CastEdge, Enqueue, Destroy, FindEnabled, RoomEnabled, TakeEnabled, CastEnabled;
    var th := s.threads[t];
    if HasRoom(s, t) { RoomEffectsExtend(t, th, s.rooms[th.room.value]); }
  }

  lemma StepExtends(s: State, step: Step)
    requires Enabled(s, step)
    ensures Extends(s, After(s, step))
  {
    hide Acted, CanAct, Heard, SentBy;
    if step.Act? { ActedExtends(s, step.t); }
  }

  /** A room name resolves to the same room in the whole rest of a run, and its history only grows. */
  lemma {:induction false} RunExtends(s: State, steps: seq<Step>)
    requires Runs(s, steps)
    ensures Extends(s, Final(s, steps))
    decreases |steps|
  {
    hide Enabled, After;
    if steps != [] {
      StepExtends(s, steps[0]);
      RunExtends(After(s, steps[0]), steps[1..]);
    }
  }

  /** Whoever looked a name up, whenever, got the room every later lookup gets. */
  lemma LookupsAgree(s: State, steps: seq<Step>, t: nat, v: nat)
    requires Reachable(s) && Runs(s, steps)
    requires t < |s.threads| && s.threads[t].pc.FindUnlock?
    requires v < |Final(s, steps).threads| && Final(s, steps).threads[v].pc.FindUnlock?
    ensures Final(s, steps).threads[v].pc.name == s.threads[t].pc.name <==>
              Final(s, steps).threads[v].pc.found == s.threads[t].pc.found
  {
    ReachableIsSafe(s);
    RunKeepsSafe(s, steps);
    RunExtends(s, steps);
    var n := Final(s, steps);
    assert ThreadInv(s, t) && ThreadInv(n, v);
    assert NamesInv(s) && NamesInv(n);
  }
}
