/** Who holds which lock, which room and which user, in every reachable state of the chat server. */
module ChatControl {
  import opened Framing
  import opened ChatModel

  // ----- what a program counter implies

  predicate HoldsServer(pc: Pc) {
    pc.FindLookup? || pc.FindUnlock?
  }

  predicate HoldsRoom(pc: Pc) {
    pc.AddInsert? || pc.AddUnlock? || pc.RemoveErase? || pc.RemoveUnlock? || pc.Cast?
  }

  function HeldQueue(t: nat, pc: Pc): (u: Option<nat>) {
    if pc.TakePop? || pc.TakeUnlock? then Some(t)
    else if pc.Cast? && (pc.stage.Push? || pc.stage.Post? || pc.stage.Unlock?) then Some(pc.stage.target)
    else None
  }

  /** Between insert and erase. */
  predicate IsMember(pc: Pc) {
    || pc.AddUnlock? || pc.AddReply?
    || pc.Wait? || pc.TakeLock? || pc.TakePop? || pc.TakeUnlock? || pc.Deliver? || pc.Free? || pc.Check?
    || pc.RemoveLock? || pc.RemoveErase?
  }

  predicate NeedsRoom(pc: Pc) {
    IsMember(pc) || HoldsRoom(pc) || pc.AddLock? || pc.CastLock?
  }

  predicate Carries(pc: Pc) {
    pc.TakeUnlock? || pc.Deliver? || pc.Free? || (pc.Cast? && (pc.stage.Lock? || pc.stage.Push?))
  }

  // ----- the invariant

  predicate NamesInv(s: State) {
    && (forall n | n in s.roomOf :: s.roomOf[n] < |s.rooms| && s.rooms[s.roomOf[n]].name == n)
    && (forall r | 0 <= r < |s.rooms| :: s.rooms[r].name in s.roomOf && s.roomOf[s.rooms[r].name] == r)
  }

  predicate ServerInv(s: State) {
    s.serverLock.Some? ==> s.serverLock.value < |s.threads| && HoldsServer(s.threads[s.serverLock.value].pc)
  }

  predicate CastInv(pc: Pc, hand: seq<Msg>, room: Room)
    requires pc.Cast?
  {
    && pc.todo <= room.members
    && (!pc.stage.Idle? ==> pc.stage.target in room.members && pc.stage.target !in pc.todo)
    && room.history != [] && room.history[|room.history| - 1] == pc.data
    && (forall m | m in hand :: m.data == pc.data)
  }

  predicate ThreadInv(s: State, t: nat)
    requires t < |s.threads| == |s.queues|
  {
    var th := s.threads[t];
    && (th.room.Some? ==> th.room.value < |s.rooms|)
    && |th.hand| == (if Carries(th.pc) then 1 else 0)
    && (th.pc.FindUnlock? ==> th.pc.name in s.roomOf && s.roomOf[th.pc.name] == th.pc.found)
    && (HoldsServer(th.pc) ==> s.serverLock == Some(t))
    && (NeedsRoom(th.pc) ==> th.room.Some?)
    && (HoldsRoom(th.pc) ==> s.rooms[th.room.value].lock == Some(t))
    && (IsMember(th.pc) ==> t in s.rooms[th.room.value].members)
    && (HeldQueue(t, th.pc).Some? ==>
          HeldQueue(t, th.pc).value < |s.queues| && s.queues[HeldQueue(t, th.pc).value].lock == Some(t))
    && (th.pc.Cast? ==> CastInv(th.pc, th.hand, s.rooms[th.room.value]))
  }

  predicate InRoom(s: State, t: nat, r: nat) {
    t < |s.threads| && s.threads[t].room == Some(r)
  }

  predicate RoomInv(s: State, r: nat)
    requires r < |s.rooms|
  {
    && (s.rooms[r].lock.Some? ==> InRoom(s, s.rooms[r].lock.value, r) && HoldsRoom(s.threads[s.rooms[r].lock.value].pc))
    && (forall u | u in s.rooms[r].members :: InRoom(s, u, r) && IsMember(s.threads[u].pc))
  }

  predicate QueueInv(s: State, u: nat)
    requires u < |s.threads| == |s.queues|
  {
    && (s.queues[u].lock.Some? ==>
          s.queues[u].lock.value < |s.threads|
            && HeldQueue(s.queues[u].lock.value, s.threads[s.queues[u].lock.value].pc) == Some(u))
    && (s.threads[u].pc.Done? ==> s.queues[u].messages == [])
  }

  ghost predicate Control(s: State) {
    && |s.threads| == |s.queues|
    && NamesInv(s) && ServerInv(s)
    && (forall t | 0 <= t < |s.threads| :: ThreadInv(s, t))
    && (forall r | 0 <= r < |s.rooms| :: RoomInv(s, r))
    && (forall u | 0 <= u < |s.queues| :: QueueInv(s, u))
  }

  // ----- kept by each kind of step; n is the state after it

  predicate SameServer(s: State, n: State) {
    n.serverLock == s.serverLock && n.roomOf == s.roomOf
  }

  /** Whether a thread may come to look like th' without anyone else noticing. */
  predicate SameStanding(t: nat, th: Thread, th': Thread) {
    && !HoldsServer(th.pc) && !HoldsServer(th'.pc)
    && HoldsRoom(th'.pc) == HoldsRoom(th.pc) && IsMember(th'.pc) == IsMember(th.pc)
    && |th'.hand| == (if Carries(th'.pc) then 1 else 0)
    && (NeedsRoom(th'.pc) ==> th'.room.Some?)
    && (th'.room == th.room || (th'.room == None && !HoldsRoom(th.pc) && !IsMember(th.pc)))
  }

  predicate CastOk(s: State, th: Thread)
    requires th.pc.Cast?
  {
    th.room.Some? && th.room.value < |s.rooms| && CastInv(th.pc, th.hand, s.rooms[th.room.value])
  }

  /** Thread t moves and queue u changes. */
  predicate QueueStep(s: State, n: State, t: nat, th': Thread, u: nat, q': Queue) {
    && t < |s.threads| && u < |s.queues|
    && SameServer(s, n) && n.rooms == s.rooms
    && n.threads == s.threads[t := th'] && n.queues == s.queues[u := q']
  }

  predicate QueueLockStep(t: nat, th: Thread, th': Thread, u: nat, q: Queue, q': Queue) {
    || (q'.lock == q.lock && HeldQueue(t, th'.pc) == HeldQueue(t, th.pc))
    || (q.lock == None && HeldQueue(t, th.pc) == None && q'.lock == Some(t) && HeldQueue(t, th'.pc) == Some(u))
    || (HeldQueue(t, th.pc) == Some(u) && q'.lock == None && HeldQueue(t, th'.pc) == None)
  }

  lemma QueueStepKeepsControl(s: State, n: State, t: nat, th': Thread, u: nat, q': Queue)
    requires Control(s) && QueueStep(s, n, t, th', u, q')
    requires SameStanding(t, s.threads[t], th') && QueueLockStep(t, s.threads[t], th', u, s.queues[u], q')
    requires th'.pc.Cast? ==> CastOk(s, th')
    requires n.threads[u].pc.Done? ==> q'.messages == []
    requires th'.pc.Done? ==> n.queues[t].messages == []
    ensures Control(n)
  {
    hide CastInv, IsMember, HoldsRoom, HoldsServer, NeedsRoom, Carries;
    QueueStepThreads(s, n, t, th', u, q');
    forall r | 0 <= r < |n.rooms| ensures RoomInv(n, r) { assert RoomInv(s, r); assert ThreadInv(s, t); }
    forall k | 0 <= k < |n.queues| ensures QueueInv(n, k) { assert QueueInv(s, k); assert ThreadInv(s, t); }
  }

  lemma QueueStepThreads(s: State, n: State, t: nat, th': Thread, u: nat, q': Queue)
    requires Control(s) && QueueStep(s, n, t, th', u, q')
    requires SameStanding(t, s.threads[t], th') && QueueLockStep(t, s.threads[t], th', u, s.queues[u], q')
    requires th'.pc.Cast? ==> CastOk(s, th')
    ensures forall k | 0 <= k < |n.threads| :: ThreadInv(n, k)
  {
    hide CastInv, IsMember, HoldsRoom, HoldsServer, NeedsRoom, Carries, HeldQueue;
    assert ThreadInv(s, t) && QueueInv(s, u);
    NeedsStanding(th'.pc);
    forall k | 0 <= k < |n.threads| ensures ThreadInv(n, k) { assert ThreadInv(s, k); }
  }

  lemma NeedsStanding(pc: Pc)
    ensures IsMember(pc) || HoldsRoom(pc) ==> NeedsRoom(pc)
    ensures pc.FindUnlock? ==> HoldsServer(pc)
    ensures pc.Cast? ==> HoldsRoom(pc)
  {
  }

  /** Thread t, in room r, moves and room r changes. */
  predicate RoomStep(s: State, n: State, t: nat, th': Thread, r: nat, room': Room) {
    && t < |s.threads| && r < |s.rooms|
    && SameServer(s, n) && n.queues == s.queues
    && n.threads == s.threads[t := th'] && n.rooms == s.rooms[r := room']
    && room'.name == s.rooms[r].name && th'.room == s.threads[t].room == Some(r)
    && (HoldsRoom(s.threads[t].pc) || s.rooms[r].lock == None)
    && room'.lock == (if HoldsRoom(th'.pc) then Some(t) else None)
    && room'.members == if IsMember(th'.pc) then s.rooms[r].members + {t} else s.rooms[r].members - {t}
  }

  /** No server lock, no queue lock, empty hands, before and after. */
  predicate Unburdened(th: Thread, th': Thread) {
    && !HoldsServer(th.pc) && !HoldsServer(th'.pc)
    && HeldQueue(0, th.pc) == None == HeldQueue(0, th'.pc)
    && th'.hand == [] && !Carries(th'.pc) && !th'.pc.Done?
  }

  lemma RoomStepKeepsControl(s: State, n: State, t: nat, th': Thread, r: nat, room': Room)
    requires Control(s) && RoomStep(s, n, t, th', r, room') && Unburdened(s.threads[t], th')
    requires th'.pc.Cast? ==> CastInv(th'.pc, th'.hand, room')
    ensures Control(n)
  {
    hide CastInv, IsMember, HoldsServer, NeedsRoom, Carries;
    assert ThreadInv(s, t) && RoomInv(s, r);
    NeedsStanding(th'.pc);
    RoomStepThreads(s, n, t, th', r, room');
    forall k | 0 <= k < |n.rooms| ensures RoomInv(n, k) { assert RoomInv(s, k); }
    forall k | 0 <= k < |n.queues| ensures QueueInv(n, k) { assert QueueInv(s, k); }
  }

  lemma RoomStepThreads(s: State, n: State, t: nat, th': Thread, r: nat, room': Room)
    requires Control(s) && RoomStep(s, n, t, th', r, room') && Unburdened(s.threads[t], th')
    requires th'.pc.Cast? ==> CastInv(th'.pc, th'.hand, room')
    ensures forall k | 0 <= k < |n.threads| :: ThreadInv(n, k)
  {
    hide CastInv, IsMember, HoldsServer, NeedsRoom, Carries, HoldsRoom;
    assert ThreadInv(s, t) && RoomInv(s, r);
    NeedsStanding(th'.pc);
    forall k | 0 <= k < |n.threads| ensures ThreadInv(n, k) {
      assert ThreadInv(s, k);
      NeedsStanding(s.threads[k].pc);
    }
  }

  /** Thread t, which belongs to no room, moves; the server lock changes, and rooms may be added. */
  predicate ServerStep(s: State, n: State, t: nat, th': Thread) {
    && t < |s.threads|
    && n.queues == s.queues && n.threads == s.threads[t := th']
    && s.rooms <= n.rooms
      && (forall r | |s.rooms| <= r < |n.rooms| :: n.rooms[r].lock == None && n.rooms[r].members == {})
    && (forall name | name in s.roomOf :: name in n.roomOf && n.roomOf[name] == s.roomOf[name])
    && (HoldsServer(s.threads[t].pc) || s.serverLock == None)
    && n.serverLock == (if HoldsServer(th'.pc) then Some(t) else None)
  }

  predicate Roomless(t: nat, th: Thread) {
    && !HoldsRoom(th.pc) && !IsMember(th.pc) && HeldQueue(t, th.pc) == None && !Carries(th.pc) && !th.pc.Done?
  }

  lemma ServerStepKeepsControl(s: State, n: State, t: nat, th': Thread)
    requires Control(s) && ServerStep(s, n, t, th') && NamesInv(n)
    requires Roomless(t, s.threads[t]) && Roomless(t, th') && th'.hand == []
    requires (NeedsRoom(th'.pc) ==> th'.room.Some?) && (th'.room.Some? ==> th'.room.value < |n.rooms|)
    requires th'.pc.FindUnlock? ==> th'.pc.name in n.roomOf && n.roomOf[th'.pc.name] == th'.pc.found
    ensures Control(n)
  {
    hide CastInv, IsMember, NeedsRoom, Carries, HoldsRoom, HeldQueue, NamesInv, HoldsServer;
    assert ThreadInv(s, t);
    NeedsStanding(th'.pc);
    forall k | 0 <= k < |n.threads| ensures ThreadInv(n, k) {
      assert ThreadInv(s, k);
      NeedsStanding(s.threads[k].pc);
    }
    forall r | 0 <= r < |n.rooms| ensures RoomInv(n, r) { if r < |s.rooms| { assert RoomInv(s, r); } }
    forall u | 0 <= u < |n.queues| ensures QueueInv(n, u) { assert QueueInv(s, u); }
  }

  // ----- the steps

  /** A thread that holds, carries and joins nothing, before and after. */
  predicate Quiet(t: nat, th: Thread, th': Thread) {
    && SameStanding(t, th, th') && !HoldsRoom(th.pc) && !th'.pc.Done?
    && HeldQueue(t, th'.pc) == None == HeldQueue(t, th.pc)
  }

  lemma QuietKeepsControl(s: State, t: nat, th': Thread)
    requires Control(s) && t < |s.threads| && Quiet(t, s.threads[t], th') && !s.threads[t].pc.Done?
    ensures Control(WithThread(s, t, th'))
  {
    hide CastInv;
    assert QueueInv(s, t);
    QueueStepKeepsControl(s, WithThread(s, t, th'), t, th', t, s.queues[t]);
  }

  lemma HeardIsQuiet(s: State, t: nat, result: Result, msg: Message)
    requires Control(s) && t < |s.threads| && Receives(s.threads[t].pc)
    ensures Quiet(t, s.threads[t], Heard(s.threads[t], result, msg))
  {
    hide AfterLogin, AfterCommand, AfterJoinRequest, ValidLogin, RightTrim;
    assert ThreadInv(s, t);
  }

  lemma SentIsQuiet(s: State, t: nat, sent: bool)
    requires Control(s) && t < |s.threads| && Sends(s.threads[t].pc)
    ensures Quiet(t, s.threads[t], SentBy(s.threads[t], sent))
  {
    hide Replied;
    assert ThreadInv(s, t);
  }

  lemma SpawnKeepsControl(s: State)
    requires Control(s)
    ensures Control(After(s, Spawn))
  {
    hide CastInv, IsMember, HoldsServer, NeedsRoom, Carries, HoldsRoom, HeldQueue;
    var n := After(s, Spawn);
    NewcomerStands(|s.threads|);
    forall k | 0 <= k < |n.threads| ensures ThreadInv(n, k) { if k < |s.threads| { assert ThreadInv(s, k); } }
    forall r | 0 <= r < |n.rooms| ensures RoomInv(n, r) { assert RoomInv(s, r); }
    forall u | 0 <= u < |n.queues| ensures QueueInv(n, u) { if u < |s.queues| { assert QueueInv(s, u); } }
  }

  lemma NewcomerStands(t: nat)
    ensures var pc := Newcomer().pc;
            !NeedsRoom(pc) && !IsMember(pc) && !HoldsRoom(pc) && !HoldsServer(pc) && !Carries(pc)
              && HeldQueue(t, pc) == None
  {
  }

  /** What the invariant says of one thread. */
  lemma ControlOf(s: State, t: nat)
    requires Control(s) && t < |s.threads|
    ensures t < |s.queues| == |s.threads|
    ensures ThreadInv(s, t) && QueueInv(s, t)
    ensures s.threads[t].room.Some? ==> s.threads[t].room.value < |s.rooms| && RoomInv(s, s.threads[t].room.value)
  {
    assert ThreadInv(s, t);
  }

  // effects on a room

  lemma MembershipStands(t: nat, th: Thread, room: Room)
    requires IsMembership(th.pc) && th.hand == [] && th.room.Some?
    requires (HoldsRoom(th.pc) ==> room.lock == Some(t)) && (!HoldsRoom(th.pc) ==> room.lock == None)
    requires t in room.members <==> IsMember(th.pc)
    ensures var e := Membership(t, th, room); e.ok && RoomEffectOk(t, th, room, e)
  {
  }

  lemma CastEdgeStands(t: nat, th: Thread, room: Room)
    requires IsCastEdge(th.pc) && th.hand == [] && th.room.Some?
    requires (HoldsRoom(th.pc) ==> room.lock == Some(t)) && (!HoldsRoom(th.pc) ==> room.lock == None)
    requires t !in room.members
    ensures var e := CastEdge(t, th, room); e.ok && RoomEffectOk(t, th, room, e)
  {
    hide DeliveryText;
  }

  predicate RoomEffectOk(t: nat, th: Thread, room: Room, e: RoomEffect) {
    && e.room.name == room.name && e.thread.room == th.room
    && e.room.lock == (if HoldsRoom(e.thread.pc) then Some(t) else None)
    && e.room.members == (if IsMember(e.thread.pc) then room.members + {t} else room.members - {t})
    && Unburdened(th, e.thread)
    && (e.thread.pc.Cast? ==> CastInv(e.thread.pc, e.thread.hand, e.room))
  }

  lemma RoomEffectKeepsControl(s: State, t: nat, r: nat, e: RoomEffect)
    requires Control(s) && InRoom(s, t, r) && r < |s.rooms| && e.ok
    requires RoomEffectOk(t, s.threads[t], s.rooms[r], e)
    requires HoldsRoom(s.threads[t].pc) || s.rooms[r].lock == None
    ensures Control(WithRoomEffect(s, t, r, e))
  {
    hide Control, CastInv, HoldsRoom, IsMember, Unburdened;
    RoomStepKeepsControl(s, WithRoomEffect(s, t, r, e), t, e.thread, r, e.room);
  }

  // effects on a queue

  predicate QueueEffectOk(t: nat, th: Thread, u: nat, q: Queue, e: QueueEffect) {
    && SameStanding(t, th, e.thread) && e.thread.room == th.room
    && QueueLockStep(t, th, e.thread, u, q, e.queue)
    && (e.thread.pc.Cast? ==>
      th.pc.Cast? && SameCast(th.pc, e.thread.pc) && (e.thread.hand == [] || e.thread.hand == th.hand))
    && (e.thread.pc.Done? ==> u == t && e.queue.messages == [])
  }

  predicate SameCast(pc: Pc, pc': Pc)
    requires pc.Cast? && pc'.Cast?
  {
    pc'.data == pc.data && pc'.todo == pc.todo
      && (pc'.stage.Idle? || (!pc.stage.Idle? && pc'.stage.target == pc.stage.target))
  }

  lemma TakeStands(t: nat, th: Thread, q: Queue)
    requires IsTake(th.pc) && (NeedsRoom(th.pc) ==> th.room.Some?)
    requires |th.hand| == (if Carries(th.pc) then 1 else 0)
    requires (th.pc.TakeLock? ==> q.lock == None)
    ensures var e := Take(t, th, q); e.ok ==> QueueEffectOk(t, th, t, q, e)
  {
  }

  lemma EnqueueStands(t: nat, th: Thread, q: Queue)
    requires IsEnqueue(th.pc) && th.room.Some?
    requires |th.hand| == (if Carries(th.pc) then 1 else 0)
    requires (th.pc.stage.Lock? ==> q.lock == None)
    ensures var e := Enqueue(t, th, q); e.ok ==> QueueEffectOk(t, th, th.pc.stage.target, q, e)
  {
  }

  lemma DestroyStands(t: nat, th: Thread, q: Queue)
    requires th.pc.Delete? && th.hand == []
    ensures var e := Destroy(th, q); e.ok ==> QueueEffectOk(t, th, t, q, e)
  {
  }

  lemma QueueEffectKeepsControl(s: State, t: nat, u: nat, e: QueueEffect)
    requires Control(s) && t < |s.threads| && u < |s.queues|
    requires e.ok ==> QueueEffectOk(t, s.threads[t], u, s.queues[u], e)
    requires !s.threads[u].pc.Done?
    ensures Control(WithQueueEffect(s, t, u, e))
  {
    hide Control, SameStanding, QueueLockStep;
    ControlOf(s, t);
    ControlOf(s, u);
    var n := WithQueueEffect(s, t, u, e);
    if e.ok && CanMove(s, e.move) {
      SameCastKeepsInv(s, s.threads[t], e.thread);
      QueueStepKeepsControl(s, n, t, e.thread, u, e.queue);
    } else {
      SameControl(s, n);
    }
  }

  lemma SameCastKeepsInv(s: State, th: Thread, th': Thread)
    requires th.pc.Cast? && th'.pc.Cast? ==>
        SameCast(th.pc, th'.pc) && th'.room == th.room && (th'.hand == [] || th'.hand == th.hand)
    ensures th.pc.Cast? && th'.pc.Cast? && CastOk(s, th) ==> CastOk(s, th')
  {
  }

  lemma SameControl(s: State, n: State)
    requires Control(s) && SameServer(s, n) && n.threads == s.threads && n.rooms == s.rooms && n.queues == s.queues
    ensures Control(n)
  {
    hide CastInv, IsMember, NeedsRoom, Carries, HoldsRoom, HeldQueue, HoldsServer;
    forall k | 0 <= k < |n.threads| ensures ThreadInv(n, k) { assert ThreadInv(s, k); }
    forall r | 0 <= r < |n.rooms| ensures RoomInv(n, r) { assert RoomInv(s, r); }
    forall u | 0 <= u < |n.queues| ensures QueueInv(n, u) { assert QueueInv(s, u); }
  }

  // the rest

  lemma PickKeepsControl(s: State, t: nat, u: nat)
    requires Control(s) && Enabled(s, Pick(t, u))
    ensures Control(PickMember(s, t, u)) && PickMember(s, t, u).fault == s.fault
  {
    hide CanAct, Control;
    ControlOf(s, t);
    var n := PickMember(s, t, u);
    QueueStepKeepsControl(s, n, t, n.threads[t], t, s.queues[t]);
  }

  /** The target of an enqueue is a member of a locked room, so its user exists. */
  lemma TargetIsLive(s: State, t: nat)
    requires Control(s) && t < |s.threads| && IsEnqueue(s.threads[t].pc)
    ensures Live(s, s.threads[t].pc.stage.target) && IsMember(s.threads[s.threads[t].pc.stage.target].pc)
    ensures s.threads[t].room.Some? && InRoom(s, s.threads[t].pc.stage.target, s.threads[t].room.value)
  {
    ControlOf(s, t);
  }

  lemma FindIsServerStep(s: State, t: nat)
    requires t < |s.threads| && IsFind(s.threads[t].pc) && FindEnabled(s, t) && NamesInv(s)
    requires HoldsServer(s.threads[t].pc) ==> s.serverLock == Some(t)
    ensures var n := Find(s, t); n.fault == s.fault && ServerStep(s, n, t, n.threads[t])
  {
  }

  lemma FindStands(s: State, t: nat)
    requires t < |s.threads| && IsFind(s.threads[t].pc) && s.threads[t].hand == []
    requires HoldsServer(s.threads[t].pc) ==> s.serverLock == Some(t)
    ensures var th' := Find(s, t).threads[t];
            && Roomless(t, s.threads[t]) && Roomless(t, th') && th'.hand == []
            && (NeedsRoom(th'.pc) ==> th'.room.Some?)
            && (th'.room == s.threads[t].room
              || (s.threads[t].pc.FindUnlock? && th'.room == Some(s.threads[t].pc.found)))
            && (th'.pc.FindUnlock? ==>
              th'.pc.name in Find(s, t).roomOf && Find(s, t).roomOf[th'.pc.name] == th'.pc.found)
  {
  }

  lemma FindKeepsControl(s: State, t: nat)
    requires Control(s) && t < |s.threads| && IsFind(s.threads[t].pc) && FindEnabled(s, t)
    ensures Control(Find(s, t)) && Find(s, t).fault == s.fault
  {
    hide Control, RoomInv, QueueInv, CastInv, NamesInv, Find, Roomless, NeedsRoom, HoldsRoom;
    ControlOf(s, t);
    FindKeepsNames(s, t);
    FindIsServerStep(s, t);
    FindStands(s, t);
    var n := Find(s, t);
    ServerStepKeepsControl(s, n, t, n.threads[t]);
  }

  lemma FindKeepsNames(s: State, t: nat)
    requires Control(s) && t < |s.threads| && IsFind(s.threads[t].pc)
    ensures NamesInv(s) && NamesInv(Find(s, t))
    ensures s.threads[t].pc.FindUnlock? ==> s.threads[t].pc.found < |s.rooms|
  {
    hide RoomInv, QueueInv, ServerInv;
    var n := Find(s, t);
    assert ThreadInv(s, t);
    if n.rooms != s.rooms {
      assert forall r | 0 <= r < |s.rooms| :: n.rooms[r] == s.rooms[r];
    }
  }

  /** Every kind of step in terms of one thread and one other object. */
  lemma ActedKeepsControl(s: State, t: nat)
    requires Control(s) && t < |s.threads| && CanAct(s, t)
    ensures Control(Acted(s, t))
  {
    hide Control, RoomInv, QueueInv, CastInv, NamesInv, Find, Membership, Take, CastEdge, Enqueue, Destroy,
        QueueEffectOk, RoomEffectOk, WithQueueEffect, WithRoomEffect;
    ControlOf(s, t);
    var th, q := s.threads[t], s.queues[t];
    if IsFind(th.pc) {
      FindKeepsControl(s, t);
    } else if IsMembership(th.pc) {
      MembershipActs(s, t);
    } else if IsTake(th.pc) {
      TakeStands(t, th, q);
      QueueEffectKeepsControl(s, t, t, Take(t, th, q));
    } else if IsCastEdge(th.pc) {
      CastEdgeActs(s, t);
    } else if IsEnqueue(th.pc) {
      TargetIsLive(s, t);
      EnqueueStands(t, th, s.queues[th.pc.stage.target]);
      QueueEffectKeepsControl(s, t, th.pc.stage.target, Enqueue(t, th, s.queues[th.pc.stage.target]));
    } else {
      DestroyStands(t, th, q);
      QueueEffectKeepsControl(s, t, t, Destroy(th, q));
    }
  }

  lemma MembershipActs(s: State, t: nat)
    requires Control(s) && t < |s.threads| && IsMembership(s.threads[t].pc) && RoomEnabled(s, t)
    ensures HasRoom(s, t)
    ensures var e := Membership(t, s.threads[t], s.rooms[s.threads[t].room.value]);
            e.ok && RoomEffectOk(t, s.threads[t], s.rooms[s.threads[t].room.value], e)
    ensures Control(WithRoomEffect(s, t, s.threads[t].room.value,
        Membership(t, s.threads[t], s.rooms[s.threads[t].room.value])))
  {
    hide Control, QueueInv, CastInv, Membership, RoomEffectOk;
    ControlOf(s, t);
    var th := s.threads[t];
    var room := s.rooms[th.room.value];
    MembershipStands(t, th, room);
    RoomEffectKeepsControl(s, t, th.room.value, Membership(t, th, room));
  }

  lemma CastEdgeActs(s: State, t: nat)
    requires Control(s) && t < |s.threads| && IsCastEdge(s.threads[t].pc) && RoomEnabled(s, t)
    ensures HasRoom(s, t)
    ensures var e := CastEdge(t, s.threads[t], s.rooms[s.threads[t].room.value]);
            e.ok && RoomEffectOk(t, s.threads[t], s.rooms[s.threads[t].room.value], e)
    ensures Control(WithRoomEffect(s, t, s.threads[t].room.value,
        CastEdge(t, s.threads[t], s.rooms[s.threads[t].room.value])))
  {
    hide Control, QueueInv, CastInv, CastEdge, RoomEffectOk;
    ControlOf(s, t);
    var th := s.threads[t];
    var room := s.rooms[th.room.value];
    CastEdgeStands(t, th, room);
    RoomEffectKeepsControl(s, t, th.room.value, CastEdge(t, th, room));
  }

  lemma StepKeepsControl(s: State, step: Step)
    requires Control(s) && Enabled(s, step)
    ensures Control(After(s, step))
  {
    hide Control, Quiet, CanAct, Acted, Heard, SentBy, PickMember;
    match step
    case Spawn => SpawnKeepsControl(s);
    case Receive(t, result, msg) => {
      HeardIsQuiet(s, t, result, msg);
      QuietKeepsControl(s, t, Heard(s.threads[t], result, msg));
    }
    case Send(t, sent) => {
      SentIsQuiet(s, t, sent);
      QuietKeepsControl(s, t, SentBy(s.threads[t], sent));
    }
    case Timeout(t) => {
      TimeoutIsQuiet(s, t);
      QuietKeepsControl(s, t, s.threads[t].(pc := Check));
    }
    case Pick(t, u) => PickKeepsControl(s, t, u);
    case Act(t) => ActedKeepsControl(s, t);
  }

  lemma TimeoutIsQuiet(s: State, t: nat)
    requires Control(s) && t < |s.threads| && s.threads[t].pc.Wait?
    ensures Quiet(t, s.threads[t], s.threads[t].(pc := Check))
  {
    assert ThreadInv(s, t);
  }
}
