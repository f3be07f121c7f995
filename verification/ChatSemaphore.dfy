/** The semaphore of a user's queue counts its messages, in every interleaving. */
module ChatSemaphore {
  import opened Framing
  import opened ChatModel
  import opened ChatControl

  /** A producer that has pushed to u and not posted yet. */
  predicate Posts(pc: Pc, u: nat) {
    pc.Cast? && pc.stage == Post(u)
  }

  predicate Posting(s: State, u: nat)
    requires u < |s.queues|
  {
    var lock := s.queues[u].lock;
    lock.Some? && lock.value < |s.threads| && Posts(s.threads[lock.value].pc, u)
  }

  /** A consumer past sem_timedwait that has not popped yet. */
  predicate Popping(pc: Pc) {
    pc.TakeLock? || pc.TakePop?
  }

  predicate Gone(pc: Pc) {
    pc.Delete? || pc.Done?
  }

  function One(b: bool): (n: nat) {
    if b then 1 else 0
  }

  predicate SemInv(s: State, u: nat)
    requires u < |s.threads| == |s.queues|
  {
    !Gone(s.threads[u].pc) ==>
      |s.queues[u].messages| == s.queues[u].avail + One(Posting(s, u)) + One(Popping(s.threads[u].pc))
  }

  ghost predicate Sems(s: State) {
    |s.threads| == |s.queues| && forall u | 0 <= u < |s.queues| :: SemInv(s, u)
  }

  /** A step of thread t that touches no queue. */
  predicate QueueFree(t: nat, th: Thread, th': Thread) {
    && HeldQueue(t, th.pc) == None == HeldQueue(t, th'.pc)
    && !Popping(th.pc) && !Popping(th'.pc) && (Gone(th.pc) ==> Gone(th'.pc))
  }

  lemma QueueFreeKeepsSems(s: State, n: State, t: nat, th': Thread)
    requires Control(s) && Sems(s) && t < |s.threads|
    requires n.queues == s.queues && n.threads == s.threads[t := th'] && QueueFree(t, s.threads[t], th')
    ensures Sems(n)
  {
    hide ThreadInv, RoomInv, NamesInv, ServerInv;
    forall u | 0 <= u < |n.queues| ensures SemInv(n, u) {
      assert SemInv(s, u) && QueueInv(s, u);
    }
  }

  /** Messages without a count: what the effect may not change. */
  function Surplus(t: nat, pc: Pc, u: nat, q: Queue): (d: int) {
    |q.messages| - q.avail - One(Posts(pc, u)) - One(t == u && Popping(pc))
  }

  ghost predicate Balanced(t: nat, th: Thread, u: nat, q: Queue, e: QueueEffect) {
    && (Gone(th.pc) ==> u == t && Gone(e.thread.pc))
    && (!Gone(th.pc) ==> !Gone(e.thread.pc) && Surplus(t, e.thread.pc, u, e.queue) == Surplus(t, th.pc, u, q))
    && (t != u ==> !Popping(th.pc) && !Popping(e.thread.pc))
    && (forall v | v != u :: !Posts(th.pc, v) && !Posts(e.thread.pc, v))
    && (Posts(th.pc, u) ==> HeldQueue(t, th.pc) == Some(u))
      && (Posts(e.thread.pc, u) ==> HeldQueue(t, e.thread.pc) == Some(u))
  }

  lemma QueueEffectKeepsSems(s: State, t: nat, u: nat, e: QueueEffect)
    requires Control(s) && Sems(s) && t < |s.threads| && u < |s.queues|
    requires e.ok ==> Balanced(t, s.threads[t], u, s.queues[u], e)
    requires e.ok ==> QueueLockStep(t, s.threads[t], e.thread, u, s.queues[u], e.queue)
    ensures Sems(WithQueueEffect(s, t, u, e))
  {
    hide RoomInv, NamesInv, ServerInv, HoldsRoom, IsMember, NeedsRoom, CastInv, Carries, HoldsServer, Popping, Gone,
        HeldQueue, Posts;
    var n := WithQueueEffect(s, t, u, e);
    assert ThreadInv(s, t) && QueueInv(s, u);
    forall v | 0 <= v < |n.queues| ensures SemInv(n, v) {
      assert SemInv(s, v) && QueueInv(s, v);
    }
  }

  lemma TakeBalances(t: nat, th: Thread, q: Queue)
    requires IsTake(th.pc)
    ensures var e := Take(t, th, q); e.ok ==> Balanced(t, th, t, q, e)
  {
  }

  lemma EnqueueBalances(t: nat, th: Thread, q: Queue)
    requires IsEnqueue(th.pc)
    ensures var e := Enqueue(t, th, q); e.ok ==> Balanced(t, th, th.pc.stage.target, q, e)
  {
  }

  lemma DestroyBalances(t: nat, th: Thread, q: Queue)
    requires th.pc.Delete?
    ensures var e := Destroy(th, q); e.ok ==> Balanced(t, th, t, q, e)
  {
  }

  // ----- the steps

  lemma ThreadStepsAreQueueFree(t: nat, th: Thread, result: Result, msg: Message, sent: bool)
    ensures Receives(th.pc) ==> QueueFree(t, th, Heard(th, result, msg))
    ensures Sends(th.pc) ==> QueueFree(t, th, SentBy(th, sent))
    ensures th.pc.Wait? ==> QueueFree(t, th, th.(pc := Check))
  {
    hide AfterLogin, AfterCommand, AfterJoinRequest, ValidLogin, RightTrim, Replied;
  }

  lemma RoomEffectsAreQueueFree(t: nat, th: Thread, room: Room)
    ensures IsMembership(th.pc) ==> QueueFree(t, th, Membership(t, th, room).thread)
    ensures IsCastEdge(th.pc) ==> QueueFree(t, th, CastEdge(t, th, room).thread)
  {
    hide DeliveryText;
  }

  lemma FindIsQueueFree(s: State, t: nat)
    requires t < |s.threads| && IsFind(s.threads[t].pc)
    ensures Find(s, t).queues == s.queues && |Find(s, t).threads| == |s.threads|
    ensures Find(s, t).threads == s.threads[t := Find(s, t).threads[t]]
        && QueueFree(t, s.threads[t], Find(s, t).threads[t])
  {
    if Find(s, t).threads == s.threads { assert s.threads == s.threads[t := s.threads[t]]; }
  }

  lemma PickIsQueueFree(s: State, t: nat, u: nat)
    requires t < |s.threads| && s.threads[t].pc.Cast? && s.threads[t].pc.stage.Idle?
    ensures PickMember(s, t, u).queues == s.queues && |PickMember(s, t, u).threads| == |s.threads|
    ensures PickMember(s, t, u).threads == s.threads[t := PickMember(s, t, u).threads[t]]
    ensures QueueFree(t, s.threads[t], PickMember(s, t, u).threads[t])
  {
    if PickMember(s, t, u).threads == s.threads { assert s.threads == s.threads[t := s.threads[t]]; }
  }

  lemma SpawnKeepsSems(s: State)
    requires Control(s) && Sems(s)
    ensures Sems(After(s, Spawn))
  {
    hide ThreadInv, RoomInv, NamesInv, ServerInv;
    var n := After(s, Spawn);
    forall u | 0 <= u < |n.queues| ensures SemInv(n, u) {
      if u < |s.queues| { assert SemInv(s, u) && QueueInv(s, u); }
    }
  }

  lemma ActedKeepsSems(s: State, t: nat)
    requires Control(s) && Sems(s) && t < |s.threads| && CanAct(s, t)
    ensures Sems(Acted(s, t))
  {
    hide Control, Sems, Balanced, QueueFree, Find, Membership, Take, CastEdge, Enqueue, Destroy, WithQueueEffect,
        QueueLockStep, QueueEffectOk, RoomEffectOk;
    ControlOf(s, t);
    var th, q := s.threads[t], s.queues[t];
    var n := Acted(s, t);
    if IsFind(th.pc) {
      FindIsQueueFree(s, t);
      QueueFreeKeepsSems(s, n, t, n.threads[t]);
    } else if IsMembership(th.pc) {
      MembershipActs(s, t);
      RoomEffectsAreQueueFree(t, th, s.rooms[th.room.value]);
      QueueFreeKeepsSems(s, n, t, n.threads[t]);
    } else if IsTake(th.pc) {
      TakeStands(t, th, q);
      TakeBalances(t, th, q);
      QueueEffectLocks(t, th, t, q, Take(t, th, q));
      QueueEffectKeepsSems(s, t, t, Take(t, th, q));
    } else if IsCastEdge(th.pc) {
      CastEdgeActs(s, t);
      RoomEffectsAreQueueFree(t, th, s.rooms[th.room.value]);
      QueueFreeKeepsSems(s, n, t, n.threads[t]);
    } else if IsEnqueue(th.pc) {
      var u := th.pc.stage.target;
      TargetIsLive(s, t);
      EnqueueStands(t, th, s.queues[u]);
      EnqueueBalances(t, th, s.queues[u]);
      QueueEffectLocks(t, th, u, s.queues[u], Enqueue(t, th, s.queues[u]));
      QueueEffectKeepsSems(s, t, u, Enqueue(t, th, s.queues[u]));
    } else {
      DestroyStands(t, th, q);
      DestroyBalances(t, th, q);
      QueueEffectLocks(t, th, t, q, Destroy(th, q));
      QueueEffectKeepsSems(s, t, t, Destroy(th, q));
    }
  }

  lemma QueueEffectLocks(t: nat, th: Thread, u: nat, q: Queue, e: QueueEffect)
    ensures QueueEffectOk(t, th, u, q, e) ==> QueueLockStep(t, th, e.thread, u, q, e.queue)
  {
  }

  lemma StepKeepsSems(s: State, step: Step)
    requires Control(s) && Sems(s) && Enabled(s, step)
    ensures Sems(After(s, step))
  {
    hide Control, Sems, CanAct, Acted, Heard, SentBy, PickMember, QueueFree;
    match step
    case Spawn => SpawnKeepsSems(s);
    case Receive(t, result, msg) => {
      ThreadStepsAreQueueFree(t, s.threads[t], result, msg, true);
      QueueFreeKeepsSems(s, After(s, step), t, Heard(s.threads[t], result, msg));
    }
    case Send(t, sent) => {
      ThreadStepsAreQueueFree(t, s.threads[t], SUCCESS, Message("", ""), sent);
      QueueFreeKeepsSems(s, After(s, step), t, SentBy(s.threads[t], sent));
    }
    case Timeout(t) => {
      ThreadStepsAreQueueFree(t, s.threads[t], SUCCESS, Message("", ""), true);
      QueueFreeKeepsSems(s, After(s, step), t, s.threads[t].(pc := Check));
    }
    case Pick(t, u) => {
      PickIsQueueFree(s, t, u);
      QueueFreeKeepsSems(s, After(s, step), t, PickMember(s, t, u).threads[t]);
    }
    case Act(t) => ActedKeepsSems(s, t);
  }
}
