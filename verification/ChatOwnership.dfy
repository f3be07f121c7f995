/** Every message of a broadcast is in one queue, in one thread's hand, or freed. */
module ChatOwnership {
  import opened Framing
  import opened ChatModel
  import opened ChatControl

  predicate HandInv(s: State, t: nat)
    requires t < |s.threads|
  {
    forall m | m in s.threads[t].hand :: m.id < |s.places| && s.places[m.id] == InHand(t)
  }

  predicate DequeInv(s: State, u: nat)
    requires u < |s.queues|
  {
    var q := s.queues[u];
    forall i | 0 <= i < |q.messages| ::
        q.messages[i].id < |s.places| && s.places[q.messages[i].id] == InQueue(u, q.popped + i)
  }

  predicate PlaceInv(s: State, id: nat)
    requires id < |s.places|
  {
    match s.places[id]
    case InHand(t) => t < |s.threads| && |s.threads[t].hand| == 1 && s.threads[t].hand[0].id == id
    case InQueue(u, k) => u < |s.queues| && s.queues[u].popped <= k < s.queues[u].popped + |s.queues[u].messages|
                          && s.queues[u].messages[k - s.queues[u].popped].id == id
    case Freed => true
  }

  ghost predicate Owned(s: State) {
    && (forall t | 0 <= t < |s.threads| :: HandInv(s, t))
    && (forall u | 0 <= u < |s.queues| :: DequeInv(s, u))
    && (forall id | 0 <= id < |s.places| :: PlaceInv(s, id))
  }

  // ----- what a step may do with messages

  /** Hands and deques as they were, up to new threads with neither. */
  predicate SameHolders(s: State, n: State) {
    && |s.threads| <= |n.threads| && |s.queues| <= |n.queues|
    && (forall t | 0 <= t < |s.threads| :: n.threads[t].hand == s.threads[t].hand)
    && (forall u | 0 <= u < |s.queues| ::
      n.queues[u].messages == s.queues[u].messages && n.queues[u].popped == s.queues[u].popped)
    && (forall t | |s.threads| <= t < |n.threads| :: n.threads[t].hand == [])
    && (forall u | |s.queues| <= u < |n.queues| :: n.queues[u].messages == [])
  }

  lemma SameHoldersKeepOwned(s: State, n: State)
    requires Owned(s) && SameHolders(s, n) && n.places == s.places
    ensures Owned(n)
  {
    forall t | 0 <= t < |n.threads| ensures HandInv(n, t) { if t < |s.threads| { assert HandInv(s, t); } }
    forall u | 0 <= u < |n.queues| ensures DequeInv(n, u) { if u < |s.queues| { assert DequeInv(s, u); } }
    forall id | 0 <= id < |n.places| ensures PlaceInv(n, id) { assert PlaceInv(s, id); }
  }

  /** Thread t and queue u change, and message id goes to place p. */
  predicate OneMoves(s: State, n: State, t: nat, u: nat, id: nat, p: Place) {
    && t < |s.threads| && u < |s.queues| && id < |s.places|
    && n.threads == s.threads[t := if t < |n.threads| then n.threads[t] else s.threads[t]]
    && n.queues == s.queues[u := if u < |n.queues| then n.queues[u] else s.queues[u]]
    && n.places == s.places[id := p]
  }

  /** The front of t's deque goes to t's hand, or is freed. */
  lemma PopKeepsOwned(s: State, n: State, t: nat, id: nat, p: Place)
    requires Owned(s) && OneMoves(s, n, t, t, id, p)
    requires s.queues[t].messages != [] && s.queues[t].messages[0].id == id
    requires n.queues[t].messages == s.queues[t].messages[1..] && n.queues[t].popped == s.queues[t].popped + 1
    requires s.threads[t].hand == []
    requires (p == InHand(t) && n.threads[t].hand == [s.queues[t].messages[0]])
        || (p == Freed && n.threads[t].hand == [])
    ensures Owned(n)
  {
    assert DequeInv(s, t) && s.places[id] == InQueue(t, s.queues[t].popped + 0);
    forall k | 0 <= k < |n.threads| ensures HandInv(n, k) { assert HandInv(s, k); }
    forall u | 0 <= u < |n.queues| ensures DequeInv(n, u) { assert DequeInv(s, u); }
    forall i | 0 <= i < |n.places| ensures PlaceInv(n, i) { assert PlaceInv(s, i); }
  }

  /** The message in t's hand goes to the back of u's deque. */
  lemma PushKeepsOwned(s: State, n: State, t: nat, u: nat, m: Msg)
    requires Owned(s) && u < |s.queues|
        && OneMoves(s, n, t, u, m.id, InQueue(u, s.queues[u].popped + |s.queues[u].messages|))
    requires s.threads[t].hand == [m] && n.threads[t].hand == []
    requires n.queues[u].messages == s.queues[u].messages + [m] && n.queues[u].popped == s.queues[u].popped
    ensures Owned(n)
  {
    assert HandInv(s, t) && m in s.threads[t].hand;
    forall k | 0 <= k < |n.threads| ensures HandInv(n, k) { assert HandInv(s, k); }
    forall v | 0 <= v < |n.queues| ensures DequeInv(n, v) { assert DequeInv(s, v); }
    forall i | 0 <= i < |n.places| ensures PlaceInv(n, i) { assert PlaceInv(s, i); }
  }

  /** The message in t's hand is freed. */
  lemma FreeKeepsOwned(s: State, n: State, t: nat, u: nat, m: Msg)
    requires Owned(s) && OneMoves(s, n, t, u, m.id, Freed)
    requires s.threads[t].hand == [m] && n.threads[t].hand == []
    requires n.queues[u] == s.queues[u]
    ensures Owned(n)
  {
    assert HandInv(s, t) && m in s.threads[t].hand;
    assert n.queues == s.queues;
    forall k | 0 <= k < |n.threads| ensures HandInv(n, k) { assert HandInv(s, k); }
    forall v | 0 <= v < |n.queues| ensures DequeInv(n, v) { assert DequeInv(s, v); }
    forall i | 0 <= i < |n.places| ensures PlaceInv(n, i) { assert PlaceInv(s, i); }
  }

  lemma PickKeepsOwned(s: State, t: nat, u: nat)
    requires Owned(s) && t < |s.threads| && s.threads[t].pc.Cast? && s.threads[t].hand == []
    ensures Owned(PickMember(s, t, u))
  {
    var n := PickMember(s, t, u);
    forall k | 0 <= k < |n.threads| ensures HandInv(n, k) { assert HandInv(s, k); }
    forall v | 0 <= v < |n.queues| ensures DequeInv(n, v) { assert DequeInv(s, v); }
    forall i | 0 <= i < |n.places| ensures PlaceInv(n, i) { if i < |s.places| { assert PlaceInv(s, i); } }
  }

  // ----- the steps

  predicate SameMessages(th: Thread, q: Queue, th': Thread, q': Queue) {
    th'.hand == th.hand && q'.messages == q.messages && q'.popped == q.popped
  }

  lemma ThreadStepsMoveNothing(th: Thread, result: Result, msg: Message, sent: bool)
    ensures Receives(th.pc) ==> Heard(th, result, msg).hand == th.hand
    ensures Sends(th.pc) ==> SentBy(th, sent).hand == th.hand
  {
  }

  lemma RoomEffectsMoveNothing(t: nat, th: Thread, room: Room)
    ensures IsMembership(th.pc) ==> Membership(t, th, room).thread.hand == th.hand
    ensures IsCastEdge(th.pc) ==> CastEdge(t, th, room).thread.hand == th.hand
  {
    hide DeliveryText;
  }

  lemma FindMovesNothing(s: State, t: nat)
    requires t < |s.threads| && IsFind(s.threads[t].pc)
    ensures SameHolders(s, Find(s, t)) && Find(s, t).places == s.places
  {
  }

  /** The ways an operation on a queue moves a message. */
  predicate Conveys(t: nat, th: Thread, u: nat, q: Queue, e: QueueEffect) {
    if e.move == None then SameMessages(th, q, e.thread, e.queue)
    else Pops(t, th, u, q, e) || Pushes(t, th, u, q, e) || Frees(th, q, e)
  }

  predicate Pops(t: nat, th: Thread, u: nat, q: Queue, e: QueueEffect) {
    && u == t && th.hand == [] && q.messages != []
    && e.queue.messages == q.messages[1..] && e.queue.popped == q.popped + 1
    && ((e.move == Some(Move(q.messages[0].id, InHand(t))) && e.thread.hand == [q.messages[0]])
        || (e.move == Some(Move(q.messages[0].id, Freed)) && e.thread.hand == []))
  }

  predicate Pushes(t: nat, th: Thread, u: nat, q: Queue, e: QueueEffect) {
    && |th.hand| == 1 && e.thread.hand == []
    && e.queue.messages == q.messages + th.hand && e.queue.popped == q.popped
    && e.move == Some(Move(th.hand[0].id, InQueue(u, q.popped + |q.messages|)))
  }

  predicate Frees(th: Thread, q: Queue, e: QueueEffect) {
    |th.hand| == 1 && e.thread.hand == [] && e.queue == q && e.move == Some(Move(th.hand[0].id, Freed))
  }

  lemma TakeConveys(t: nat, th: Thread, q: Queue)
    requires IsTake(th.pc) && |th.hand| == (if Carries(th.pc) then 1 else 0)
    ensures var e := Take(t, th, q); e.ok ==> Conveys(t, th, t, q, e)
  {
  }

  lemma EnqueueConveys(t: nat, th: Thread, q: Queue)
    requires IsEnqueue(th.pc) && |th.hand| == (if Carries(th.pc) then 1 else 0)
    ensures var e := Enqueue(t, th, q); e.ok ==> Conveys(t, th, th.pc.stage.target, q, e)
  {
  }

  lemma DestroyConveys(t: nat, th: Thread, q: Queue)
    requires th.pc.Delete? && th.hand == []
    ensures var e := Destroy(th, q); e.ok ==> Conveys(t, th, t, q, e)
  {
  }

  /** What an operation moves is there to be moved, and ends in one place. */
  lemma QueueEffectKeepsOwned(s: State, t: nat, u: nat, e: QueueEffect)
    requires Owned(s) && t < |s.threads| && u < |s.queues|
    requires e.ok ==> Conveys(t, s.threads[t], u, s.queues[u], e)
    ensures Owned(WithQueueEffect(s, t, u, e))
    ensures e.ok ==> WithQueueEffect(s, t, u, e).fault == s.fault
  {
    hide Owned;
    OwnedOf(s, t, u);
    var n := WithQueueEffect(s, t, u, e);
    var th, q := s.threads[t], s.queues[u];
    if !e.ok || e.move == None {
      SameHoldersKeepOwned(s, n);
    } else {
      var id, p := e.move.value.id, e.move.value.place;
      if Pops(t, th, u, q, e) {
        PopKeepsOwned(s, n, t, id, p);
      } else if Pushes(t, th, u, q, e) {
        PushKeepsOwned(s, n, t, u, th.hand[0]);
      } else {
        FreeKeepsOwned(s, n, t, u, th.hand[0]);
      }
    }
  }

  lemma OwnedOf(s: State, t: nat, u: nat)
    requires Owned(s) && t < |s.threads| && u < |s.queues|
    ensures forall m | m in s.threads[t].hand :: m.id < |s.places| && s.places[m.id] == InHand(t)
    ensures s.queues[u].messages != [] ==>
              s.queues[u].messages[0].id < |s.places| && s.places[s.queues[u].messages[0].id].InQueue?
  {
    assert HandInv(s, t) && DequeInv(s, u);
    if s.queues[u].messages != [] { assert s.places[s.queues[u].messages[0].id] == InQueue(u, s.queues[u].popped + 0); }
  }

  lemma ThreadStepKeepsOwned(s: State, n: State, t: nat, th': Thread)
    requires Owned(s) && t < |s.threads| && n.threads == s.threads[t := th'] && th'.hand == s.threads[t].hand
    requires n.queues == s.queues && n.places == s.places
    ensures Owned(n)
  {
    hide Owned;
    SameHoldersKeepOwned(s, n);
  }

  lemma ActedKeepsOwned(s: State, t: nat)
    requires Control(s) && Owned(s) && t < |s.threads| && CanAct(s, t)
    ensures Owned(Acted(s, t))
  {
    hide Control, Owned, Conveys, SameHolders, Find, Membership, Take, CastEdge, Enqueue, Destroy, WithQueueEffect,
        RoomEffectOk;
    ControlOf(s, t);
    var th, q := s.threads[t], s.queues[t];
    var n := Acted(s, t);
    if IsFind(th.pc) {
      FindMovesNothing(s, t);
      SameHoldersKeepOwned(s, n);
    } else if IsMembership(th.pc) {
      MembershipActs(s, t);
      RoomEffectsMoveNothing(t, th, s.rooms[th.room.value]);
      ThreadStepKeepsOwned(s, n, t, n.threads[t]);
    } else if IsTake(th.pc) {
      TakeConveys(t, th, q);
      QueueEffectKeepsOwned(s, t, t, Take(t, th, q));
    } else if IsCastEdge(th.pc) {
      CastEdgeActs(s, t);
      RoomEffectsMoveNothing(t, th, s.rooms[th.room.value]);
      ThreadStepKeepsOwned(s, n, t, n.threads[t]);
    } else if IsEnqueue(th.pc) {
      TargetIsLive(s, t);
      EnqueueConveys(t, th, s.queues[th.pc.stage.target]);
      QueueEffectKeepsOwned(s, t, th.pc.stage.target, Enqueue(t, th, s.queues[th.pc.stage.target]));
    } else {
      DestroyConveys(t, th, q);
      QueueEffectKeepsOwned(s, t, t, Destroy(th, q));
    }
  }

  lemma StepKeepsOwned(s: State, step: Step)
    requires Control(s) && Owned(s) && Enabled(s, step)
    ensures Owned(After(s, step))
  {
    hide Control, Owned, CanAct, Acted, Heard, SentBy, PickMember;
    match step
    case Spawn => SameHoldersKeepOwned(s, After(s, step));
    case Receive(t, result, msg) => {
      ThreadStepsMoveNothing(s.threads[t], result, msg, true);
      ThreadStepKeepsOwned(s, After(s, step), t, Heard(s.threads[t], result, msg));
    }
    case Send(t, sent) => {
      ThreadStepsMoveNothing(s.threads[t], SUCCESS, Message("", ""), sent);
      ThreadStepKeepsOwned(s, After(s, step), t, SentBy(s.threads[t], sent));
    }
    case Timeout(t) => ThreadStepKeepsOwned(s, After(s, step), t, s.threads[t].(pc := Check));
    case Pick(t, u) => {
      ControlOf(s, t);
      PickKeepsOwned(s, t, u);
    }
    case Act(t) => ActedKeepsOwned(s, t);
  }
}
