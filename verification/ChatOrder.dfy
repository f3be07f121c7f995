/** Every member of a room is delivered the room's broadcasts, all of them from its join on, in order. */
module ChatOrder {
  import opened Framing
  import opened ChatModel
  import opened ChatControl

  function Data(ms: seq<Msg>): (ds: seq<string>)
    ensures |ds| == |ms| && forall i | 0 <= i < |ms| :: ds[i] == ms[i].data
  {
    seq(|ms|, i requires 0 <= i < |ms| => ms[i].data)
  }

  lemma DataAppend(ms: seq<Msg>, ns: seq<Msg>)
    ensures Data(ms + ns) == Data(ms) + Data(ns)
  {
  }

  lemma DataFront(ms: seq<Msg>)
    requires ms != []
    ensures Data(ms) == [ms[0].data] + Data(ms[1..])
  {
  }

  /** Before any insert. */
  predicate Early(pc: Pc) {
    !IsMember(pc) && !Past(pc)
  }

  /** After the erase, or on the way out without any insert. */
  predicate Past(pc: Pc) {
    pc.RemoveUnlock? || pc.Delete? || pc.Done?
  }

  /** Dequeued and not sent yet. */
  predicate Sending(pc: Pc) {
    pc.TakeUnlock? || pc.Deliver?
  }

  /** In the loop, with the last send a success. */
  predicate Serving(pc: Pc) {
    pc.Wait? || pc.TakeLock? || pc.TakePop? || Sending(pc)
  }

  /** A broadcast that has begun and not pushed to u yet. */
  predicate Owes(pc: Pc, u: nat) {
    pc.Cast? && (u in pc.todo || ((pc.stage.Lock? || pc.stage.Push?) && pc.stage.target == u))
  }

  predicate Pending(s: State, u: nat)
    requires u < |s.threads|
  {
    HasRoom(s, u) &&
    var lock := s.rooms[s.threads[u].room.value].lock;
    lock.Some? && lock.value < |s.threads| && Owes(s.threads[lock.value].pc, u)
  }

  function HistoryOf(s: State, u: nat): (h: seq<string>)
    requires u < |s.threads|
  {
    if HasRoom(s, u) then s.rooms[s.threads[u].room.value].history else []
  }

  /** What a user has been sent or lost, holds or was destroyed with, and has queued. */
  function Pipeline(th: Thread, q: Queue): (ds: seq<string>) {
    th.delivered + th.lost + (if Sending(th.pc) then Data(th.hand) else th.dropped) + Data(q.messages)
  }

  /** Where the part of the history that concerns a user ends. */
  function Reach(th: Thread, h: seq<string>, pending: bool): (n: int) {
    if Past(th.pc) then th.left else if pending then |h| - 1 else |h|
  }

  predicate InStep(th: Thread, q: Queue, h: seq<string>, pending: bool) {
    && (Early(th.pc) ==>
          th.joined == th.left == 0 && th.delivered == th.lost == th.dropped == [] && q.messages == [])
    && (!Early(th.pc) ==>
          th.joined <= Reach(th, h, pending) <= |h| && Pipeline(th, q) == h[th.joined..Reach(th, h, pending)])
    && (IsMember(th.pc) ==> th.dropped == [])
    && (th.lost != [] ==> |th.lost| == 1 && !th.connected && !Serving(th.pc) && !th.pc.AddUnlock? && !th.pc.AddReply?)
    && (Serving(th.pc) ==> th.connected)
  }

  predicate OrderInv(s: State, u: nat)
    requires u < |s.threads| == |s.queues|
  {
    InStep(s.threads[u], s.queues[u], HistoryOf(s, u), Pending(s, u))
  }

  ghost predicate Order(s: State) {
    |s.threads| == |s.queues| && forall u | 0 <= u < |s.threads| :: OrderInv(s, u)
  }

  // ----- for the users a step does not concern

  /** Whether user u sees no difference between two states. */
  predicate Undisturbed(s: State, n: State, u: nat)
    requires u < |s.threads| == |s.queues| && u < |n.threads| == |n.queues|
  {
    && n.threads[u] == s.threads[u] && n.queues[u] == s.queues[u]
    && HistoryOf(n, u) == HistoryOf(s, u) && Pending(n, u) == Pending(s, u)
  }

  /** Who holds the lock of a user's room. */
  lemma Holder(s: State, u: nat)
    requires Control(s) && u < |s.threads|
    ensures s.threads[u].room.Some? ==> HasRoom(s, u)
    ensures HasRoom(s, u) ==>
      var lock := s.rooms[s.threads[u].room.value].lock;
      lock.Some? ==>
        && lock.value < |s.threads| && HoldsRoom(s.threads[lock.value].pc)
        && s.threads[lock.value].room == s.threads[u].room
  {
    assert ThreadInv(s, u);
    if HasRoom(s, u) { assert RoomInv(s, s.threads[u].room.value); }
  }

  /** Thread t, which locks no room, moves; rooms may be added. */
  lemma LocklessKeepsOrder(s: State, n: State, t: nat, th': Thread)
    requires Control(s) && Order(s) && t < |s.threads|
    requires n.threads == s.threads[t := th'] && n.queues == s.queues && s.rooms <= n.rooms
    requires !HoldsRoom(s.threads[t].pc)
    requires InStep(th', s.queues[t], HistoryOf(n, t), Pending(n, t))
    ensures Order(n)
  {
    hide Control, InStep, HoldsRoom, Owes;
    forall u | 0 <= u < |n.threads| ensures OrderInv(n, u) {
      assert OrderInv(s, u);
      if u != t {
        Holder(s, u);
        assert Undisturbed(s, n, u);
      }
    }
  }

  lemma SameRoomSameView(s: State, n: State, t: nat, th': Thread)
    requires Control(s) && t < |s.threads|
    requires n.threads == s.threads[t := th'] && s.rooms == n.rooms
    requires !HoldsRoom(s.threads[t].pc) && th'.room == s.threads[t].room
    ensures HistoryOf(n, t) == HistoryOf(s, t) && Pending(n, t) == Pending(s, t)
  {
    hide Control, HoldsRoom, Owes;
    Holder(s, t);
  }

  // ----- steps of one thread alone

  /** What a thread has recorded of its room. */
  predicate SameRecord(th: Thread, th': Thread) {
    && th'.joined == th.joined && th'.left == th.left
    && th'.delivered == th.delivered && th'.lost == th.lost && th'.dropped == th.dropped
  }

  /** Nothing is known, and nothing asked, of the history before the insert. */
  lemma EarlyStays(th: Thread, q: Queue, h: seq<string>, pending: bool, th': Thread, h': seq<string>, pending': bool)
    requires InStep(th, q, h, pending) && Early(th.pc)
    requires Early(th'.pc) || th'.pc.Delete?
    requires SameRecord(th, th')
    ensures InStep(th', q, h', pending')
  {
  }

  lemma HeardStaysEarly(th: Thread, result: Result, msg: Message)
    requires Receives(th.pc)
    ensures Early(th.pc)
    ensures var n := Heard(th, result, msg); (Early(n.pc) || n.pc.Delete?) && SameRecord(th, n)
  {
    hide AfterLogin, AfterCommand, AfterJoinRequest, ValidLogin, RightTrim;
  }

  lemma ReplyStaysEarly(th: Thread, sent: bool)
    requires th.pc.Reply?
    ensures Early(th.pc)
    ensures var n := SentBy(th, sent); (Early(n.pc) || n.pc.Delete?) && SameRecord(th, n)
  {
    hide Replied;
  }

  lemma SentStaysInStep(th: Thread, q: Queue, h: seq<string>, pending: bool, sent: bool)
    requires InStep(th, q, h, pending) && (th.pc.AddReply? || th.pc.Deliver?)
    requires th.pc.Deliver? ==> |th.hand| == 1
    ensures InStep(SentBy(th, sent), q, h, pending)
  {
    var n := SentBy(th, sent);
    if th.pc.Deliver? {
      assert th.lost == [];
      assert Data(th.hand) == [th.hand[0].data];
      assert Pipeline(n, q) == Pipeline(th, q);
    }
  }

  /** So deliveries are a gapless stretch of the history that starts at the join. */
  lemma PrefixOfSlice(th: Thread, q: Queue, h: seq<string>, pending: bool)
    requires InStep(th, q, h, pending)
    ensures th.joined + |th.delivered| <= |h|
    ensures Past(th.pc) ==> th.joined + |th.delivered| <= th.left
    ensures th.delivered == h[th.joined..th.joined + |th.delivered|]
  {
    if !Early(th.pc) { assert th.delivered == Pipeline(th, q)[..|th.delivered|]; }
  }

  lemma FindStaysEarly(s: State, t: nat)
    requires t < |s.threads| && IsFind(s.threads[t].pc)
    ensures Early(s.threads[t].pc) && !HoldsRoom(s.threads[t].pc)
    ensures var n := Find(s, t);
            && n.queues == s.queues && s.rooms <= n.rooms && |n.threads| == |s.threads|
            && n.threads == s.threads[t := n.threads[t]] && Early(n.threads[t].pc)
            && SameRecord(s.threads[t], n.threads[t])
  {
    if Find(s, t).threads == s.threads { assert s.threads == s.threads[t := s.threads[t]]; }
  }

  // ----- joining and leaving

  lemma MembershipStaysInStep(t: nat, th: Thread, room: Room, q: Queue)
    requires IsMembership(th.pc) && InStep(th, q, room.history, false)
    ensures var e := Membership(t, th, room);
            && InStep(e.thread, q, e.room.history, false) && e.room.history == room.history
            && !e.thread.pc.Cast? && e.thread.room == th.room
            && (e.room.lock == None || e.room.lock == Some(t) || e.room.lock == room.lock)
  {
    var e := Membership(t, th, room);
    assert th.pc.AddInsert? ==> Pipeline(e.thread, q) == [];
    assert th.pc.RemoveErase? ==> Pipeline(e.thread, q) == Pipeline(th, q);
    assert th.pc.AddUnlock? || th.pc.RemoveLock? ==> Pipeline(e.thread, q) == Pipeline(th, q);
  }

  /** While a membership operation may run on a room, no broadcast runs there. */
  lemma NoCastBeside(s: State, t: nat, u: nat)
    requires Control(s) && t < |s.threads| && u < |s.threads| && s.threads[u].room == s.threads[t].room
    requires HasRoom(s, t) && IsMembership(s.threads[t].pc) && RoomEnabled(s, t)
    ensures !Pending(s, u)
  {
    assert ThreadInv(s, t);
  }

  lemma MembershipKeepsOrder(s: State, t: nat)
    requires Control(s) && Order(s) && t < |s.threads| && IsMembership(s.threads[t].pc) && RoomEnabled(s, t)
    requires HasRoom(s, t) && Membership(t, s.threads[t], s.rooms[s.threads[t].room.value]).ok
    ensures Order(WithRoomEffect(s, t, s.threads[t].room.value,
        Membership(t, s.threads[t], s.rooms[s.threads[t].room.value])))
  {
    hide Control, InStep, Owes, Membership, IsMembership, HoldsRoom, RoomEnabled;
    var th := s.threads[t];
    var r := th.room.value;
    var e := Membership(t, th, s.rooms[r]);
    var n := WithRoomEffect(s, t, r, e);
    assert OrderInv(s, t);
    NoCastBeside(s, t, t);
    MembershipStaysInStep(t, th, s.rooms[r], s.queues[t]);
    NotCastOwesNothing(e.thread.pc);
    forall u | 0 <= u < |n.threads| ensures OrderInv(n, u) {
      assert OrderInv(s, u);
      Holder(s, u);
      if u != t {
        if th.room == s.threads[u].room { NoCastBeside(s, t, u); }
        assert Undisturbed(s, n, u);
      }
    }
  }

  lemma NotCastOwesNothing(pc: Pc)
    ensures !pc.Cast? ==> forall u :: !Owes(pc, u)
  {
  }

  // ----- broadcasting

  lemma HistoryGrows(th: Thread, q: Queue, h: seq<string>, data: string)
    requires InStep(th, q, h, false)
    ensures InStep(th, q, h + [data], IsMember(th.pc))
  {
    var h' := h + [data];
    if !Early(th.pc) {
      var upto := Reach(th, h, false);
      assert h'[th.joined..upto] == h[th.joined..upto];
    }
  }

  lemma CastEdgeEffect(t: nat, th: Thread, room: Room)
    requires IsCastEdge(th.pc)
    ensures var e := CastEdge(t, th, room);
            && Early(th.pc) && Early(e.thread.pc) && e.thread.room == th.room && e.room.members == room.members
            && SameRecord(th, e.thread)
            && (e.room.lock == if th.pc.CastLock? then Some(t) else None)
            && (if th.pc.CastLock? then exists data :: e.room.history == room.history + [data]
              else e.room.history == room.history)
            && (th.pc.CastLock? ==> forall u :: Owes(e.thread.pc, u) <==> u in room.members)
  {
    hide DeliveryText;
  }

  /** Under a free lock nothing is owed to a room's members. */
  lemma FreeRoom(s: State, u: nat)
    requires Control(s) && u < |s.threads| && HasRoom(s, u) && s.rooms[s.threads[u].room.value].lock == None
    ensures !Pending(s, u)
    ensures IsMember(s.threads[u].pc) <==> u in s.rooms[s.threads[u].room.value].members
  {
    assert ThreadInv(s, u) && RoomInv(s, s.threads[u].room.value);
  }

  lemma BeginCastKeepsOrder(s: State, t: nat)
    requires Control(s) && Order(s) && t < |s.threads| && s.threads[t].pc.CastLock? && HasRoom(s, t)
    requires s.rooms[s.threads[t].room.value].lock == None
    ensures Order(WithRoomEffect(s, t, s.threads[t].room.value,
        CastEdge(t, s.threads[t], s.rooms[s.threads[t].room.value])))
  {
    hide Control, InStep, Owes, CastEdge, HoldsRoom, IsMember, Early;
    var th := s.threads[t];
    var r := th.room.value;
    CastEdgeEffect(t, th, s.rooms[r]);
    var e := CastEdge(t, th, s.rooms[r]);
    var data :| e.ok ==> e.room.history == s.rooms[r].history + [data];
    var n := WithRoomEffect(s, t, r, e);
    forall u | 0 <= u < |n.threads| ensures OrderInv(n, u) {
      assert OrderInv(s, u);
      Holder(s, u);
      if u == t {
        EarlyStays(th, s.queues[t], HistoryOf(s, t), Pending(s, t), n.threads[t], HistoryOf(n, t), Pending(n, t));
      } else if e.ok && s.threads[u].room == th.room {
        FreeRoom(s, u);
        HistoryGrows(s.threads[u], s.queues[u], HistoryOf(s, u), data);
        assert Pending(n, u) == IsMember(s.threads[u].pc);
      } else {
        assert Undisturbed(s, n, u);
      }
    }
  }

  lemma EndCastKeepsOrder(s: State, t: nat)
    requires Control(s) && Order(s) && t < |s.threads| && HasRoom(s, t)
    requires s.threads[t].pc.Cast? && s.threads[t].pc.stage.Idle? && s.threads[t].pc.todo == {}
    ensures Order(WithRoomEffect(s, t, s.threads[t].room.value,
        CastEdge(t, s.threads[t], s.rooms[s.threads[t].room.value])))
  {
    hide Control, InStep, Owes, CastEdge, HoldsRoom, IsMember, Early;
    var th := s.threads[t];
    var r := th.room.value;
    CastEdgeEffect(t, th, s.rooms[r]);
    ServedOwesNothing(th.pc);
    var e := CastEdge(t, th, s.rooms[r]);
    var n := WithRoomEffect(s, t, r, e);
    RoomLockOf(s, t);
    forall u | 0 <= u < |n.threads| ensures OrderInv(n, u) {
      assert OrderInv(s, u);
      Holder(s, u);
      if u == t {
        EarlyStays(th, s.queues[t], HistoryOf(s, t), Pending(s, t), n.threads[t], HistoryOf(n, t), Pending(n, t));
      } else {
        assert Undisturbed(s, n, u);
      }
    }
  }

  lemma ServedOwesNothing(pc: Pc)
    ensures pc.Cast? && pc.stage.Idle? && pc.todo == {} ==> forall u :: !Owes(pc, u)
  {
  }

  lemma RoomLockOf(s: State, t: nat)
    requires Control(s) && t < |s.threads| && s.threads[t].pc.Cast?
    ensures HasRoom(s, t) && s.rooms[s.threads[t].room.value].lock == Some(t)
    ensures |s.threads[t].hand| == (if Carries(s.threads[t].pc) then 1 else 0)
    ensures CastInv(s.threads[t].pc, s.threads[t].hand, s.rooms[s.threads[t].room.value])
  {
    assert ThreadInv(s, t);
  }

  /** Thread t broadcasts; only what it owes user v changes, and v's queue. */
  lemma CastingKeepsOrder(s: State, n: State, t: nat, th': Thread, v: nat, q': Queue)
    requires Control(s) && Order(s) && t < |s.threads| && v < |s.queues| && v != t
    requires n.threads == s.threads[t := th'] && n.queues == s.queues[v := q'] && n.rooms == s.rooms
    requires s.threads[t].pc.Cast? && th'.pc.Cast? && th'.room == s.threads[t].room
    requires SameRecord(s.threads[t], th')
    requires forall u | u != v :: Owes(th'.pc, u) == Owes(s.threads[t].pc, u)
    requires InStep(s.threads[v], q', HistoryOf(s, v), Pending(n, v))
    ensures Order(n)
  {
    hide Control, InStep, Owes, HoldsRoom;
    forall u | 0 <= u < |n.threads| ensures OrderInv(n, u) {
      assert OrderInv(s, u);
      Holder(s, u);
      if u == t {
        EarlyStays(s.threads[t], s.queues[t], HistoryOf(s, t), Pending(s, t), th', HistoryOf(n, t), Pending(n, t));
      } else if u != v {
        assert Undisturbed(s, n, u);
      }
    }
  }

  lemma PickKeepsOrder(s: State, t: nat, u: nat)
    requires Control(s) && Order(s) && t < |s.threads| && s.threads[t].pc.Cast? && s.threads[t].pc.stage.Idle?
        && u in s.threads[t].pc.todo
    ensures Order(PickMember(s, t, u))
  {
    hide Control, InStep, HoldsRoom;
    RoomLockOf(s, t);
    MemberOf(s, t, u);
    var n := PickMember(s, t, u);
    Holder(s, u);
    assert OrderInv(s, u);
    assert Undisturbed(s, n, u);
    CastingKeepsOrder(s, n, t, n.threads[t], u, s.queues[u]);
  }

  lemma MemberOf(s: State, t: nat, u: nat)
    requires Control(s) && t < |s.threads| && s.threads[t].pc.Cast?
    requires u in s.threads[t].pc.todo || (!s.threads[t].pc.stage.Idle? && u == s.threads[t].pc.stage.target)
    ensures u < |s.threads| == |s.queues| && IsMember(s.threads[u].pc) && u != t
        && s.threads[u].room == s.threads[t].room
  {
    RoomLockOf(s, t);
    assert RoomInv(s, s.threads[t].room.value);
  }

  /** A push serves the target: what was pending is now queued, behind what was queued before. */
  lemma PushedInStep(th: Thread, q: Queue, h: seq<string>, m: Msg)
    requires InStep(th, q, h, true) && IsMember(th.pc) && h != [] && h[|h| - 1] == m.data
    ensures InStep(th, q.(messages := q.messages + [m]), h, false)
  {
    DataAppend(q.messages, [m]);
    assert Data([m]) == [m.data];
    assert h[th.joined..|h|] == h[th.joined..|h| - 1] + [m.data];
    assert Pipeline(th, q.(messages := q.messages + [m])) == Pipeline(th, q) + [m.data];
  }

  lemma SameMessagesInStep(th: Thread, q: Queue, q': Queue, h: seq<string>, pending: bool)
    requires InStep(th, q, h, pending) && q'.messages == q.messages
    ensures InStep(th, q', h, pending)
  {
  }

  lemma EnqueueEffect(t: nat, th: Thread, q: Queue)
    requires IsEnqueue(th.pc) && |th.hand| == (if Carries(th.pc) then 1 else 0)
    ensures var e := Enqueue(t, th, q);
            e.ok ==>
              && e.thread.pc.Cast? && e.thread.room == th.room
              && SameRecord(th, e.thread)
              && (forall u | u != th.pc.stage.target :: Owes(e.thread.pc, u) == Owes(th.pc, u))
              && (th.pc.stage.Push? ==> e.queue == q.(messages := q.messages + [th.hand[0]]))
              && (!th.pc.stage.Push? ==> e.queue.messages == q.messages
                                         && Owes(e.thread.pc, th.pc.stage.target) == Owes(th.pc, th.pc.stage.target))
              && (th.pc.stage.Push? ==> Owes(th.pc, th.pc.stage.target))
              && (th.pc.stage.Push? && th.pc.stage.target !in th.pc.todo ==> !Owes(e.thread.pc, th.pc.stage.target))
  {
  }

  lemma EnqueueKeepsOrder(s: State, t: nat)
    requires Control(s) && Order(s) && t < |s.threads| && IsEnqueue(s.threads[t].pc)
    requires s.threads[t].pc.stage.target < |s.queues|
    ensures var u := s.threads[t].pc.stage.target;
      Order(WithQueueEffect(s, t, u, Enqueue(t, s.threads[t], s.queues[u])))
  {
    hide Control, InStep, HoldsRoom, Owes, Enqueue, IsMember;
    var th := s.threads[t];
    var u := th.pc.stage.target;
    var e := Enqueue(t, th, s.queues[u]);
    var n := WithQueueEffect(s, t, u, e);
    RoomLockOf(s, t);
    MemberOf(s, t, u);
    Holder(s, u);
    assert OrderInv(s, u);
    if e.ok && CanMove(s, e.move) {
      EnqueueEffect(t, th, s.queues[u]);
      assert Pending(s, u) == Owes(th.pc, u) && Pending(n, u) == Owes(e.thread.pc, u);
      if th.pc.stage.Push? {
        PushedInStep(s.threads[u], s.queues[u], HistoryOf(s, u), th.hand[0]);
      } else {
        SameMessagesInStep(s.threads[u], s.queues[u], e.queue, HistoryOf(s, u), Pending(s, u));
      }
      CastingKeepsOrder(s, n, t, e.thread, u, e.queue);
    } else {
      SameKeepsOrder(s, n);
    }
  }

  lemma SameKeepsOrder(s: State, n: State)
    requires Order(s) && n.threads == s.threads && n.queues == s.queues && n.rooms == s.rooms
    ensures Order(n)
  {
    hide InStep;
    forall u | 0 <= u < |n.threads| ensures OrderInv(n, u) { assert OrderInv(s, u); }
  }

  // ----- receiving

  /** Thread t, which locks no room, works on its own queue. */
  lemma OwnQueueKeepsOrder(s: State, t: nat, e: QueueEffect)
    requires Control(s) && Order(s) && t < |s.threads| && !HoldsRoom(s.threads[t].pc)
    requires e.ok ==> e.thread.room == s.threads[t].room
    requires e.ok ==> forall h, p | InStep(s.threads[t], s.queues[t], h, p) :: InStep(e.thread, e.queue, h, p)
    ensures Order(WithQueueEffect(s, t, t, e))
  {
    hide Control, InStep, HoldsRoom, Owes;
    var n := WithQueueEffect(s, t, t, e);
    forall u | 0 <= u < |n.threads| ensures OrderInv(n, u) {
      assert OrderInv(s, u);
      Holder(s, u);
      if u != t || !e.ok || !CanMove(s, e.move) {
        assert Undisturbed(s, n, u);
      } else {
        assert HistoryOf(n, t) == HistoryOf(s, t) && Pending(n, t) == Pending(s, t);
      }
    }
  }

  lemma MembersDropNothing(th: Thread, q: Queue, h: seq<string>, pending: bool)
    requires InStep(th, q, h, pending) && IsMember(th.pc)
    ensures th.dropped == []
  {
  }

  lemma TakeStaysInStep(t: nat, th: Thread, q: Queue, h: seq<string>, pending: bool)
    requires IsTake(th.pc) && InStep(th, q, h, pending) && Take(t, th, q).ok
    ensures InStep(Take(t, th, q).thread, Take(t, th, q).queue, h, pending)
  {
    hide InStep, Data;
    MembersDropNothing(th, q, h, pending);
    var e := Take(t, th, q);
    if th.pc.TakePop? {
      DataFront(q.messages);
      assert Data(e.thread.hand) == [q.messages[0].data];
    }
    assert Pipeline(e.thread, e.queue) == Pipeline(th, q);
    SamePipelineInStep(th, q, e.thread, e.queue, h, pending);
  }

  lemma SamePipelineInStep(th: Thread, q: Queue, th': Thread, q': Queue, h: seq<string>, pending: bool)
    requires InStep(th, q, h, pending) && Pipeline(th', q') == Pipeline(th, q)
    requires IsMember(th.pc) && IsMember(th'.pc) && SameRecord(th, th') && th'.connected == th.connected
    requires Serving(th'.pc) ==> Serving(th.pc) || th.connected
    requires !th'.pc.AddUnlock? && !th'.pc.AddReply?
    ensures InStep(th', q', h, pending)
  {
    hide Pipeline;
  }

  lemma TakeKeepsOrder(s: State, t: nat)
    requires Control(s) && Order(s) && t < |s.threads| && IsTake(s.threads[t].pc)
    ensures Order(WithQueueEffect(s, t, t, Take(t, s.threads[t], s.queues[t])))
  {
    hide Control, InStep, Order, WithQueueEffect;
    OrderOf(s, t);
    var th, q := s.threads[t], s.queues[t];
    var e := Take(t, th, q);
    forall h, p | e.ok && InStep(th, q, h, p) ensures InStep(e.thread, e.queue, h, p) {
      TakeStaysInStep(t, th, q, h, p);
    }
    OwnQueueKeepsOrder(s, t, e);
  }

  lemma DestroyKeepsOrder(s: State, t: nat)
    requires Control(s) && Order(s) && t < |s.threads| && s.threads[t].pc.Delete?
    ensures Order(WithQueueEffect(s, t, t, Destroy(s.threads[t], s.queues[t])))
  {
    hide Control, InStep, Order, WithQueueEffect;
    OrderOf(s, t);
    var th, q := s.threads[t], s.queues[t];
    var e := Destroy(th, q);
    forall h, p | e.ok && InStep(th, q, h, p) ensures InStep(e.thread, e.queue, h, p) {
      DestroyStaysInStep(th, q, h, p);
    }
    OwnQueueKeepsOrder(s, t, e);
  }

  /** A message freed with its user goes from the queue to the dropped ones. */
  lemma DropKeepsPipeline(th: Thread, q: Queue)
    requires th.pc.Delete? && q.messages != []
    ensures var e := Destroy(th, q); Pipeline(e.thread, e.queue) == Pipeline(th, q)
  {
    hide Data;
    DataFront(q.messages);
    var sent := th.delivered + th.lost;
    assert sent + th.dropped + ([q.messages[0].data] + Data(q.messages[1..]))
        == sent + (th.dropped + [q.messages[0].data]) + Data(q.messages[1..]);
  }

  lemma DestroyStaysInStep(th: Thread, q: Queue, h: seq<string>, pending: bool)
    requires th.pc.Delete? && InStep(th, q, h, pending)
    ensures InStep(Destroy(th, q).thread, Destroy(th, q).queue, h, pending)
  {
    hide Data;
    if q.messages != [] {
      DropKeepsPipeline(th, q);
      hide Pipeline;
    }
  }

  // ----- the steps

  lemma ActedKeepsOrder(s: State, t: nat)
    requires Control(s) && Order(s) && t < |s.threads| && CanAct(s, t)
    ensures Order(Acted(s, t))
  {
    hide Control, Order, Find, Membership, Take, CastEdge, Enqueue, Destroy, WithQueueEffect, WithRoomEffect,
        RoomEffectOk, Early, HoldsRoom, InStep, Pending, HistoryOf;
    ControlOf(s, t);
    var th := s.threads[t];
    var n := Acted(s, t);
    if IsFind(th.pc) {
      FindStaysEarly(s, t);
      OrderOf(s, t);
      EarlyStays(th, s.queues[t], HistoryOf(s, t), Pending(s, t), n.threads[t], HistoryOf(n, t), Pending(n, t));
      LocklessKeepsOrder(s, n, t, n.threads[t]);
    } else if IsMembership(th.pc) {
      MembershipActs(s, t);
      MembershipKeepsOrder(s, t);
    } else if IsTake(th.pc) {
      TakeKeepsOrder(s, t);
    } else if IsCastEdge(th.pc) {
      CastEdgeActs(s, t);
      if th.pc.CastLock? { BeginCastKeepsOrder(s, t); } else { EndCastKeepsOrder(s, t); }
    } else if IsEnqueue(th.pc) {
      TargetIsLive(s, t);
      EnqueueKeepsOrder(s, t);
    } else {
      DestroyKeepsOrder(s, t);
    }
  }

  lemma OrderOf(s: State, t: nat)
    requires Order(s) && t < |s.threads|
    ensures |s.threads| == |s.queues|
    ensures InStep(s.threads[t], s.queues[t], HistoryOf(s, t), Pending(s, t))
  {
    assert OrderInv(s, t);
  }

  lemma ThreadStepKeepsOrder(s: State, t: nat, th': Thread)
    requires Control(s) && Order(s) && t < |s.threads| && !HoldsRoom(s.threads[t].pc)
    requires (Early(s.threads[t].pc) && (Early(th'.pc) || th'.pc.Delete?) && SameRecord(s.threads[t], th'))
             || (th'.room == s.threads[t].room && InStep(th', s.queues[t], HistoryOf(s, t), Pending(s, t)))
    ensures Order(WithThread(s, t, th'))
  {
    hide Control, Order, InStep, HoldsRoom, Early;
    var n := WithThread(s, t, th');
    OrderOf(s, t);
    if Early(s.threads[t].pc) && (Early(th'.pc) || th'.pc.Delete?) && SameRecord(s.threads[t], th') {
      EarlyStays(s.threads[t], s.queues[t], HistoryOf(s, t), Pending(s, t), th', HistoryOf(n, t), Pending(n, t));
    } else {
      SameRoomSameView(s, n, t, th');
    }
    LocklessKeepsOrder(s, n, t, th');
  }

  lemma SpawnKeepsOrder(s: State)
    requires Control(s) && Order(s)
    ensures Order(After(s, Spawn))
  {
    hide Control, InStep, HoldsRoom, Owes;
    var n := After(s, Spawn);
    forall u | 0 <= u < |n.threads| ensures OrderInv(n, u) {
      if u < |s.threads| {
        assert OrderInv(s, u);
        Holder(s, u);
        assert Undisturbed(s, n, u);
      } else {
        NewcomerInStep(HistoryOf(n, u), Pending(n, u));
      }
    }
  }

  lemma NewcomerInStep(h: seq<string>, pending: bool)
    ensures InStep(Newcomer(), Queue([], 0, None, 0), h, pending)
  {
  }

  lemma TimeoutStaysInStep(th: Thread, q: Queue, h: seq<string>, pending: bool)
    requires th.pc.Wait? && InStep(th, q, h, pending)
    ensures InStep(th.(pc := Check), q, h, pending)
  {
    assert Pipeline(th.(pc := Check), q) == Pipeline(th, q);
  }

  lemma StepKeepsOrder(s: State, step: Step)
    requires Control(s) && Order(s) && Enabled(s, step)
    ensures Order(After(s, step))
  {
    hide Control, Order, CanAct, Acted, Heard, PickMember, InStep, Early, HistoryOf, Pending;
    match step
    case Spawn => SpawnKeepsOrder(s);
    case Receive(t, result, msg) => {
      HeardStaysEarly(s.threads[t], result, msg);
      ThreadStepKeepsOrder(s, t, Heard(s.threads[t], result, msg));
    }
    case Send(t, sent) => {
      var th := s.threads[t];
      ControlOf(s, t);
      OrderOf(s, t);
      if th.pc.Reply? {
        ReplyStaysEarly(th, sent);
      } else {
        SentStaysInStep(th, s.queues[t], HistoryOf(s, t), Pending(s, t), sent);
      }
      ThreadStepKeepsOrder(s, t, SentBy(th, sent));
    }
    case Timeout(t) => {
      OrderOf(s, t);
      TimeoutStaysInStep(s.threads[t], s.queues[t], HistoryOf(s, t), Pending(s, t));
      ThreadStepKeepsOrder(s, t, s.threads[t].(pc := Check));
    }
    case Pick(t, u) => PickKeepsOrder(s, t, u);
    case Act(t) => ActedKeepsOrder(s, t);
  }
}
