/** What becomes of a receiver: it stays in the room it asked for exactly as long as its sends succeed. */
module ChatReceivers {
  import opened Framing
  import opened ChatModel
  import opened ChatCommands
  import opened ChatControl
  import opened ChatLogin
  import opened ChatOrder
  import opened ChatReplies
  import opened ChatSafety
  import opened ChatSemaphore

  predicate Leaving(pc: Pc) {
    pc.RemoveLock? || pc.RemoveErase? || pc.RemoveUnlock? || Gone(pc)
  }

  /** In the room, or on the way into it. */
  predicate Settled(pc: Pc) {
    pc.AddLock? || pc.AddInsert? || pc.AddUnlock? || pc.AddReply? || pc.Deliver? || IsTake(pc)
  }

  predicate Entering(pc: Pc) {
    IsFind(pc) || pc.AddLock? || pc.AddInsert? || pc.AddUnlock? || pc.AddReply?
  }

  /** One reply to the join, and one delivery for each message taken from the queue. */
  function Due(th: Thread): (n: nat) {
    if Entering(th.pc) then 0 else 1 + |th.delivered| + |th.lost|
  }

  /**
   Where a receiver is after its request q; now names its room, sends counts its sends, and well says whether
   they all succeeded.
   */
  predicate Attending(th: Thread, now: Option<string>, q: Request, sends: nat, well: bool) {
    if !Joins(q) then
      || (Gone(th.pc) && sends == 1)
      || (well && sends == 0 && th.pc.Reply? && th.pc.next == Throw
          && th.pc.msg == Message("err", if q.result == SUCCESS then "wrong format" else "something went wrong"))
    else
      && sends == Due(th) && (Entering(th.pc) ==> th.delivered == [] && th.lost == [])
      && if well then
           && th.connected
           && (|| (IsFind(th.pc) && th.pc.receiver && th.pc.name == RightTrim(q.msg.data))
               || (Settled(th.pc) && now == Some(RightTrim(q.msg.data))))
         else
           && !th.connected && now == Some(RightTrim(q.msg.data))
           && (th.pc.Free? || th.pc.Check? || Leaving(th.pc))
  }

  lemma JoinBegins(th: Thread, q: Request, now: Option<string>)
    requires th.pc.JoinRequest? && th.delivered == [] && th.lost == []
    ensures Attending(Heard(th, q.result, q.msg), now, q, 0, true)
  {
    hide RightTrim;
  }

  lemma SentAttends(th: Thread, now: Option<string>, q: Request, sends: nat, well: bool, sent: bool)
    requires Attending(th, now, q, sends, well) && Sends(th.pc) && (th.pc.Deliver? ==> th.hand != [])
    ensures Attending(SentBy(th, sent), now, q, sends + 1, well && sent) && SentBy(th, sent).room == th.room
  {
    hide RightTrim;
  }

  lemma MembershipAttends(t: nat, th: Thread, room: Room, now: Option<string>, q: Request, sends: nat, well: bool)
    requires Attending(th, now, q, sends, well) && IsMembership(th.pc)
    ensures var th' := Membership(t, th, room).thread; Attending(th', now, q, sends, well) && th'.room == th.room
  {
    hide RightTrim;
  }

  lemma TakeAttends(t: nat, th: Thread, queue: Queue, now: Option<string>, q: Request, sends: nat, well: bool)
    requires Attending(th, now, q, sends, well) && IsTake(th.pc)
    ensures var th' := Take(t, th, queue).thread; Attending(th', now, q, sends, well) && th'.room == th.room
  {
    hide RightTrim;
  }

  lemma DestroyAttends(th: Thread, queue: Queue, now: Option<string>, q: Request, sends: nat, well: bool)
    requires Attending(th, now, q, sends, well) && th.pc.Delete?
    ensures var th' := Destroy(th, queue).thread; Attending(th', now, q, sends, well) && th'.room == th.room
  {
    hide RightTrim;
  }

  lemma FindAttends(s: State, t: nat, q: Request, sends: nat, well: bool)
    requires Control(s) && t < |s.threads| && IsFind(s.threads[t].pc)
    requires Attending(s.threads[t], RoomName(s, t), q, sends, well)
    ensures var n := Find(s, t); t < |n.threads| && Attending(n.threads[t], RoomName(n, t), q, sends, well)
  {
    hide Control, RightTrim, Find, RoomName, HistoryAt;
    FindMoves(s, t);
  }

  lemma NoOtherPlaces(th: Thread, now: Option<string>, q: Request, sends: nat, well: bool)
    requires Attending(th, now, q, sends, well)
    ensures !Receives(th.pc) && !IsCast(th.pc)
  {
    hide RightTrim;
  }

  lemma ActAttends(s: State, t: nat, q: Request, sends: nat, well: bool)
    requires Control(s) && Enabled(s, Act(t)) && Attending(s.threads[t], RoomName(s, t), q, sends, well)
    ensures var n := After(s, Act(t)); t < |n.threads| && Attending(n.threads[t], RoomName(n, t), q, sends, well)
  {
    hide Control, Attending, Find, CastEdge, Enqueue, Destroy, Take, Membership, FindEnabled, RoomEnabled, TakeEnabled,
        CastEnabled, RoomName;
    var th, now := s.threads[t], RoomName(s, t);
    NoOtherPlaces(th, now, q, sends, well);
    if IsFind(th.pc) {
      FindAttends(s, t, q, sends, well);
    } else {
      if IsMembership(th.pc) {
        if HasRoom(s, t) { MembershipAttends(t, th, s.rooms[th.room.value], now, q, sends, well); }
      } else if IsTake(th.pc) {
        TakeAttends(t, th, s.queues[t], now, q, sends, well);
      } else {
        DestroyAttends(th, s.queues[t], now, q, sends, well);
      }
      RoomNameStays(s, Act(t), t);
    }
  }

  function Sent1(step: Step, t: nat): (n: nat) {
    if AnswerOf(step, t) then 1 else 0
  }

  predicate GoesWell(step: Step, t: nat) {
    step.Send? && step.t == t ==> step.sent
  }

  lemma StepAttends(s: State, step: Step, t: nat, q: Request, sends: nat, well: bool)
    requires Control(s) && Enabled(s, step) && t < |s.threads|
    requires Attending(s.threads[t], RoomName(s, t), q, sends, well)
    ensures t < |After(s, step).threads|
    ensures Attending(After(s, step).threads[t], RoomName(After(s, step), t), q, sends + Sent1(step, t),
                      well && GoesWell(step, t))
    ensures step.Receive? ==> step.t != t
  {
    hide Control, Attending, Acted, CanAct, Heard, SentBy, PickMember, RoomName;
    var th, now := s.threads[t], RoomName(s, t);
    NoOtherPlaces(th, now, q, sends, well);
    if step.Spawn? || step.t != t {
      OthersDoNotMove(s, step, t);
      RoomNameStays(s, step, t);
    } else if step.Act? {
      ActAttends(s, t, q, sends, well);
    } else if step.Send? {
      ControlOf(s, t);
      SentAttends(th, now, q, sends, well, step.sent);
      RoomNameStays(s, step, t);
    } else if step.Timeout? {
      TimeoutAttends(th, now, q, sends, well);
      RoomNameStays(s, step, t);
    }
  }

  lemma TimeoutAttends(th: Thread, now: Option<string>, q: Request, sends: nat, well: bool)
    requires Attending(th, now, q, sends, well) && th.pc.Wait?
    ensures Attending(th.(pc := Check), now, q, sends, well)
  {
    hide RightTrim;
  }

  predicate AllWell(steps: seq<Step>, t: nat) {
    forall step | step in steps :: GoesWell(step, t)
  }

  lemma {:induction false} RunAttends(s: State, steps: seq<Step>, t: nat, q: Request, sends: nat, well: bool)
    requires Control(s) && Runs(s, steps) && t < |s.threads|
    requires Attending(s.threads[t], RoomName(s, t), q, sends, well)
    ensures t < |Final(s, steps).threads| && Silent(steps, t)
    ensures Attending(Final(s, steps).threads[t], RoomName(Final(s, steps), t), q, sends + Answered(steps, t),
                      well && AllWell(steps, t))
    decreases |steps|
  {
    hide Control, Enabled, After, Attending, RoomName, GoesWell;
    if steps != [] {
      assert steps == [steps[0]] + steps[1..];
      StepKeepsControl(s, steps[0]);
      StepAttends(s, steps[0], t, q, sends, well);
      RunAttends(After(s, steps[0]), steps[1..], t, q, sends + Sent1(steps[0], t),
                 well && GoesWell(steps[0], t));
      assert AllWell(steps, t) <==> GoesWell(steps[0], t) && AllWell(steps[1..], t);
    }
  }

  lemma NothingYet(s: State, t: nat)
    requires Order(s) && t < |s.threads| && s.threads[t].pc.JoinRequest?
    ensures s.threads[t].delivered == [] && s.threads[t].lost == []
  {
    OrderOf(s, t);
  }

  /**
   In any run, a receiver reads nothing after its request.  If that was a join, it is from then on in, or on
   its way into, the room with the trimmed name, it sends one reply and then every message that it takes, and
   it goes when and only when a send of its own has failed; any other request is refused once.
   */
  lemma ReceiverSession(s: State, t: nat, q: Request, steps: seq<Step>)
    requires Reachable(s) && t < |s.threads| && s.threads[t].pc.JoinRequest?
    requires Enabled(s, Receive(t, q.result, q.msg)) && Runs(After(s, Receive(t, q.result, q.msg)), steps)
    ensures var n := Final(After(s, Receive(t, q.result, q.msg)), steps);
      && t < |n.threads| && Silent(steps, t)
      && Attending(n.threads[t], RoomName(n, t), q, Answered(steps, t), AllWell(steps, t))
      && (IsMember(n.threads[t].pc) ==> HasRoom(n, t) && t in n.rooms[n.threads[t].room.value].members)
  {
    hide Reachable, Control, Safe, Runs, Final, Attending, RoomName, Heard, Silent, AllWell, Answered, InStep;
    ReachableIsSafe(s);
    SafeParts(s);
    NothingYet(s, t);
    var step := Receive(t, q.result, q.msg);
    StepKeepsSafe(s, step);
    var m := After(s, step);
    SafeParts(m);
    JoinBegins(s.threads[t], q, RoomName(m, t));
    RunAttends(m, steps, t, q, 0, true);
    RunKeepsSafe(m, steps);
    SafeParts(Final(m, steps));
    ControlOf(Final(m, steps), t);
  }
}
