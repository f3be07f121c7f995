/** How often a client is answered: once a command by chat_with_sender, not always once by the login. */
module ChatReplies {
  import opened Framing
  import opened ChatModel

  // ----- the sender's loop

  predicate AnswersSender(next: Next) {
    next.Loop? || next.Throw?
  }

  /** A command was received and its reply has not been sent. */
  predicate Owing(pc: Pc) {
    || (pc.Reply? && AnswersSender(pc.next))
    || ((pc.FindLock? || pc.FindLookup? || pc.FindUnlock?) && !pc.receiver)
    || pc.CastLock? || pc.Cast?
  }

  predicate IsSender(pc: Pc) {
    pc.Command? || Owing(pc) || pc.Delete? || pc.Done?
  }

  predicate AsksOf(step: Step, t: nat) {
    step.Receive? && step.t == t && step.result != EOF_OR_ERROR
  }

  predicate AnswerOf(step: Step, t: nat) {
    step.Send? && step.t == t
  }

  function Asked(steps: seq<Step>, t: nat): (n: nat) {
    if steps == [] then 0 else (if AsksOf(steps[0], t) then 1 else 0) + Asked(steps[1..], t)
  }

  function Answered(steps: seq<Step>, t: nat): (n: nat) {
    if steps == [] then 0 else (if AnswerOf(steps[0], t) then 1 else 0) + Answered(steps[1..], t)
  }

  function Debt(pc: Pc): (n: nat) {
    if Owing(pc) then 1 else 0
  }

  /** Only its own steps move a thread. */
  lemma OthersDoNotMove(s: State, step: Step, t: nat)
    requires Enabled(s, step) && t < |s.threads| && (step.Spawn? || step.t != t)
    ensures t < |After(s, step).threads| && After(s, step).threads[t] == s.threads[t]
  {
    hide Heard, SentBy, Membership, Take, CastEdge, Enqueue, Destroy, FindEnabled, RoomEnabled, TakeEnabled,
        CastEnabled;
  }

  lemma EffectsKeepDebt(t: nat, th: Thread, q: Queue, room: Room)
    requires IsSender(th.pc)
    ensures IsCastEdge(th.pc) ==> var pc := CastEdge(t, th, room).thread.pc; IsSender(pc) && Debt(pc) == Debt(th.pc)
    ensures IsEnqueue(th.pc) ==> var pc := Enqueue(t, th, q).thread.pc; IsSender(pc) && Debt(pc) == Debt(th.pc)
    ensures th.pc.Delete? ==> var pc := Destroy(th, q).thread.pc; IsSender(pc) && Debt(pc) == Debt(th.pc)
    ensures !IsMembership(th.pc) && !IsTake(th.pc)
  {
    hide DeliveryText;
  }

  lemma ActKeepsDebt(s: State, t: nat)
    requires t < |s.threads| == |s.queues| && CanAct(s, t) && IsSender(s.threads[t].pc)
    ensures t < |Acted(s, t).threads|
    ensures var pc := Acted(s, t).threads[t].pc; IsSender(pc) && Debt(pc) == Debt(s.threads[t].pc)
  {
    hide CastEdge, Enqueue, Destroy, FindEnabled, RoomEnabled, CastEnabled, Membership, Take;
    var th := s.threads[t];
    var u := if IsEnqueue(th.pc) && Live(s, th.pc.stage.target) then th.pc.stage.target else t;
    EffectsKeepDebt(t, th, s.queues[u],
                    if HasRoom(s, t) then s.rooms[th.room.value] else Room("", None, {}, []));
  }

  /** One step settles accounts: a command opens a debt, a reply closes one. */
  lemma StepSettles(s: State, step: Step, t: nat)
    requires Enabled(s, step) && t < |s.threads| && IsSender(s.threads[t].pc)
    ensures t < |After(s, step).threads| && IsSender(After(s, step).threads[t].pc)
    ensures (if AsksOf(step, t) then 1 else 0) + Debt(s.threads[t].pc)
            == (if AnswerOf(step, t) then 1 else 0) + Debt(After(s, step).threads[t].pc)
  {
    hide Acted, CanAct, AfterCommand, AfterLogin, AfterJoinRequest, ValidLogin, RightTrim, PickMember;
    if step.Spawn? || step.t != t {
      OthersDoNotMove(s, step, t);
    } else if step.Act? {
      ActKeepsDebt(s, t);
    } else if step.Pick? {
      PickKeepsDebt(s, t, step.user);
    }
  }

  lemma PickKeepsDebt(s: State, t: nat, u: nat)
    requires t < |s.threads| && s.threads[t].pc.Cast?
    ensures t < |PickMember(s, t, u).threads| && PickMember(s, t, u).threads[t].pc.Cast?
  {
  }

  /** Over any run, from any point of a sender's loop: as many replies as commands, up to the one being answered. */
  lemma {:induction false} OneReplyPerCommand(s: State, steps: seq<Step>, t: nat)
    requires Runs(s, steps) && t < |s.threads| && s.threads[t].pc.Command?
    ensures t < |Final(s, steps).threads|
    ensures Asked(steps, t) == Answered(steps, t) + Debt(Final(s, steps).threads[t].pc)
  {
    hide Enabled, After;
    RunSettles(s, steps, t);
  }

  lemma {:induction false} RunSettles(s: State, steps: seq<Step>, t: nat)
    requires Runs(s, steps) && t < |s.threads| && IsSender(s.threads[t].pc)
    ensures t < |Final(s, steps).threads|
    ensures Asked(steps, t) + Debt(s.threads[t].pc) == Answered(steps, t) + Debt(Final(s, steps).threads[t].pc)
    decreases |steps|
  {
    hide Enabled, After, IsSender, Debt, AsksOf, AnswerOf;
    if steps != [] {
      StepSettles(s, steps[0], t);
      RunSettles(After(s, steps[0]), steps[1..], t);
    }
  }

  // ----- the login

  function Budget(pc: Pc): (n: nat) {
    if !pc.Reply? then 0
    else match pc.next { case CheckLogin(_) => 3 case Dispatch(_) => 2 case _ => 1 }
  }

  /** The replies still to come before the next receive, when every send succeeds. */
  function Replies(pc: Pc): (n: nat)
    ensures n <= Budget(pc)
    ensures n == 0 <==> !pc.Reply?
    decreases Budget(pc)
  {
    if pc.Reply? then 1 + Replies(Replied(pc, true)) else 0
  }

  /** A worker on its way from the login message to its role, or to its end. */
  predicate LoggingIn(pc: Pc) {
    pc.Reply? || pc.Command? || pc.JoinRequest? || pc.Delete? || pc.Done?
  }

  /** Thread t receives nothing more, and its sends succeed. */
  predicate OnlyAnswers(steps: seq<Step>, t: nat) {
    forall step | step in steps ::
      (step.Receive? ==> step.t != t) && (step.Send? && step.t == t ==> step.sent)
  }

  lemma StepAnswers(s: State, step: Step, t: nat)
    requires Enabled(s, step) && t < |s.threads| && LoggingIn(s.threads[t].pc)
    requires step.Receive? ==> step.t != t
    requires step.Send? && step.t == t ==> step.sent
    ensures t < |After(s, step).threads| && LoggingIn(After(s, step).threads[t].pc)
    ensures Replies(s.threads[t].pc)
            == (if AnswerOf(step, t) then 1 else 0) + Replies(After(s, step).threads[t].pc)
  {
    hide Acted, CanAct, Heard, PickMember, LoginCheck, Role;
    if step.Spawn? || step.t != t {
      OthersDoNotMove(s, step, t);
    } else if step.Act? {
      DestroyingAnswersNothing(s, t);
    }
  }

  lemma DestroyingAnswersNothing(s: State, t: nat)
    requires t < |s.threads| == |s.queues| && CanAct(s, t) && LoggingIn(s.threads[t].pc)
    ensures t < |Acted(s, t).threads|
    ensures !s.threads[t].pc.Reply? && (Acted(s, t).threads[t].pc.Delete? || Acted(s, t).threads[t].pc.Done?)
  {
    hide Find, Membership, Take, CastEdge, Enqueue, FindEnabled, RoomEnabled, TakeEnabled, CastEnabled;
  }

  lemma {:induction false} RunAnswers(s: State, steps: seq<Step>, t: nat)
    requires Runs(s, steps) && t < |s.threads| && LoggingIn(s.threads[t].pc) && OnlyAnswers(steps, t)
    ensures t < |Final(s, steps).threads|
    ensures Replies(s.threads[t].pc) == Answered(steps, t) + Replies(Final(s, steps).threads[t].pc)
    decreases |steps|
  {
    hide Enabled, After, LoggingIn, AnswerOf, Replies;
    if steps != [] {
      assert steps[0] in steps && forall step | step in steps[1..] :: step in steps;
      StepAnswers(s, steps[0], t);
      RunAnswers(After(s, steps[0]), steps[1..], t);
    }
  }

  lemma RepliesToLogin(result: Result, msg: Message)
    requires result != EOF_OR_ERROR
    ensures Replies(AfterLogin(result, msg)) >= 1
    ensures Replies(AfterLogin(result, msg)) == 1 <==>
              result == SUCCESS && (ValidLogin(msg.data) ==> msg.tag == "slogin" || msg.tag == "rlogin")
  {
    var checked := LoginCheck(msg);
    if ValidLogin(msg.data) {
      assert Replied(checked, true) == Role(msg.tag);
    } else {
      assert Replied(checked, true) == Delete;
    }
  }

  /**
   In any run that goes from a login until its replies are sent, the client is answered at least
   once; and it is answered exactly once if and only if the message has a known tag and either is
   refused for its name or asks for one of the two roles.
   */
  lemma LoginAnsweredOnceIff(s: State, t: nat, result: Result, msg: Message, steps: seq<Step>)
    requires t < |s.threads| && s.threads[t].pc.Login? && result != EOF_OR_ERROR
    requires Enabled(s, Receive(t, result, msg)) && Runs(After(s, Receive(t, result, msg)), steps)
    requires OnlyAnswers(steps, t)
    ensures var n := Final(After(s, Receive(t, result, msg)), steps);
            t < |n.threads| &&
            (!n.threads[t].pc.Reply? ==>
               && Answered(steps, t) >= 1
               && (Answered(steps, t) == 1 <==>
                     result == SUCCESS && (ValidLogin(msg.data) ==> msg.tag == "slogin" || msg.tag == "rlogin")))
  {
    hide AfterLogin, ValidLogin, RightTrim;
    var m := After(s, Receive(t, result, msg));
    assert m.threads[t].pc == AfterLogin(result, msg);
    RunAnswers(m, steps, t);
    RepliesToLogin(result, msg);
  }

  /** A thread can always send the replies that it owes. */
  lemma {:induction false} RepliesCanBeSent(s: State, t: nat) returns (steps: seq<Step>)
    requires t < |s.threads| == |s.queues| && LoggingIn(s.threads[t].pc)
    ensures Runs(s, steps) && OnlyAnswers(steps, t) && Answered(steps, t) == Replies(s.threads[t].pc)
    decreases Replies(s.threads[t].pc)
  {
    hide Replied;
    if s.threads[t].pc.Reply? {
      var step := Send(t, true);
      var rest := RepliesCanBeSent(After(s, step), t);
      steps := [step] + rest;
      assert steps[1..] == rest;
    } else {
      steps := [];
    }
  }

  /** A first client connects and logs in. */
  function Opening(result: Result, msg: Message): (steps: seq<Step>) {
    [Spawn, Receive(0, result, msg)]
  }

  lemma LoginRun(result: Result, msg: Message) returns (rest: seq<Step>)
    requires result != EOF_OR_ERROR
    ensures Runs(Start(), Opening(result, msg) + rest) && OnlyAnswers(rest, 0)
    ensures Answered(rest, 0) == Replies(AfterLogin(result, msg))
  {
    hide AfterLogin, Replies;
    var first := After(Start(), Spawn);
    var heard := After(first, Receive(0, result, msg));
    rest := RepliesCanBeSent(heard, 0);
    var tail := [Receive(0, result, msg)] + rest;
    assert tail[1..] == rest;
    assert Runs(first, tail);
    assert Opening(result, msg) + rest == [Spawn] + tail && ([Spawn] + tail)[1..] == tail;
  }

  /** Any message with an unknown tag is answered twice or more, */
  lemma InvalidLoginAnsweredTwice(msg: Message)
    ensures exists rest ::
              Runs(Start(), Opening(INVALID_MSG, msg) + rest) && OnlyAnswers(rest, 0) && Answered(rest, 0) >= 2
  {
    RepliesToLogin(INVALID_MSG, msg);
    var rest := LoginRun(INVALID_MSG, msg);
  }

  /** and so is the name "a", accepted, under the tag of a join. */
  lemma JoinAsLoginAnsweredTwice()
    ensures exists rest ::
              Runs(Start(), Opening(SUCCESS, Message("join", "a\n")) + rest) && OnlyAnswers(rest, 0)
                && Answered(rest, 0) >= 2
  {
    ShortNameIsValid();
    RepliesToLogin(SUCCESS, Message("join", "a\n"));
    var rest := LoginRun(SUCCESS, Message("join", "a\n"));
  }

  lemma ShortNameIsValid()
    ensures ValidLogin("a\n")
  {
    assert "a\n"[1] == '\n' && RightTrim("a\n") == RightTrim("a");
    assert RightTrim("a") == "a" && LOWER[0] == 'a' && ALPHABET[0] == 'a';
  }
}
