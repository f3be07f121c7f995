/** Who a thread is: the login that it answered decides its name, its replies and its role for good. */
module ChatLogin {
  import opened Framing
  import opened ChatModel
  import opened ChatControl
  import opened ChatReplies
  import opened ChatSemaphore

  // ----- what a thread is sent

  datatype Answer = Answer(msg: Message, sent: bool)

  /** The reply that a step of thread t sends, if any. */
  function ToldBy(s: State, step: Step, t: nat): (a: seq<Answer>) {
    if step.Send? && step.t == t && t < |s.threads| && s.threads[t].pc.Reply?
    then [Answer(s.threads[t].pc.msg, step.sent)] else []
  }

  function Told(s: State, steps: seq<Step>, t: nat): (a: seq<Answer>)
    requires Runs(s, steps)
    decreases |steps|
  {
    if steps == [] then [] else ToldBy(s, steps[0], t) + Told(After(s, steps[0]), steps[1..], t)
  }

  /** Thread t receives nothing. */
  predicate Silent(steps: seq<Step>, t: nat) {
    forall step | step in steps :: step.Receive? ==> step.t != t
  }

  // ----- the login dialogue

  predicate IsRole(tag: string) {
    tag == "slogin" || tag == "rlogin"
  }

  /** All replies to a login. */
  function Expected(result: Result, msg: Message): (replies: seq<Message>) {
    (if result == INVALID_MSG then [Message("err", "wrong format")] else [])
    + if !ValidLogin(msg.data) then [Message("err", if '\n' in msg.data then "wrong tag" else "wrong format")]
      else if IsRole(msg.tag) then [Message("ok", "")]
      else [Message("ok", ""), Message("err", "wrong tag")]
  }

  function LoginNext(result: Result, msg: Message, k: nat): (next: Next) {
    if result == INVALID_MSG && k == 0 then CheckLogin(msg)
    else if ValidLogin(msg.data) && k == (if result == INVALID_MSG then 1 else 0) then Dispatch(msg.tag)
    else Throw
  }

  predicate AllSent(told: seq<Answer>) {
    forall i | 0 <= i < |told| :: told[i].sent
  }

  /** How far a thread has come with the replies to its login, and where it is afterwards. */
  predicate InDialogue(th: Thread, result: Result, msg: Message, told: seq<Answer>) {
    var replies := Expected(result, msg);
    && |told| <= |replies|
    && (forall i | 0 <= i < |told| :: told[i].msg == replies[i])
    && (ValidLogin(msg.data) ==> th.name == RightTrim(msg.data))
    && (!AllSent(told) ==> Gone(th.pc))
    && (AllSent(told) && |told| < |replies| ==>
          && th.pc.Reply? && th.pc.msg == replies[|told|] && th.pc.next == LoginNext(result, msg, |told|))
    && (AllSent(told) && |told| == |replies| ==>
          if ValidLogin(msg.data) && msg.tag == "slogin" then th.pc == Command
          else if ValidLogin(msg.data) && msg.tag == "rlogin" then th.pc == JoinRequest
          else Gone(th.pc))
  }

  lemma LoginOpensDialogue(th: Thread, result: Result, msg: Message)
    requires th.pc.Login? && result != EOF_OR_ERROR
    ensures InDialogue(Heard(th, result, msg), result, msg, [])
  {
    hide RightTrim, ValidLogin;
  }

  lemma ReplyGoesOn(th: Thread, result: Result, msg: Message, told: seq<Answer>, sent: bool)
    requires InDialogue(th, result, msg, told) && th.pc.Reply?
    ensures InDialogue(SentBy(th, sent), result, msg, told + [Answer(th.pc.msg, sent)])
  {
    hide RightTrim, ValidLogin;
    var now := told + [Answer(th.pc.msg, sent)];
    assert forall i | 0 <= i < |told| :: now[i] == told[i];
    assert now[|told|].sent == sent;
    assert AllSent(now) <==> AllSent(told) && sent;
  }

  lemma StepKeepsDialogue(s: State, step: Step, t: nat, result: Result, msg: Message, told: seq<Answer>)
    requires Enabled(s, step) && t < |s.threads| && InDialogue(s.threads[t], result, msg, told)
    requires step.Receive? ==> step.t != t
    ensures t < |After(s, step).threads|
    ensures InDialogue(After(s, step).threads[t], result, msg, told + ToldBy(s, step, t))
  {
    hide Acted, CanAct, Heard, PickMember, ValidLogin, RightTrim, Expected, LoginNext;
    assert told + [] == told;
    if step.Spawn? || step.t != t {
      OthersDoNotMove(s, step, t);
    } else if step.Act? {
      DestroyOnly(s, t);
    } else if step.Send? {
      ReplyGoesOn(s.threads[t], result, msg, told, step.sent);
    }
  }

  lemma DestroyOnly(s: State, t: nat)
    requires t < |s.threads| == |s.queues| && CanAct(s, t)
    requires var pc := s.threads[t].pc; pc.Reply? || pc.Command? || pc.JoinRequest? || Gone(pc)
    ensures t < |Acted(s, t).threads| && Gone(s.threads[t].pc) && Gone(Acted(s, t).threads[t].pc)
    ensures Acted(s, t).threads[t].name == s.threads[t].name
  {
    hide Find, Membership, Take, CastEdge, Enqueue, FindEnabled, RoomEnabled, TakeEnabled, CastEnabled;
  }

  lemma {:induction false} RunKeepsDialogue(s: State, steps: seq<Step>, t: nat, result: Result, msg: Message,
                                            told: seq<Answer>)
    requires Runs(s, steps) && Silent(steps, t) && t < |s.threads| && InDialogue(s.threads[t], result, msg, told)
    ensures t < |Final(s, steps).threads|
    ensures InDialogue(Final(s, steps).threads[t], result, msg, told + Told(s, steps, t))
    decreases |steps|
  {
    hide Enabled, After, InDialogue, ToldBy;
    if steps == [] {
      assert told + [] == told;
    } else {
      assert steps[0] in steps && forall step | step in steps[1..] :: step in steps;
      StepKeepsDialogue(s, steps[0], t, result, msg, told);
      RunKeepsDialogue(After(s, steps[0]), steps[1..], t, result, msg, told + ToldBy(s, steps[0], t));
      assert told + ToldBy(s, steps[0], t) + Told(After(s, steps[0]), steps[1..], t) == told + Told(s, steps, t);
    }
  }

  /**
   From a login on, in any run, the replies are those that the message calls for, in order; after them
   a sender waits for commands, a receiver for its join, and everyone else is on the way out.
   */
  lemma LoginDialogue(s: State, t: nat, result: Result, msg: Message, steps: seq<Step>)
    requires t < |s.threads| && s.threads[t].pc.Login? && result != EOF_OR_ERROR
    requires Enabled(s, Receive(t, result, msg)) && Runs(After(s, Receive(t, result, msg)), steps) && Silent(steps, t)
    ensures var m := After(s, Receive(t, result, msg));
            t < |Final(m, steps).threads| && InDialogue(Final(m, steps).threads[t], result, msg, Told(m, steps, t))
  {
    hide InDialogue, Heard;
    var m := After(s, Receive(t, result, msg));
    LoginOpensDialogue(s.threads[t], result, msg);
    RunKeepsDialogue(m, steps, t, result, msg, []);
    assert [] + Told(m, steps, t) == Told(m, steps, t);
  }

  // ----- every reply is a message of the protocol

  predicate PlainReply(pc: Pc) {
    pc.Reply? ==> Framed(pc.msg) && (pc.msg.tag == "err" || pc.msg == Message("ok", ""))
  }

  lemma ShortIsFramed(tag: string, text: string)
    requires (tag == "err" || tag == "ok") && Clean(text) && |text| <= 100
    ensures Framed(Message(tag, text))
  {
  }

  lemma OkIsPlain(next: Next)
    ensures PlainReply(Ok(next))
  {
    hide Framed;
    ShortIsFramed("ok", "");
  }

  lemma ErrIsPlain(text: string, next: Next)
    requires Clean(text) && |text| <= 100
    ensures PlainReply(Err(text, next))
  {
    hide Framed, Clean;
    ShortIsFramed("err", text);
  }

  lemma LoginRepliesPlainly(result: Result, msg: Message, tag: string)
    ensures PlainReply(AfterLogin(result, msg)) && PlainReply(LoginCheck(msg)) && PlainReply(Role(tag))
  {
    hide RightTrim, PlainReply, ValidLogin;
    ErrIsPlain("wrong format", CheckLogin(msg));
    ErrIsPlain("wrong format", Throw);
    ErrIsPlain("wrong tag", Throw);
    OkIsPlain(Dispatch(msg.tag));
    OthersArePlain(Delete);
    OthersArePlain(Command);
    OthersArePlain(JoinRequest);
  }

  lemma OthersArePlain(pc: Pc)
    requires !pc.Reply?
    ensures PlainReply(pc)
  {
  }

  lemma JoinRepliesPlainly(result: Result, msg: Message)
    ensures PlainReply(AfterJoinRequest(result, msg))
  {
    hide RightTrim, PlainReply;
    ErrIsPlain("something went wrong", Throw);
    ErrIsPlain("wrong format", Throw);
    OthersArePlain(FindLock(RightTrim(msg.data), true));
  }

  lemma RefusalsArePlain()
    ensures PlainReply(Err("wrong message", Loop)) && PlainReply(Err("wrong room format", Loop))
    ensures PlainReply(Err("don't join a room", Loop))
  {
    hide PlainReply, Err;
    ErrIsPlain("wrong message", Loop);
    ErrIsPlain("wrong room format", Loop);
    ErrIsPlain("don't join a room", Loop);
  }

  lemma MoreRefusalsArePlain()
    ensures PlainReply(Err("wrong", Loop)) && PlainReply(Err("wrong formate", Loop))
    ensures PlainReply(Err("wrong tag pops up", Loop))
  {
    hide PlainReply, Err;
    ErrIsPlain("wrong", Loop);
    ErrIsPlain("wrong formate", Loop);
    ErrIsPlain("wrong tag pops up", Loop);
  }

  lemma CommandRepliesPlainly(result: Result, msg: Message, inRoom: bool)
    ensures PlainReply(AfterCommand(result, msg, inRoom))
  {
    hide RightTrim, PlainReply, Err, Ok;
    RefusalsArePlain();
    MoreRefusalsArePlain();
    OkIsPlain(Loop);
    OkIsPlain(Throw);
    OthersArePlain(Delete);
    OthersArePlain(FindLock(RightTrim(msg.data), false));
    OthersArePlain(CastLock(RightTrim(msg.data)));
  }

  // ----- roles

  /** In the loop of chat_with_sender. */
  predicate TakesCommands(pc: Pc) {
    || pc.Command? || (pc.Reply? && pc.next.Loop?) || (IsFind(pc) && !pc.receiver) || IsCast(pc)
  }

  /** In chat_with_receiver. */
  predicate TakesDeliveries(pc: Pc) {
    pc.JoinRequest? || (IsFind(pc) && pc.receiver) || IsMembership(pc) || IsTake(pc) || pc.AddReply? || pc.Deliver?
  }

  /** What a thread has taken over from its login message m. */
  predicate Remembers(th: Thread, m: Message) {
    && !th.pc.Login?
    && (ValidLogin(m.data) ==> th.name == RightTrim(m.data))
    && (th.pc.Reply? && th.pc.next.CheckLogin? ==> th.pc.next.login == m)
    && (th.pc.Reply? && th.pc.next.Dispatch? ==> ValidLogin(m.data) && th.pc.next.tag == m.tag)
    && (TakesCommands(th.pc) ==> ValidLogin(m.data) && m.tag == "slogin")
    && (TakesDeliveries(th.pc) ==> ValidLogin(m.data) && m.tag == "rlogin")
    && PlainReply(th.pc)
  }

  lemma LoginIsRemembered(th: Thread, result: Result, m: Message)
    requires th.pc.Login?
    ensures Remembers(Heard(th, result, m), m)
  {
    hide RightTrim, ValidLogin, PlainReply;
    LoginRepliesPlainly(result, m, m.tag);
  }

  lemma HeardRemembers(th: Thread, result: Result, msg: Message, m: Message)
    requires Receives(th.pc) && Remembers(th, m)
    ensures Remembers(Heard(th, result, msg), m)
  {
    hide RightTrim, ValidLogin, AfterCommand, AfterJoinRequest, PlainReply;
    JoinRepliesPlainly(result, msg);
    CommandRepliesPlainly(result, msg, th.room.Some?);
  }

  lemma SentRemembers(th: Thread, sent: bool, m: Message)
    requires Sends(th.pc) && Remembers(th, m)
    ensures Remembers(SentBy(th, sent), m)
  {
    hide RightTrim, ValidLogin, PlainReply;
    if th.pc.Reply? {
      var tag := if th.pc.next.Dispatch? then th.pc.next.tag else "";
      LoginRepliesPlainly(SUCCESS, if th.pc.next.CheckLogin? then th.pc.next.login else m, tag);
    }
    if !SentBy(th, sent).pc.Reply? { OthersArePlain(SentBy(th, sent).pc); }
  }

  lemma MembershipRemembers(t: nat, th: Thread, room: Room, m: Message)
    requires IsMembership(th.pc) && Remembers(th, m)
    ensures Remembers(Membership(t, th, room).thread, m)
  {
    hide RightTrim, ValidLogin, PlainReply;
    OthersArePlain(Membership(t, th, room).thread.pc);
  }

  lemma TakeRemembers(t: nat, th: Thread, q: Queue, m: Message)
    requires IsTake(th.pc) && Remembers(th, m)
    ensures Remembers(Take(t, th, q).thread, m)
  {
    hide RightTrim, ValidLogin, PlainReply;
    OthersArePlain(Take(t, th, q).thread.pc);
  }

  lemma CastEdgeRemembers(t: nat, th: Thread, room: Room, m: Message)
    requires IsCastEdge(th.pc) && Remembers(th, m)
    ensures Remembers(CastEdge(t, th, room).thread, m)
  {
    hide RightTrim, ValidLogin, DeliveryText, PlainReply;
    if th.pc.CastLock? { OthersArePlain(CastEdge(t, th, room).thread.pc); } else { OkIsPlain(Loop); }
  }

  lemma EnqueueRemembers(t: nat, th: Thread, q: Queue, m: Message)
    requires IsEnqueue(th.pc) && Remembers(th, m)
    ensures Remembers(Enqueue(t, th, q).thread, m)
  {
    hide RightTrim, ValidLogin, PlainReply;
    OthersArePlain(Enqueue(t, th, q).thread.pc);
  }

  lemma DestroyRemembers(th: Thread, q: Queue, m: Message)
    requires th.pc.Delete? && Remembers(th, m)
    ensures Remembers(Destroy(th, q).thread, m)
  {
    hide RightTrim, ValidLogin, PlainReply;
    OthersArePlain(Destroy(th, q).thread.pc);
  }

  lemma FindRemembers(s: State, t: nat, m: Message)
    requires t < |s.threads| && IsFind(s.threads[t].pc) && Remembers(s.threads[t], m)
    ensures t < |Find(s, t).threads| && Remembers(Find(s, t).threads[t], m)
  {
    hide RightTrim, ValidLogin, PlainReply;
    OkIsPlain(Loop);
    if !Find(s, t).threads[t].pc.Reply? { OthersArePlain(Find(s, t).threads[t].pc); }
  }

  lemma ActedRemembers(s: State, t: nat, m: Message)
    requires t < |s.threads| == |s.queues| && CanAct(s, t) && Remembers(s.threads[t], m)
    ensures t < |Acted(s, t).threads| && Remembers(Acted(s, t).threads[t], m)
  {
    hide Remembers, Find, Membership, Take, CastEdge, Enqueue, Destroy, FindEnabled, RoomEnabled, TakeEnabled,
        CastEnabled;
    var th := s.threads[t];
    if IsFind(th.pc) {
      FindRemembers(s, t, m);
    } else if IsMembership(th.pc) {
      if HasRoom(s, t) { MembershipRemembers(t, th, s.rooms[th.room.value], m); }
    } else if IsTake(th.pc) {
      TakeRemembers(t, th, s.queues[t], m);
    } else if IsCastEdge(th.pc) {
      if HasRoom(s, t) { CastEdgeRemembers(t, th, s.rooms[th.room.value], m); }
    } else if IsEnqueue(th.pc) {
      if Live(s, th.pc.stage.target) { EnqueueRemembers(t, th, s.queues[th.pc.stage.target], m); }
    } else {
      DestroyRemembers(th, s.queues[t], m);
    }
  }

  lemma PickRemembers(s: State, t: nat, u: nat, m: Message)
    requires t < |s.threads| && s.threads[t].pc.Cast? && Remembers(s.threads[t], m)
    ensures t < |PickMember(s, t, u).threads| && Remembers(PickMember(s, t, u).threads[t], m)
  {
    hide RightTrim, ValidLogin, Framed;
  }

  lemma StepRemembers(s: State, step: Step, t: nat, m: Message)
    requires Enabled(s, step) && t < |s.threads| && Remembers(s.threads[t], m)
    ensures t < |After(s, step).threads| && Remembers(After(s, step).threads[t], m)
  {
    hide Remembers, Acted, CanAct, Heard, SentBy, PickMember;
    if step.Spawn? || step.t != t {
      OthersDoNotMove(s, step, t);
    } else {
      match step
      case Receive(_, result, msg) => HeardRemembers(s.threads[t], result, msg, m);
      case Send(_, sent) => SentRemembers(s.threads[t], sent, m);
      case Timeout(_) => TimeoutRemembers(s.threads[t], m);
      case Pick(_, u) => PickRemembers(s, t, u, m);
      case Act(_) => ActedRemembers(s, t, m);
    }
  }

  lemma TimeoutRemembers(th: Thread, m: Message)
    requires th.pc.Wait? && Remembers(th, m)
    ensures Remembers(th.(pc := Check), m)
  {
    hide Framed, ValidLogin, RightTrim;
  }

  lemma {:induction false} RunRemembers(s: State, steps: seq<Step>, t: nat, m: Message)
    requires Runs(s, steps) && t < |s.threads| && Remembers(s.threads[t], m)
    ensures t < |Final(s, steps).threads| && Remembers(Final(s, steps).threads[t], m)
    decreases |steps|
  {
    hide Enabled, After, Remembers;
    if steps != [] {
      StepRemembers(s, steps[0], t, m);
      RunRemembers(After(s, steps[0]), steps[1..], t, m);
    }
  }

  /** The first message that thread t receives. */
  function FirstHeard(steps: seq<Step>, t: nat): (m: Option<Message>) {
    if steps == [] then None
    else if steps[0].Receive? && steps[0].t == t then Some(steps[0].msg)
    else FirstHeard(steps[1..], t)
  }

  lemma {:induction false} FirstHeardIsRemembered(s: State, steps: seq<Step>, t: nat)
    requires Runs(s, steps) && (t < |s.threads| ==> s.threads[t].pc.Login?)
    requires t < |Final(s, steps).threads| && !Final(s, steps).threads[t].pc.Login?
    ensures FirstHeard(steps, t).Some? && Remembers(Final(s, steps).threads[t], FirstHeard(steps, t).value)
    decreases |steps|
  {
    hide Remembers, Heard, After;
    if steps != [] {
      var step := steps[0];
      if step.Receive? && step.t == t {
        LoginIsRemembered(s.threads[t], step.result, step.msg);
        AfterReceive(s, step);
        RunRemembers(After(s, step), steps[1..], t, step.msg);
      } else {
        OnlyReceivesAtLogin(s, step, t);
        FirstHeardIsRemembered(After(s, step), steps[1..], t);
      }
    }
  }

  lemma AfterReceive(s: State, step: Step)
    requires Enabled(s, step) && step.Receive?
    ensures step.t < |s.threads| == |After(s, step).threads|
    ensures After(s, step).threads[step.t] == Heard(s.threads[step.t], step.result, step.msg)
  {
    hide Heard;
  }

  lemma OnlyReceivesAtLogin(s: State, step: Step, t: nat)
    requires Enabled(s, step) && !(step.Receive? && step.t == t) && (t < |s.threads| ==> s.threads[t].pc.Login?)
    ensures t < |After(s, step).threads| ==> After(s, step).threads[t].pc.Login?
  {
    hide Acted, Heard, SentBy, PickMember, FindEnabled, RoomEnabled, TakeEnabled, CastEnabled;
    if t < |s.threads| {
      if step.Spawn? || step.t != t { OthersDoNotMove(s, step, t); }
    } else if !step.Spawn? {
      SameThreads(s, step);
    }
  }

  lemma SameThreads(s: State, step: Step)
    requires Enabled(s, step) && !step.Spawn?
    ensures |After(s, step).threads| == |s.threads|
  {
    hide Heard, SentBy, Membership, Take, CastEdge, Enqueue, Destroy, FindEnabled, RoomEnabled, TakeEnabled,
        CastEnabled;
  }

  /**
   In every run only a thread whose first message was an accepted "rlogin" is ever a member of a room or
   a receiver at all, and only one with an accepted "slogin" ever takes commands or broadcasts; its name
   is the trimmed data of that message.
   */
  lemma RolesComeFromLogin(steps: seq<Step>, t: nat)
    requires Runs(Start(), steps) && t < |Final(Start(), steps).threads|
    ensures var th := Final(Start(), steps).threads[t];
      && (TakesCommands(th.pc) || TakesDeliveries(th.pc) || IsMember(th.pc) ==>
            && FirstHeard(steps, t).Some? && ValidLogin(FirstHeard(steps, t).value.data)
            && th.name == RightTrim(FirstHeard(steps, t).value.data))
      && (TakesCommands(th.pc) ==> FirstHeard(steps, t).value.tag == "slogin")
      && (TakesDeliveries(th.pc) || IsMember(th.pc) ==> FirstHeard(steps, t).value.tag == "rlogin")
  {
    hide RightTrim, ValidLogin, Runs, Final;
    if !Final(Start(), steps).threads[t].pc.Login? {
      FirstHeardIsRemembered(Start(), steps, t);
    }
  }

  /** Whatever a client does, every reply on its way to it is "ok" or "err" and arrives as it was sent. */
  lemma RepliesArrive(steps: seq<Step>, t: nat, rest: string, into: Message)
    requires Runs(Start(), steps) && t < |Final(Start(), steps).threads|
    requires Final(Start(), steps).threads[t].pc.Reply?
    ensures var msg := Final(Start(), steps).threads[t].pc.msg;
            && (msg.tag == "err" || msg == Message("ok", ""))
            && Received(Sent(msg) + rest, into) == Delivery(Arrived(msg), SUCCESS, rest)
  {
    hide Runs, Final, ValidLogin, RightTrim, Received, Sent, Framed, FirstHeard;
    FirstHeardIsRemembered(Start(), steps, t);
    RoundTripIff(Final(Start(), steps).threads[t].pc.msg, rest, into);
  }

  /** Every tag that the server's decisions act on is one that receive lets through. */
  lemma ActedTagsAreKnown(tag: string)
    ensures tag in {"slogin", "rlogin", "join", "leave", "sendall", "quit", "delivery"} ==> KnownTag(tag)
  {
  }
}
