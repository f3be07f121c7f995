/**
 What the commands of a sender do: over any run of the server, one after the other, whatever the other
 threads do in between, they have the effects that each of them has on its own.
 */
module ChatCommands {
  import opened Framing
  import opened ChatModel
  import opened ChatControl
  import opened ChatLogin
  import opened ChatReplies
  import opened ChatSafety
  import opened ChatSemaphore

  // ----- what a command means

  datatype Request = Request(result: Result, msg: Message)

  predicate Joins(q: Request) {
    q.result == SUCCESS && q.msg.tag == "join" && '\n' in q.msg.data
  }

  predicate Parts(q: Request, room: Option<string>) {
    q.result == SUCCESS && q.msg.tag == "leave" && room.Some?
  }

  predicate Speaks(q: Request, room: Option<string>) {
    q.result == SUCCESS && q.msg.tag == "sendall" && '\n' in q.msg.data && room.Some?
  }

  predicate Quits(q: Request) {
    q.result == SUCCESS && q.msg.tag == "quit"
  }

  predicate Granted(q: Request, room: Option<string>) {
    Joins(q) || Parts(q, room) || Speaks(q, room) || Quits(q)
  }

  function RoomThen(q: Request, room: Option<string>): (r: Option<string>) {
    if Joins(q) then Some(RightTrim(q.msg.data)) else if Parts(q, room) then None else room
  }

  function Spoken(q: Request, room: Option<string>, name: string): (texts: seq<string>) {
    if Speaks(q, room) then [room.value + ":" + name + ":" + RightTrim(q.msg.data)] else []
  }

  /** What a sender is told that asks for something else. */
  function Refusal(q: Request, room: Option<string>): (text: string) {
    if q.result == INVALID_MSG then "wrong message"
    else if q.msg.tag == "sendall" then if room.None? then "don't join a room" else "wrong formate"
    else if q.msg.tag == "join" then "wrong room format"
    else if q.msg.tag == "leave" then "wrong"
    else "wrong tag pops up"
  }

  predicate Answers(msg: Message, q: Request, room: Option<string>) {
    msg == if Granted(q, room) then Message("ok", "") else Message("err", Refusal(q, room))
  }

  // ----- what a run shows of a sender

  function RoomName(s: State, t: nat): (name: Option<string>)
    requires t < |s.threads|
  {
    if HasRoom(s, t) then Some(s.rooms[s.threads[t].room.value].name) else None
  }

  function HistoryAt(s: State, r: nat): (h: seq<string>) {
    if r < |s.rooms| then s.rooms[r].history else []
  }

  function Beyond(h: seq<string>, h': seq<string>): (texts: seq<string>) {
    if |h| <= |h'| then h'[|h|..] else []
  }

  /** What a step of thread t adds to the history of its room. */
  function SaidBy(s: State, step: Step, t: nat): (texts: seq<string>)
    requires Enabled(s, step)
  {
    if step == Act(t) && HasRoom(s, t) then
      Beyond(HistoryAt(s, s.threads[t].room.value), HistoryAt(After(s, step), s.threads[t].room.value))
    else []
  }

  function Said(s: State, steps: seq<Step>, t: nat): (texts: seq<string>)
    requires Runs(s, steps)
    decreases |steps|
  {
    if steps == [] then [] else SaidBy(s, steps[0], t) + Said(After(s, steps[0]), steps[1..], t)
  }

  function RequestBy(step: Step, t: nat): (q: seq<Request>) {
    if step.Receive? && step.t == t then [Request(step.result, step.msg)] else []
  }

  /** What thread t received. */
  function Requests(steps: seq<Step>, t: nat): (qs: seq<Request>) {
    if steps == [] then [] else RequestBy(steps[0], t) + Requests(steps[1..], t)
  }

  // ----- one command

  /** Before the reply to q; room is that of the sender when it received q. */
  predicate Acting(th: Thread, now: Option<string>, q: Request, room: Option<string>, said: seq<string>) {
    && now == room
    && (|| (Joins(q) && said == [] && IsFind(th.pc) && !th.pc.receiver && th.pc.name == RightTrim(q.msg.data))
        || (Speaks(q, room) && th.pc.CastLock? && said == [] && th.pc.text == RightTrim(q.msg.data))
        || (Speaks(q, room) && th.pc.Cast? && said == Spoken(q, room, th.name)))
  }

  /** The command has had its effects. */
  predicate Effected(th: Thread, now: Option<string>, q: Request, room: Option<string>, said: seq<string>) {
    now == RoomThen(q, room) && said == Spoken(q, room, th.name)
  }

  predicate Replying(th: Thread, now: Option<string>, q: Request, room: Option<string>, said: seq<string>) {
    && Effected(th, now, q, room, said)
    && th.pc.Reply? && Answers(th.pc.msg, q, room) && th.pc.next == if Quits(q) then Throw else Loop
  }

  predicate Finished(th: Thread, now: Option<string>, q: Request, room: Option<string>, said: seq<string>,
                     a: Answer) {
    && Effected(th, now, q, room, said) && Answers(a.msg, q, room)
    && if a.sent && !Quits(q) then th.pc == Command else Gone(th.pc)
  }

  /** How far thread t has come with q: what it has said and been told since it received it. */
  predicate Doing(th: Thread, now: Option<string>, q: Request, room: Option<string>, said: seq<string>,
                  told: seq<Answer>) {
    if q.result == EOF_OR_ERROR then Gone(th.pc) && now == room && said == [] && told == []
    else if told == [] then Acting(th, now, q, room, said) || Replying(th, now, q, room, said)
    else |told| == 1 && Finished(th, now, q, room, said, told[0])
  }

  predicate InCommand(s: State, t: nat, name: string, q: Request, room: Option<string>, said: seq<string>,
                      told: seq<Answer>) {
    t < |s.threads| && s.threads[t].name == name && Doing(s.threads[t], RoomName(s, t), q, room, said, told)
  }

  lemma CommandBegins(th: Thread, q: Request, room: Option<string>)
    requires th.pc.Command? && (th.room.Some? <==> room.Some?)
    ensures var th' := Heard(th, q.result, q.msg);
      && th'.name == th.name && th'.room == (if Parts(q, room) then None else th.room)
      && Doing(th', if Parts(q, room) then None else room, q, room, [], [])
  {
    hide RightTrim;
  }

  lemma ReplyFinishes(th: Thread, now: Option<string>, q: Request, room: Option<string>, said: seq<string>,
                      told: seq<Answer>, sent: bool)
    requires Doing(th, now, q, room, said, told) && Sends(th.pc)
    ensures th.pc.Reply? && var th' := SentBy(th, sent);
            && th'.name == th.name && th'.room == th.room
            && Doing(th', now, q, room, said, told + [Answer(th.pc.msg, sent)])
  {
    hide RightTrim;
  }

  lemma RoomNameStays(s: State, step: Step, t: nat)
    requires Control(s) && Enabled(s, step) && t < |s.threads|
    requires t < |After(s, step).threads| && After(s, step).threads[t].room == s.threads[t].room
    ensures RoomName(After(s, step), t) == RoomName(s, t)
  {
    hide Control, After, Enabled;
    StepExtends(s, step);
    ControlOf(s, t);
  }

  lemma PickGoesOn(s: State, t: nat, u: nat, now: Option<string>, q: Request, room: Option<string>, said: seq<string>,
                   told: seq<Answer>)
    requires Enabled(s, Pick(t, u)) && Doing(s.threads[t], now, q, room, said, told)
    ensures t < |After(s, Pick(t, u)).threads|
    ensures var th, th' := s.threads[t], After(s, Pick(t, u)).threads[t];
            th'.name == th.name && th'.room == th.room && Doing(th', now, q, room, said, told)
  {
    hide RightTrim;
  }

  lemma NoOtherSteps(th: Thread, now: Option<string>, q: Request, room: Option<string>, said: seq<string>,
                     told: seq<Answer>)
    requires Doing(th, now, q, room, said, told)
    ensures th.pc.Command? || th.pc.Reply? || Gone(th.pc) || IsFind(th.pc) || IsCast(th.pc)
  {
    hide RightTrim;
  }

  // the operations of a sender, on its thread

  lemma FindKeepsHistories(s: State, t: nat)
    requires t < |s.threads| && IsFind(s.threads[t].pc)
    ensures var n := Find(s, t);
            && t < |n.threads| && |s.rooms| <= |n.rooms|
            && n.threads[t] == s.threads[t].(pc := n.threads[t].pc, room := n.threads[t].room)
            && forall r | 0 <= r < |s.rooms| :: HistoryAt(n, r) == HistoryAt(s, r) && n.rooms[r].name == s.rooms[r].name
  {
  }

  lemma FindMovesThread(s: State, t: nat)
    requires t < |s.threads| && IsFind(s.threads[t].pc)
    requires !s.threads[t].pc.FindLock? ==> s.serverLock == Some(t)
    ensures t < |Find(s, t).threads|
    ensures var th, pc := Find(s, t).threads[t], s.threads[t].pc;
            if pc.FindUnlock? then
              th.pc == (if pc.receiver then AddLock else Ok(Loop)) && th.room == Some(pc.found)
            else
              && IsFind(th.pc) && th.pc.name == pc.name && th.pc.receiver == pc.receiver
              && th.room == s.threads[t].room
  {
  }

  lemma FindMoves(s: State, t: nat)
    requires Control(s) && t < |s.threads| && IsFind(s.threads[t].pc)
    ensures var n, pc := Find(s, t), s.threads[t].pc;
            && t < |n.threads| && n.threads[t] == s.threads[t].(pc := n.threads[t].pc, room := n.threads[t].room)
            && (forall r | 0 <= r < |s.rooms| :: HistoryAt(n, r) == HistoryAt(s, r))
            && if pc.FindUnlock? then
                 n.threads[t].pc == (if pc.receiver then AddLock else Ok(Loop)) && RoomName(n, t) == Some(pc.name)
               else
                 && IsFind(n.threads[t].pc) && n.threads[t].pc.name == pc.name
                 && n.threads[t].pc.receiver == pc.receiver
                 && RoomName(n, t) == RoomName(s, t)
  {
    hide Control, Find, HistoryAt;
    ControlOf(s, t);
    FindKeepsNames(s, t);
    FindKeepsHistories(s, t);
    FindMovesThread(s, t);
  }

  lemma FindGoesOn(s: State, t: nat, q: Request, room: Option<string>, said: seq<string>, told: seq<Answer>)
    requires Control(s) && t < |s.threads| && IsFind(s.threads[t].pc)
    requires Doing(s.threads[t], RoomName(s, t), q, room, said, told)
    ensures var n := Find(s, t);
            && t < |n.threads| && n.threads[t].name == s.threads[t].name
            && Doing(n.threads[t], RoomName(n, t), q, room, said, told)
            && (forall r | 0 <= r < |s.rooms| :: HistoryAt(n, r) == HistoryAt(s, r))
  {
    hide Control, RightTrim, Find, RoomName, HistoryAt;
    FindMoves(s, t);
  }

  lemma CastEdgeGoesOn(t: nat, th: Thread, r: Room, q: Request, room: Option<string>, said: seq<string>,
                       told: seq<Answer>)
    requires IsCastEdge(th.pc) && Doing(th, Some(r.name), q, room, said, told)
    ensures var e := CastEdge(t, th, r);
            && e.thread.name == th.name && e.thread.room == th.room && e.room.name == r.name
            && Doing(e.thread, Some(r.name), q, room, said + Beyond(r.history, e.room.history), told)
  {
    hide RightTrim;
    assert said + [] == said;
  }

  lemma EnqueueGoesOn(t: nat, th: Thread, queue: Queue, now: Option<string>, q: Request, room: Option<string>,
                      said: seq<string>, told: seq<Answer>)
    requires IsEnqueue(th.pc) && Doing(th, now, q, room, said, told)
    ensures var th' := Enqueue(t, th, queue).thread;
            th'.name == th.name && th'.room == th.room && Doing(th', now, q, room, said, told)
  {
    hide RightTrim;
  }

  lemma DestroyGoesOn(th: Thread, queue: Queue, now: Option<string>, q: Request, room: Option<string>,
                      said: seq<string>, told: seq<Answer>)
    requires th.pc.Delete? && Doing(th, now, q, room, said, told)
    ensures var th' := Destroy(th, queue).thread;
            th'.name == th.name && th'.room == th.room && Doing(th', now, q, room, said, told)
  {
    hide RightTrim;
  }
  /** Every operation of the sender's own, in the state it finds. */
  lemma ActGoesOn(s: State, t: nat, q: Request, room: Option<string>, said: seq<string>, told: seq<Answer>)
    requires Control(s) && Enabled(s, Act(t)) && Doing(s.threads[t], RoomName(s, t), q, room, said, told)
    ensures var n := After(s, Act(t));
            && t < |n.threads| && n.threads[t].name == s.threads[t].name
            && Doing(n.threads[t], RoomName(n, t), q, room, said + SaidBy(s, Act(t), t), told)
  {
    hide Control, Doing, Find, CastEdge, Enqueue, Destroy, Take, Membership, FindEnabled, RoomEnabled, TakeEnabled,
        CastEnabled;
    var th := s.threads[t];
    ControlOf(s, t);
    NoOtherSteps(th, RoomName(s, t), q, room, said, told);
    assert said + [] == said && forall h: seq<string> :: Beyond(h, h) == [];
    if IsFind(th.pc) {
      FindGoesOn(s, t, q, room, said, told);
    } else if IsCastEdge(th.pc) {
      CastEdgeGoesOn(t, th, s.rooms[th.room.value], q, room, said, told);
    } else if IsEnqueue(th.pc) {
      TargetIsLive(s, t);
      EnqueueGoesOn(t, th, s.queues[th.pc.stage.target], RoomName(s, t), q, room, said, told);
    } else {
      DestroyGoesOn(th, s.queues[t], RoomName(s, t), q, room, said, told);
    }
  }

  lemma StepKeepsInCommand(s: State, step: Step, t: nat, name: string, q: Request, room: Option<string>,
                           said: seq<string>, told: seq<Answer>)
    requires Control(s) && Enabled(s, step) && InCommand(s, t, name, q, room, said, told)
    requires step.Receive? ==> step.t != t
    ensures InCommand(After(s, step), t, name, q, room, said + SaidBy(s, step, t), told + ToldBy(s, step, t))
  {
    hide Control, Doing, Acted, CanAct, Heard, SentBy, PickMember, RoomName;
    assert said + [] == said && told + [] == told;
    var th := s.threads[t];
    NoOtherSteps(th, RoomName(s, t), q, room, said, told);
    if step.Spawn? || step.t != t {
      OthersDoNotMove(s, step, t);
      RoomNameStays(s, step, t);
    } else if step.Act? {
      ActGoesOn(s, t, q, room, said, told);
    } else if step.Pick? {
      PickGoesOn(s, t, step.user, RoomName(s, t), q, room, said, told);
      RoomNameStays(s, step, t);
    } else if step.Send? {
      ReplyFinishes(th, RoomName(s, t), q, room, said, told, step.sent);
      RoomNameStays(s, step, t);
    }
  }
  lemma CommandStarts(s: State, t: nat, q: Request)
    requires Control(s) && Enabled(s, Receive(t, q.result, q.msg)) && s.threads[t].pc.Command?
    ensures InCommand(After(s, Receive(t, q.result, q.msg)), t, s.threads[t].name, q, RoomName(s, t), [], [])
  {
    hide Control, Doing, Heard;
    ControlOf(s, t);
    CommandBegins(s.threads[t], q, RoomName(s, t));
    if !Parts(q, RoomName(s, t)) { RoomNameStays(s, Receive(t, q.result, q.msg), t); }
  }

  /** A sender that waits for its next command has done with the last one. */
  lemma CommandIsDone(th: Thread, now: Option<string>, q: Request, room: Option<string>, said: seq<string>,
                      told: seq<Answer>)
    requires Doing(th, now, q, room, said, told) && Receives(th.pc)
    ensures th.pc.Command? && !Quits(q) && q.result != EOF_OR_ERROR && Effected(th, now, q, room, said)
    ensures |told| == 1 && told[0].sent && Answers(told[0].msg, q, room)
  {
    hide RightTrim;
  }

  // ----- a sender's whole session

  /** The room after the commands qs. */
  function RoomAfter(qs: seq<Request>, room: Option<string>): (r: Option<string>) {
    if qs == [] then room else RoomThen(qs[|qs| - 1], RoomAfter(qs[..|qs| - 1], room))
  }

  /** What the commands qs broadcast, in order. */
  function Texts(qs: seq<Request>, room: Option<string>, name: string): (texts: seq<string>) {
    if qs == [] then []
    else Texts(qs[..|qs| - 1], room, name) + Spoken(qs[|qs| - 1], RoomAfter(qs[..|qs| - 1], room), name)
  }

  /** The first k commands have been answered, and none of them ended the session. */
  predicate AnsweredUpTo(k: nat, qs: seq<Request>, room: Option<string>, told: seq<Answer>)
    requires k <= |qs| && k <= |told|
  {
    forall i | 0 <= i < k ::
      && told[i].sent && Answers(told[i].msg, qs[i], RoomAfter(qs[..i], room))
      && !Quits(qs[i]) && qs[i].result != EOF_OR_ERROR
  }

  /** Every command but the last has been carried out in full, and the last as far as InCommand says. */
  predicate InSession(s: State, t: nat, name: string, room: Option<string>, qs: seq<Request>, said: seq<string>,
                      told: seq<Answer>) {
    if qs == [] then
      && t < |s.threads| && s.threads[t].name == name && s.threads[t].pc == Command
      && RoomName(s, t) == room && said == [] && told == []
    else
      var past, last := qs[..|qs| - 1], qs[|qs| - 1];
      var before := Texts(past, room, name);
      && |past| <= |told| && AnsweredUpTo(|past|, qs, room, told) && before <= said
      && InCommand(s, t, name, last, RoomAfter(past, room), said[|before|..], told[|past|..])
  }

  lemma SessionSteps(s: State, step: Step, t: nat, name: string, room: Option<string>, qs: seq<Request>,
                     said: seq<string>, told: seq<Answer>)
    requires Control(s) && Enabled(s, step) && InSession(s, t, name, room, qs, said, told)
    requires qs != [] && (step.Receive? ==> step.t != t)
    ensures InSession(After(s, step), t, name, room, qs, said + SaidBy(s, step, t), told + ToldBy(s, step, t))
  {
    hide Control, Enabled, After, InCommand, Answers, Quits, RoomAfter, Texts, SaidBy, ToldBy;
    var past, last := qs[..|qs| - 1], qs[|qs| - 1];
    var before := Texts(past, room, name);
    StepKeepsInCommand(s, step, t, name, last, RoomAfter(past, room), said[|before|..], told[|past|..]);
    assert (said + SaidBy(s, step, t))[|before|..] == said[|before|..] + SaidBy(s, step, t);
    assert (told + ToldBy(s, step, t))[|past|..] == told[|past|..] + ToldBy(s, step, t);
  }
  /** Nothing happens to a sender that waits for its first command. */
  lemma SessionWaits(s: State, step: Step, t: nat, name: string, room: Option<string>)
    requires Control(s) && Enabled(s, step) && InSession(s, t, name, room, [], [], [])
    requires step.Receive? ==> step.t != t
    ensures InSession(After(s, step), t, name, room, [], [], [])
    ensures SaidBy(s, step, t) == [] && ToldBy(s, step, t) == []
  {
    hide Control, Acted, FindEnabled, RoomEnabled, TakeEnabled, CastEnabled, Heard, SentBy, PickMember, RoomName;
    OthersDoNotMove(s, step, t);
    RoomNameStays(s, step, t);
  }

  lemma OneMoreAnswered(k: nat, qs: seq<Request>, room: Option<string>, told: seq<Answer>)
    requires k < |qs| && k < |told| && AnsweredUpTo(k, qs, room, told)
    requires told[k].sent && Answers(told[k].msg, qs[k], RoomAfter(qs[..k], room))
    requires !Quits(qs[k]) && qs[k].result != EOF_OR_ERROR
    ensures AnsweredUpTo(k + 1, qs, room, told)
  {
    hide Answers, Quits, RoomAfter;
  }

  lemma EffectedIs(th: Thread, now: Option<string>, q: Request, room: Option<string>, said: seq<string>)
    ensures Effected(th, now, q, room, said) <==> now == RoomThen(q, room) && said == Spoken(q, room, th.name)
  {
  }

  /** Where the last command is done, all are. */
  lemma SessionIsDone(s: State, t: nat, name: string, room: Option<string>, qs: seq<Request>, said: seq<string>,
                      told: seq<Answer>)
    requires InSession(s, t, name, room, qs, said, told) && Receives(s.threads[t].pc)
    ensures t < |s.threads| && s.threads[t].name == name && s.threads[t].pc.Command?
    ensures RoomName(s, t) == RoomAfter(qs, room) && said == Texts(qs, room, name)
    ensures |told| == |qs| && AnsweredUpTo(|qs|, qs, room, told)
  {
    hide AnsweredUpTo, Answers, Quits, Effected, RoomThen, Spoken, Doing, RoomName, Receives;
    if qs == [] {
      NoneAnswered(room, told);
    } else {
      var k := |qs| - 1;
      var past, last := qs[..k], qs[k];
      var before, r := Texts(past, room, name), RoomAfter(past, room);
      CommandIsDone(s.threads[t], RoomName(s, t), last, r, said[|before|..], told[k..]);
      EffectedIs(s.threads[t], RoomName(s, t), last, r, said[|before|..]);
      assert said == before + said[|before|..];
      assert |told| == k + 1 && told[k..][0] == told[k];
      OneMoreAnswered(k, qs, room, told);
    }
  }

  lemma NoneAnswered(room: Option<string>, told: seq<Answer>)
    ensures AnsweredUpTo(0, [], room, told)
  {
  }

  lemma SessionReceives(s: State, t: nat, q: Request, name: string, room: Option<string>, qs: seq<Request>,
                        said: seq<string>, told: seq<Answer>)
    requires Control(s) && Enabled(s, Receive(t, q.result, q.msg)) && InSession(s, t, name, room, qs, said, told)
    ensures InSession(After(s, Receive(t, q.result, q.msg)), t, name, room, qs + [q], said, told)
  {
    hide Control, InCommand, Answers, Quits, Heard, RoomName, InSession;
    SessionIsDone(s, t, name, room, qs, said, told);
    CommandStarts(s, t, q);
    assert (qs + [q])[..|qs|] == qs && said[|said|..] == [] && told[|told|..] == [];
    NextInSession(After(s, Receive(t, q.result, q.msg)), t, name, room, qs, q, said, told);
  }

  lemma NextInSession(s: State, t: nat, name: string, room: Option<string>, qs: seq<Request>, q: Request,
                      said: seq<string>, told: seq<Answer>)
    requires |told| == |qs| && AnsweredUpTo(|qs|, qs, room, told) && said == Texts(qs, room, name)
    requires InCommand(s, t, name, q, RoomAfter(qs, room), [], [])
    ensures InSession(s, t, name, room, qs + [q], said, told)
  {
    hide InCommand, Answers, Quits, RoomAfter, Texts;
    assert (qs + [q])[..|qs|] == qs && said[|said|..] == [] && told[|told|..] == [];
    assert forall i | 0 <= i < |qs| :: (qs + [q])[i] == qs[i] && (qs + [q])[..i] == qs[..i];
  }

  lemma StepKeepsSession(s: State, step: Step, t: nat, name: string, room: Option<string>, qs: seq<Request>,
                         said: seq<string>, told: seq<Answer>)
    requires Control(s) && Enabled(s, step) && InSession(s, t, name, room, qs, said, told)
    ensures InSession(After(s, step), t, name, room, qs + RequestBy(step, t), said + SaidBy(s, step, t),
                      told + ToldBy(s, step, t))
  {
    hide Control, Enabled, After, InSession;
    assert qs + [] == qs && said + [] == said && told + [] == told;
    if step.Receive? && step.t == t {
      SessionReceives(s, t, Request(step.result, step.msg), name, room, qs, said, told);
    } else if qs == [] {
      FirstIsNext(s, t, name, room, said, told);
      SessionWaits(s, step, t, name, room);
    } else {
      SessionSteps(s, step, t, name, room, qs, said, told);
    }
  }

  lemma FirstIsNext(s: State, t: nat, name: string, room: Option<string>, said: seq<string>, told: seq<Answer>)
    requires InSession(s, t, name, room, [], said, told)
    ensures said == [] && told == []
  {
  }

  lemma {:induction false} RunKeepsSession(s: State, steps: seq<Step>, t: nat, name: string, room: Option<string>,
                                           qs: seq<Request>, said: seq<string>, told: seq<Answer>)
    requires Control(s) && Runs(s, steps) && InSession(s, t, name, room, qs, said, told)
    ensures InSession(Final(s, steps), t, name, room, qs + Requests(steps, t), said + Said(s, steps, t),
                      told + Told(s, steps, t))
    decreases |steps|
  {
    hide Control, Enabled, After, InSession, RequestBy, SaidBy, ToldBy;
    assert qs + [] == qs && said + [] == said && told + [] == told;
    if steps != [] {
      var n, rest := After(s, steps[0]), steps[1..];
      var q, x, a := RequestBy(steps[0], t), SaidBy(s, steps[0], t), ToldBy(s, steps[0], t);
      StepKeepsControl(s, steps[0]);
      StepKeepsSession(s, steps[0], t, name, room, qs, said, told);
      RunKeepsSession(n, rest, t, name, room, qs + q, said + x, told + a);
      assert qs + q + Requests(rest, t) == qs + (q + Requests(rest, t));
      assert said + x + Said(n, rest, t) == said + (x + Said(n, rest, t));
      assert told + a + Told(n, rest, t) == told + (a + Told(n, rest, t));
    }
  }

  lemma SessionOpens(s: State, t: nat)
    requires t < |s.threads| && s.threads[t].pc.Command?
    ensures InSession(s, t, s.threads[t].name, RoomName(s, t), [], [], [])
  {
  }

  /**
   From any point where a sender waits for a command, over any run of the server: the commands it gives have,
   one after the other, exactly the effects that each has by itself, and each is answered once.
   */
  lemma SenderSession(s: State, steps: seq<Step>, t: nat)
    requires Reachable(s) && Runs(s, steps) && t < |s.threads| && s.threads[t].pc.Command?
    ensures InSession(Final(s, steps), t, s.threads[t].name, RoomName(s, t), Requests(steps, t), Said(s, steps, t),
                      Told(s, steps, t))
  {
    hide Reachable, Runs, Final, Control, Safe, RoomName, Said, Told, Requests, InSession;
    ReachableIsSafe(s);
    SafeParts(s);
    SessionOpens(s, t);
    RunKeepsSession(s, steps, t, s.threads[t].name, RoomName(s, t), [], [], []);
    assert [] + Requests(steps, t) == Requests(steps, t) && [] + Said(s, steps, t) == Said(s, steps, t);
    assert [] + Told(s, steps, t) == Told(s, steps, t);
  }
  // ----- what follows for a client

  /** A sendall with a newline adds one text to the room: what is left when the end of its data is trimmed. */
  lemma SendallBroadcasts(s: State, steps: seq<Step>, t: nat, data: string, text: string)
    requires Reachable(s) && t < |s.threads| && s.threads[t].pc.Command? && RoomName(s, t).Some?
    requires Runs(s, steps) && Requests(steps, t) == [Request(SUCCESS, Message("sendall", data))]
    requires '\n' in data && text <= data && (forall i | |text| <= i < |data| :: IsTrimmed(data[i]))
    requires text == [] || !IsTrimmed(text[|text| - 1])
    ensures |Said(s, steps, t)| <= 1 && |Told(s, steps, t)| <= 1
    ensures Said(s, steps, t) != [] ==>
              Said(s, steps, t) == [RoomName(s, t).value + ":" + s.threads[t].name + ":" + text]
    ensures Told(s, steps, t) != [] ==> Said(s, steps, t) != [] && Told(s, steps, t)[0].msg == Message("ok", "")
  {
    hide Reachable, Runs, Final, Said, Told, RoomName, RightTrim, Requests;
    SenderSession(s, steps, t);
    RightTrimExact(data, text);
    var q, room := Request(SUCCESS, Message("sendall", data)), RoomName(s, t);
    assert Requests(steps, t)[..0] == [] && Texts([], room, s.threads[t].name) == [];
    assert Said(s, steps, t)[0..] == Said(s, steps, t) && Told(s, steps, t)[0..] == Told(s, steps, t);
  }

  /** After a quit, or the end of the stream, nothing more is received; with its reply sent the thread leaves. */
  lemma QuitIsLast(s: State, steps: seq<Step>, t: nat, i: nat)
    requires Reachable(s) && Runs(s, steps) && t < |s.threads| && s.threads[t].pc.Command?
    requires i < |Requests(steps, t)|
    requires Quits(Requests(steps, t)[i]) || Requests(steps, t)[i].result == EOF_OR_ERROR
    ensures i == |Requests(steps, t)| - 1 && t < |Final(s, steps).threads|
    ensures |Told(s, steps, t)| > i || Requests(steps, t)[i].result == EOF_OR_ERROR ==>
              Gone(Final(s, steps).threads[t].pc)
  {
    hide Reachable, Runs, Final, Said, Told, RoomName, RightTrim, Requests, Answers, Effected, Acting;
    SenderSession(s, steps, t);
  }

  lemma {:induction false} NoJoinNoRoom(qs: seq<Request>, name: string)
    requires forall i | 0 <= i < |qs| :: !Joins(qs[i])
    ensures RoomAfter(qs, None) == None && Texts(qs, None, name) == []
  {
    hide Joins;
    if qs != [] { NoJoinNoRoom(qs[..|qs| - 1], name); }
  }

  /** Without a room, for instance after a leave, a sender has none and broadcasts nothing until it joins again. */
  lemma NoRoomUntilJoin(s: State, steps: seq<Step>, t: nat)
    requires Reachable(s) && Runs(s, steps) && t < |s.threads| && s.threads[t].pc.Command? && RoomName(s, t) == None
    requires forall i | 0 <= i < |Requests(steps, t)| :: !Joins(Requests(steps, t)[i])
    ensures t < |Final(s, steps).threads| && RoomName(Final(s, steps), t) == None && Said(s, steps, t) == []
  {
    hide Reachable, Runs, Final, Said, Told, RoomName, RightTrim, Requests, Answers, Joins;
    SenderSession(s, steps, t);
    var qs := Requests(steps, t);
    if qs != [] { NoJoinNoRoom(qs[..|qs| - 1], s.threads[t].name); }
  }
}
