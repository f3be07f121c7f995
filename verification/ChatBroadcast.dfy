/** What a broadcast writes: into the room's history, in every interleaving, and into the queues, undisturbed. */
module ChatBroadcast {
  import opened Framing
  import opened ChatModel
  import opened ChatControl
  import opened ChatDelivery
  import opened ChatLogin
  import opened ChatObjects
  import opened ChatProgress
  import opened ChatSafety

  // ----- into the history, whatever the others do

  lemma EffectOnHistory(t: nat, th: Thread, room: Room)
    ensures IsMembership(th.pc) ==> Membership(t, th, room).room.history == room.history
    ensures IsCastEdge(th.pc) ==>
              CastEdge(t, th, room).room.history
              == room.history + if th.pc.CastLock? then [room.name + ":" + th.name + ":" + th.pc.text] else []
    ensures th.pc.CastLock? ==> CastEdge(t, th, room).ok
  {
    assert room.history + [] == room.history;
  }

  /** What the step writes into the history of room r. */
  function Written(s: State, step: Step, r: nat): (texts: seq<string>)
    requires r < |s.rooms|
  {
    if step.Act? && step.t < |s.threads| && s.threads[step.t].pc.CastLock? && s.threads[step.t].room == Some(r)
    then [s.rooms[r].name + ":" + s.threads[step.t].name + ":" + s.threads[step.t].pc.text] else []
  }

  /** A history grows by one text, when a thread of the room begins a broadcast, and never otherwise. */
  lemma HistoryStep(s: State, step: Step, r: nat)
    requires Reachable(s) && Enabled(s, step) && r < |s.rooms|
    ensures r < |After(s, step).rooms|
    ensures After(s, step).rooms[r].history == s.rooms[r].history + Written(s, step, r)
  {
    hide Reachable, Safe, Control, Acted, CanAct, Heard, SentBy;
    ReachableIsSafe(s);
    SafeParts(s);
    var h := s.rooms[r].history;
    assert h + [] == h;
    if step.Act? {
      ControlOf(s, step.t);
      ActOnHistory(s, step.t, r);
    }
  }

  lemma ActOnHistory(s: State, t: nat, r: nat)
    requires t < |s.threads| == |s.queues| && CanAct(s, t) && r < |s.rooms|
    requires s.threads[t].pc.CastLock? ==> HasRoom(s, t)
    ensures r < |Acted(s, t).rooms| && Acted(s, t).rooms[r].history == s.rooms[r].history + Written(s, Act(t), r)
  {
    hide Membership, Take, CastEdge, Enqueue, Destroy, FindEnabled, RoomEnabled, TakeEnabled, CastEnabled;
    var th, h := s.threads[t], s.rooms[r].history;
    assert h + [] == h;
    if HasRoom(s, t) { EffectOnHistory(t, th, s.rooms[th.room.value]); }
  }

  /**
   In every run, what a room's history gains was written by a thread that logged in as a sender, under the
   name it logged in with; and when the room's name has no colon, a client's two cuts give room, sender and text.
   */
  lemma BroadcastIsSigned(steps: seq<Step>, step: Step, r: nat)
    requires Runs(Start(), steps) && Enabled(Final(Start(), steps), step) && r < |Final(Start(), steps).rooms|
    requires var s := Final(Start(), steps); After(s, step).rooms[r].history != s.rooms[r].history
    ensures step.Act? && FirstHeard(steps, step.t).Some?
    ensures var s, login := Final(Start(), steps), FirstHeard(steps, step.t).value;
      && s.threads[step.t].pc.CastLock? && s.threads[step.t].room == Some(r)
      && ValidLogin(login.data) && login.tag == "slogin"
      && var h, h' := s.rooms[r].history, After(s, step).rooms[r].history;
      && |h'| == |h| + 1 && h == h'[..|h|]
      && (':' !in s.rooms[r].name ==>
            var cut := Split(h'[|h|]);
            && cut.tag == s.rooms[r].name
            && Split(cut.data) == Message(RightTrim(login.data), s.threads[step.t].pc.text))
  {
    hide Runs, Final, After, Enabled, ValidLogin, RightTrim, FirstHeard, Split;
    var s := Final(Start(), steps);
    HistoryStep(s, step, r);
    var t := step.t;
    RolesComeFromLogin(steps, t);
    var name, text := s.threads[t].name, s.threads[t].pc.text;
    DeliveryNamesRoomIff(s.rooms[r].name, name, text);
    AcceptedNameIsPlain(FirstHeard(steps, t).value.data);
    SplitJoin(name, text);
  }
  // ----- into the queues, when nobody is in the way

  /** The thread is about to broadcast, and the locks that it needs are free. */
  predicate Ready(s: State, t: nat) {
    && HasRoom(s, t) && s.threads[t].pc.CastLock? && s.rooms[s.threads[t].room.value].lock == None
    && |s.queues| == |s.threads| && forall u | u in MembersOf(s, t) :: u < |s.queues| && s.queues[u].lock == None
  }

  function MembersOf(s: State, t: nat): (us: set<nat>)
    requires HasRoom(s, t)
  {
    s.rooms[s.threads[t].room.value].members
  }

  function EntryOf(s: State, t: nat): (text: string)
    requires HasRoom(s, t) && s.threads[t].pc.CastLock?
  {
    s.rooms[s.threads[t].room.value].name + ":" + s.threads[t].name + ":" + s.threads[t].pc.text
  }

  /** Queue q' is q with one more message, of that text. */
  predicate Served(q: Queue, q': Queue, text: string) {
    q'.messages != [] && var m := q'.messages[|q'.messages| - 1]; m.data == text && q' == Enqueued(q, m)
  }

  /** n differs from s in thread t, in the history and lock of its room, and in queues. */
  predicate Elsewhere(s: State, n: State, t: nat, lock: Option<nat>)
    requires HasRoom(s, t) && s.threads[t].pc.CastLock?
  {
    var r := s.threads[t].room.value;
    && n.serverLock == s.serverLock && n.roomOf == s.roomOf && |n.queues| == |s.queues|
    && n.rooms == s.rooms[r := s.rooms[r].(lock := lock, history := s.rooms[r].history + [EntryOf(s, t)])]
    && |n.threads| == |s.threads| && n.threads == s.threads[t := n.threads[t]]
  }

  /** The queue of the member being served; m is its message. */
  function PartWay(q: Queue, m: Msg, t: nat, stage: Stage): (q': Queue) {
    match stage
    case Push(_) => q.(lock := Some(t))
    case Post(_) => q.(lock := Some(t), messages := q.messages + [m])
    case Unlock(_) => q.(lock := Some(t), messages := q.messages + [m], avail := q.avail + 1)
    case _ => q
  }

  /** Some members have been served, one may be on its way, and the queues of all others are as they were. */
  predicate Midway(s: State, n: State, t: nat, m: Msg)
    requires Ready(s, t)
  {
    && Elsewhere(s, n, t, Some(t)) && m.data == EntryOf(s, t)
    && n.threads[t].pc.Cast?
    && var pc := n.threads[t].pc;
    && pc.data == EntryOf(s, t) && pc.todo <= MembersOf(s, t)
    && n.threads[t] == s.threads[t].(pc := pc, hand := if pc.stage.Lock? || pc.stage.Push? then [m] else [])
    && (!pc.stage.Idle? ==> pc.stage.target in MembersOf(s, t) && pc.stage.target !in pc.todo)
    && forall u | 0 <= u < |s.queues| ::
         if !pc.stage.Idle? && u == pc.stage.target then n.queues[u] == PartWay(s.queues[u], m, t, pc.stage)
         else if u in MembersOf(s, t) && u !in pc.todo then Served(s.queues[u], n.queues[u], EntryOf(s, t))
         else n.queues[u] == s.queues[u]
  }

  /** Every member has one message more, everyone else none, and nothing else has changed but the history. */
  predicate Broadcasted(s: State, n: State, t: nat)
    requires Ready(s, t)
  {
    && Elsewhere(s, n, t, None) && n.threads[t] == s.threads[t].(pc := Ok(Loop))
    && forall u | 0 <= u < |s.queues| ::
         if u in MembersOf(s, t) then Served(s.queues[u], n.queues[u], EntryOf(s, t)) else n.queues[u] == s.queues[u]
  }

  lemma BroadcastBegins(s: State, t: nat)
    requires Ready(s, t) && s.threads[t].hand == []
    ensures CanAct(s, t) && Midway(s, Acted(s, t), t, Msg(0, EntryOf(s, t)))
  {
  }

  lemma PickMidway(s: State, n: State, t: nat, m: Msg, u: nat)
    requires Ready(s, t) && Midway(s, n, t, m) && n.threads[t].pc.stage.Idle? && u in n.threads[t].pc.todo
    ensures Enabled(n, Pick(t, u)) && Midway(s, After(n, Pick(t, u)), t, Msg(|n.places|, EntryOf(s, t)))
  {
  }

  /** The member's queue as one operation of the enqueue leaves it. */
  lemma EnqueueAdvances(t: nat, th: Thread, q: Queue, m: Msg)
    requires IsEnqueue(th.pc) && q.lock == None
    requires th.hand == if th.pc.stage.Lock? || th.pc.stage.Push? then [m] else []
    ensures var e := Enqueue(t, th, PartWay(q, m, t, th.pc.stage));
      && e.ok && e.thread.pc.Cast?
      && e.thread == th.(pc := th.pc.(stage := e.thread.pc.stage), hand := if e.thread.pc.stage.Push? then [m] else [])
      && !e.thread.pc.stage.Lock?
      && if e.thread.pc.stage.Idle? then Served(q, e.queue, m.data)
         else e.thread.pc.stage.target == th.pc.stage.target && e.queue == PartWay(q, m, t, e.thread.pc.stage)
  {
  }

  lemma EnqueueMidway(s: State, n: State, t: nat, m: Msg)
    requires Ready(s, t) && Midway(s, n, t, m) && !n.threads[t].pc.stage.Idle?
    requires Live(n, n.threads[t].pc.stage.target)
    ensures CanAct(n, t) && (!Acted(n, t).fault ==> Midway(s, Acted(n, t), t, m))
  {
    hide Enqueue, Served;
    var u := n.threads[t].pc.stage.target;
    EnqueueAdvances(t, n.threads[t], s.queues[u], m);
  }

  lemma BroadcastEnds(s: State, n: State, t: nat, m: Msg)
    requires Ready(s, t) && Midway(s, n, t, m) && n.threads[t].pc.stage.Idle? && n.threads[t].pc.todo == {}
    requires s.threads[t].hand == []
    ensures CanAct(n, t) && Broadcasted(s, Acted(n, t), t)
  {
  }
  /** Only thread t moves, within its broadcast. */
  predicate OwnSteps(steps: seq<Step>, t: nat) {
    forall step | step in steps :: (step.Pick? || step.Act?) && step.t == t
  }

  ghost predicate Begun(s: State, n: State, t: nat)
    requires Ready(s, t)
  {
    (exists m :: Midway(s, n, t, m)) || Broadcasted(s, n, t)
  }

  lemma EmptyHand(s: State, t: nat)
    requires Safe(s) && t < |s.threads| && IsCastEdge(s.threads[t].pc)
    ensures s.threads[t].hand == []
  {
    hide Control;
    SafeParts(s);
    ControlOf(s, t);
  }

  lemma MidwayGoesOn(s: State, n: State, t: nat, m: Msg, step: Step)
    requires Ready(s, t) && Safe(s) && Safe(n) && Midway(s, n, t, m)
    requires Enabled(n, step) && (step.Pick? || step.Act?) && step.t == t
    ensures Begun(s, After(n, step), t)
  {
    hide Safe, Ready, Midway, Broadcasted, CanAct, Acted, Control;
    CastsMidway(s, n, t, m);
    if step.Pick? {
      PickMidway(s, n, t, m, step.user);
    } else if n.threads[t].pc.stage.Idle? {
      EmptyHand(s, t);
      NonePicked(n, t);
      BroadcastEnds(s, n, t, m);
    } else {
      SafeParts(n);
      TargetIsLive(n, t);
      EnqueueMidway(s, n, t, m);
      StepKeepsSafe(n, step);
      SafeParts(After(n, step));
    }
  }

  lemma CastsMidway(s: State, n: State, t: nat, m: Msg)
    requires Ready(s, t) && Midway(s, n, t, m)
    ensures t < |s.threads| && IsCastEdge(s.threads[t].pc) && t < |n.threads| && n.threads[t].pc.Cast?
  {
  }

  lemma NonePicked(n: State, t: nat)
    requires t < |n.threads| == |n.queues| && CanAct(n, t) && n.threads[t].pc.Cast? && n.threads[t].pc.stage.Idle?
    ensures n.threads[t].pc.todo == {}
  {
  }

  lemma BroadcastGoesOn(s: State, n: State, t: nat, step: Step)
    requires Ready(s, t) && Safe(s) && Safe(n) && (n == s || Begun(s, n, t))
    requires Enabled(n, step) && (step.Pick? || step.Act?) && step.t == t
    ensures Begun(s, After(n, step), t)
  {
    hide Safe, Midway;
    if n == s {
      EmptyHand(s, t);
      BroadcastBegins(s, t);
    } else if m: Msg :| Midway(s, n, t, m) {
      MidwayGoesOn(s, n, t, m, step);
    }
  }

  lemma {:induction false} RunInBroadcast(s: State, n: State, t: nat, steps: seq<Step>)
    requires Ready(s, t) && Safe(s) && Safe(n) && Runs(n, steps) && OwnSteps(steps, t)
    requires n == s || Begun(s, n, t)
    ensures Final(n, steps) == s || Begun(s, Final(n, steps), t)
    decreases |steps|
  {
    hide Safe, Begun, Ready, Enabled, After;
    if steps != [] {
      assert steps[0] in steps && forall step | step in steps[1..] :: step in steps;
      BroadcastGoesOn(s, n, t, steps[0]);
      StepKeepsSafe(n, steps[0]);
      RunInBroadcast(s, After(n, steps[0]), t, steps[1..]);
    }
  }

  /** However an undisturbed broadcast picks the members, when it comes to its reply it has served each of them once. */
  lemma BroadcastUndisturbed(s: State, t: nat, steps: seq<Step>)
    requires Reachable(s) && Ready(s, t) && Runs(s, steps) && OwnSteps(steps, t)
    requires t < |Final(s, steps).threads| && !IsCast(Final(s, steps).threads[t].pc)
    ensures Broadcasted(s, Final(s, steps), t)
  {
    hide Safe, Reachable, Runs, Final, OwnSteps, Broadcasted;
    ReachableIsSafe(s);
    RunInBroadcast(s, s, t, steps);
  }
  /** A step of the broadcast that can be taken. */
  lemma NextOfBroadcast(s: State, n: State, t: nat, m: Msg) returns (step: Step)
    requires Ready(s, t) && Safe(s) && Safe(n) && Midway(s, n, t, m)
    ensures Enabled(n, step) && (step.Pick? || step.Act?) && step.t == t
    ensures t < |n.threads| == |After(n, step).threads|
    ensures Rank(After(n, step).threads[t].pc) < Rank(n.threads[t].pc)
  {
    hide Safe, Ready, Midway, Acted, Control, Live, Rank;
    CastsMidway(s, n, t, m);
    SafeParts(n);
    if n.threads[t].pc.stage.Idle? && n.threads[t].pc.todo != {} {
      var u :| u in n.threads[t].pc.todo;
      step := Pick(t, u);
      ControlOf(n, t);
      PickMoves(n, t, u);
    } else {
      step := Act(t);
      ActIsNext(s, n, t, m);
      StepKeepsSafe(n, step);
      SafeParts(After(n, step));
      RankOfHolders(t, n.threads[t].pc);
      ActMoves(n, t);
    }
  }

  lemma ActIsNext(s: State, n: State, t: nat, m: Msg)
    requires Ready(s, t) && Safe(s) && Safe(n) && Midway(s, n, t, m)
    requires t < |n.threads| && n.threads[t].pc.Cast? && (n.threads[t].pc.stage.Idle? ==> n.threads[t].pc.todo == {})
    ensures |n.queues| == |n.threads| && CanAct(n, t)
  {
    hide Safe, Ready, Midway, Acted, Control, Live;
    CastsMidway(s, n, t, m);
    SafeParts(n);
    ControlOf(n, t);
    if n.threads[t].pc.stage.Idle? {
      EmptyHand(s, t);
      BroadcastEnds(s, n, t, m);
    } else {
      TargetIsLive(n, t);
      EnqueueMidway(s, n, t, m);
    }
  }

  lemma {:induction false} FinishBroadcast(s: State, n: State, t: nat) returns (steps: seq<Step>)
    requires Ready(s, t) && Safe(s) && Safe(n) && Begun(s, n, t)
    ensures Runs(n, steps) && OwnSteps(steps, t) && Broadcasted(s, Final(n, steps), t)
    decreases if t < |n.threads| then Rank(n.threads[t].pc) else 0
  {
    hide Safe, Ready, Midway, Broadcasted, Enabled, After, Rank;
    if m: Msg :| Midway(s, n, t, m) {
      CastsMidway(s, n, t, m);
      var step := NextOfBroadcast(s, n, t, m);
      MidwayGoesOn(s, n, t, m, step);
      StepKeepsSafe(n, step);
      var rest := FinishBroadcast(s, After(n, step), t);
      StepThenRun(n, step, rest);
      steps := [step] + rest;
    } else {
      steps := [];
    }
  }
  /** And it always can come to its reply, without anybody's help. */
  lemma BroadcastCanFinish(s: State, t: nat)
    requires Reachable(s) && Ready(s, t)
    ensures exists steps :: Runs(s, steps) && OwnSteps(steps, t) && Broadcasted(s, Final(s, steps), t)
  {
    hide Safe, Reachable, Broadcasted, Enabled, Midway, Begun, After, Ready;
    ReachableIsSafe(s);
    BroadcastOpens(s, t);
    var step := Act(t);
    BroadcastGoesOn(s, s, t, step);
    StepKeepsSafe(s, step);
    var rest := FinishBroadcast(s, After(s, step), t);
    StepThenRun(s, step, rest);
    assert OwnSteps([step] + rest, t);
  }

  lemma BroadcastOpens(s: State, t: nat)
    requires Ready(s, t) && Safe(s)
    ensures Enabled(s, Act(t))
  {
    hide Control;
    EmptyHand(s, t);
    BroadcastBegins(s, t);
  }
}
