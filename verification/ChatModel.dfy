/**
 The chat server as a transition system: any number of worker threads, one atomic step per lock,
 unlock, push, post, wait, pop, send or receive, in any order.

 Worker t allocates one User, so the user's queue is queues[t].  Rooms and messages are named by
 their order of creation.  What C++ leaves undefined sets the flag fault: touching a destroyed user,
 popping an empty deque, dereferencing a null room, changing a room's members, the map of rooms or a
 deque without its lock, unlocking a lock one does not hold, destroying a locked queue, and freeing
 or moving a message that is already freed.
 */
module ChatModel {
  import opened Framing

  datatype Option<T> = None | Some(value: T)

  /** A heap-allocated Message of broadcast_message. */
  datatype Msg = Msg(id: nat, data: string)

  /** What a thread does after a reply: throw, or go on. */
  datatype Next = Throw | CheckLogin(login: Message) | Dispatch(tag: string) | Loop

  /** How far the enqueue of one broadcast message has come. */
  datatype Stage = Idle | Lock(target: nat) | Push(target: nat) | Post(target: nat) | Unlock(target: nat)

  /** The next operation of a worker. */
  datatype Pc =
    | Login
    | Reply(msg: Message, next: Next)
    | Command
    | JoinRequest
    | FindLock(name: string, receiver: bool) | FindLookup(name: string, receiver: bool)
    | FindUnlock(name: string, receiver: bool, found: nat)
    | AddLock | AddInsert | AddUnlock | AddReply
    | Wait | TakeLock | TakePop | TakeUnlock | Deliver | Free | Check
    | RemoveLock | RemoveErase | RemoveUnlock
    | CastLock(text: string) | Cast(data: string, todo: set<nat>, stage: Stage)
    | Delete | Done

  /**
   room is current_room of a sender or room of a receiver; hand is the message a thread has
   allocated or dequeued.  joined and left are positions in the room's history, delivered and lost
   the messages whose send succeeded and failed, dropped those that were still queued when the user
   was destroyed: these five record the run and steer nothing.
   */
  datatype Thread = Thread(pc: Pc, name: string, room: Option<nat>, connected: bool, hand: seq<Msg>,
                           joined: nat, left: nat, delivered: seq<string>, lost: seq<string>, dropped: seq<string>)

  /** history records the texts broadcast so far. */
  datatype Room = Room(name: string, lock: Option<nat>, members: set<nat>, history: seq<string>)

  /** popped records how many messages have left the deque. */
  datatype Queue = Queue(messages: seq<Msg>, avail: nat, lock: Option<nat>, popped: nat)

  datatype Place = InHand(thread: nat) | InQueue(user: nat, position: nat) | Freed

  /** places records where each message is. */
  datatype State = State(serverLock: Option<nat>, roomOf: map<string, nat>, rooms: seq<Room>,
                         threads: seq<Thread>, queues: seq<Queue>, places: seq<Place>, fault: bool)

  datatype Step =
    | Spawn
    | Receive(t: nat, result: Result, msg: Message)
    | Send(t: nat, sent: bool)
    | Timeout(t: nat)
    | Pick(t: nat, user: nat)
    | Act(t: nat)

  // ----- the decisions of server.cpp

  const LOWER := "abcdefghijklmnopqrstuvwxyz"
  const UPPER := "ABCDEFGHIJKLMNOPQRSTUVWXYZ"
  const ALPHABET := LOWER + UPPER + "1234567890"

  predicate IsTrimmed(c: char): (b: bool)
    ensures b <==> 9 <= c as int <= 13
  {
    c in "\n\r\t\U{000C}\U{000B}"
  }

  function RightTrim(s: string): (r: string)
    ensures r <= s
  {
    if s != [] && IsTrimmed(s[|s| - 1]) then RightTrim(s[..|s| - 1]) else s
  }

  /** The only prefix that ends in no trimmed character and leaves out nothing else. */
  lemma {:induction false} RightTrimExact(s: string, r: string)
    ensures r == RightTrim(s) <==>
      && r <= s && (r == [] || !IsTrimmed(r[|r| - 1]))
      && forall i | |r| <= i < |s| :: IsTrimmed(s[i])
  {
    if s != [] && IsTrimmed(s[|s| - 1]) {
      var init := s[..|s| - 1];
      RightTrimExact(init, r);
      assert r <= s && r != [] && !IsTrimmed(r[|r| - 1]) ==> r <= init;
      assert forall i | 0 <= i < |init| :: init[i] == s[i];
    } else {
      assert r <= s && |r| == |s| ==> r == s;
    }
  }

  function Err(text: string, next: Next): (pc: Pc) {
    Reply(Message("err", text), next)
  }

  function Ok(next: Next): (pc: Pc) {
    Reply(Message("ok", ""), next)
  }

  /** worker: what follows the receive of the login message. */
  function AfterLogin(result: Result, msg: Message): (pc: Pc)
    ensures result == EOF_OR_ERROR <==> pc == Delete
    ensures pc.Delete? || (pc.Reply? && !pc.next.Loop?)
  {
    if result == EOF_OR_ERROR then Delete
    else if result == INVALID_MSG then Err("wrong format", CheckLogin(msg))
    else LoginCheck(msg)
  }

  predicate ValidLogin(data: string) {
    '\n' in data && |data| > 1 && forall c | c in RightTrim(data) :: c in ALPHABET
  }

  function LoginCheck(msg: Message): (pc: Pc)
    ensures pc.Reply? && (pc.next.Dispatch? || pc.next.Throw?)
    ensures pc.next.Dispatch? <==> ValidLogin(msg.data)
  {
    if '\n' !in msg.data then Err("wrong format", Throw)
    else if |msg.data| <= 1 || !(forall c | c in RightTrim(msg.data) :: c in ALPHABET) then Err("wrong tag", Throw)
    else Ok(Dispatch(msg.tag))
  }

  function Role(tag: string): (pc: Pc)
    ensures pc.Command? || pc.JoinRequest? || (pc.Reply? && pc.next.Throw?)
  {
    if tag == "slogin" then Command
    else if tag == "rlogin" then JoinRequest
    else Err("wrong tag", Throw)
  }

  /** A join whose room name ends in a newline. */
  predicate IsJoin(msg: Message) {
    msg.tag == "join" && '\n' in msg.data
  }

  /** chat_with_receiver: what follows the receive of the join message. */
  function AfterJoinRequest(result: Result, msg: Message): (pc: Pc)
    ensures pc.FindLock? || (pc.Reply? && pc.next.Throw?)
    ensures pc.FindLock? <==> result == SUCCESS && IsJoin(msg)
    ensures pc.FindLock? ==> pc.receiver && pc.name == RightTrim(msg.data)
  {
    if result != SUCCESS then Err("something went wrong", Throw)
    else if msg.tag != "join" || '\n' !in msg.data then Err("wrong format", Throw)
    else FindLock(RightTrim(msg.data), true)
  }

  function Leaves(result: Result, msg: Message): (leaves: bool) {
    result == SUCCESS && msg.tag == "leave"
  }

  /** chat_with_sender: what follows the receive of a command, given whether a room is joined. */
  function AfterCommand(result: Result, msg: Message, inRoom: bool): (pc: Pc)
    ensures pc.Delete? || pc.FindLock? || pc.CastLock? || (pc.Reply? && (pc.next.Throw? || pc.next.Loop?))
    ensures pc.Delete? <==> result == EOF_OR_ERROR
    ensures pc.FindLock? <==> result.SUCCESS? && IsJoin(msg)
    ensures pc.FindLock? ==> !pc.receiver && pc.name == RightTrim(msg.data)
    ensures pc.CastLock? <==> result.SUCCESS? && msg.tag == "sendall" && '\n' in msg.data && inRoom
    ensures pc.CastLock? ==> pc.text == RightTrim(msg.data)
  {
    if result == EOF_OR_ERROR then Delete
    else if result == INVALID_MSG then Err("wrong message", Loop)
    else if msg.tag == "join" then
      if '\n' in msg.data then FindLock(RightTrim(msg.data), false) else Err("wrong room format", Loop)
    else if msg.tag == "leave" then
      if inRoom then Ok(Loop) else Err("wrong", Loop)
    else if msg.tag == "sendall" then
      if !inRoom then Err("don't join a room", Loop)
      else if '\n' !in msg.data then Err("wrong formate", Loop)
      else CastLock(RightTrim(msg.data))
    else if msg.tag == "quit" then Ok(Throw)
    else Err("wrong tag pops up", Loop)
  }

  // ----- steps of one thread alone

  predicate Receives(pc: Pc) {
    pc.Login? || pc.Command? || pc.JoinRequest?
  }

  function Heard(th: Thread, result: Result, msg: Message): (r: Thread)
    requires Receives(th.pc)
  {
    match th.pc
    case Login => th.(pc := AfterLogin(result, msg), connected := result != EOF_OR_ERROR,
                      name := if ValidLogin(msg.data) then RightTrim(msg.data) else th.name)
    case JoinRequest => th.(pc := AfterJoinRequest(result, msg), connected := result != EOF_OR_ERROR)
    case Command => th.(pc := AfterCommand(result, msg, th.room.Some?), connected := result != EOF_OR_ERROR,
                        room := if Leaves(result, msg) then None else th.room)
  }

  predicate Sends(pc: Pc) {
    pc.Reply? || pc.AddReply? || pc.Deliver?
  }

  function Replied(pc: Pc, sent: bool): (r: Pc)
    requires pc.Reply?
    ensures r.Delete? || r.Command? || r.JoinRequest? || (r.Reply? && !r.next.Loop?)
  {
    if !sent then Delete
    else
      match pc.next
      case Throw => Delete
      case CheckLogin(msg) => LoginCheck(msg)
      case Dispatch(tag) => Role(tag)
      case Loop => Command
  }

  function SentBy(th: Thread, sent: bool): (r: Thread)
    requires Sends(th.pc)
  {
    match th.pc
    case Reply(_, _) => th.(pc := Replied(th.pc, sent), connected := sent)
    case AddReply => th.(pc := if sent then Wait else RemoveLock, connected := sent)
    case Deliver =>
      if th.hand == [] then th.(pc := Free, connected := sent)
      else if sent then th.(pc := Free, connected := true, delivered := th.delivered + [th.hand[0].data])
      else th.(pc := Free, connected := false, lost := th.lost + [th.hand[0].data])
  }

  // ----- updates

  function WithThread(s: State, t: nat, th: Thread): (n: State)
    requires t < |s.threads|
  {
    s.(threads := s.threads[t := th])
  }

  function Faulty(s: State): (n: State) {
    s.(fault := true)
  }

  predicate HasRoom(s: State, t: nat) {
    t < |s.threads| && s.threads[t].room.Some? && s.threads[t].room.value < |s.rooms|
  }

  /** Whether user u still exists; a worker deletes its user last. */
  predicate Live(s: State, u: nat) {
    u < |s.threads| && u < |s.queues| && !s.threads[u].pc.Done?
  }

  /** What an operation makes of its thread and of the room it works on, and whether it is defined. */
  datatype RoomEffect = RoomEffect(thread: Thread, room: Room, ok: bool)

  function WithRoomEffect(s: State, t: nat, r: nat, e: RoomEffect): (n: State)
    requires t < |s.threads| && r < |s.rooms|
  {
    if e.ok then s.(threads := s.threads[t := e.thread], rooms := s.rooms[r := e.room]) else Faulty(s)
  }

  /** A message goes to another place. */
  datatype Move = Move(id: nat, place: Place)

  datatype QueueEffect = QueueEffect(thread: Thread, queue: Queue, move: Option<Move>, ok: bool)

  /** A freed message cannot move. */
  predicate CanMove(s: State, move: Option<Move>) {
    move.Some? ==> move.value.id < |s.places| && s.places[move.value.id] != Freed
  }

  function WithQueueEffect(s: State, t: nat, u: nat, e: QueueEffect): (n: State)
    requires t < |s.threads| && u < |s.queues|
  {
    if e.ok && CanMove(s, e.move) then
      s.(threads := s.threads[t := e.thread], queues := s.queues[u := e.queue],
         places := if e.move.Some? then s.places[e.move.value.id := e.move.value.place] else s.places)
    else Faulty(s)
  }

  // ----- find_or_create_room

  predicate FindEnabled(s: State, t: nat)
    requires t < |s.threads|
  {
    s.threads[t].pc.FindLock? ==> s.serverLock == None
  }

  predicate IsFind(pc: Pc) {
    pc.FindLock? || pc.FindLookup? || pc.FindUnlock?
  }

  function Find(s: State, t: nat): (n: State)
    requires t < |s.threads| && IsFind(s.threads[t].pc)
  {
    var th := s.threads[t];
    if !th.pc.FindLock? && s.serverLock != Some(t) then Faulty(s)
    else
      match th.pc
      case FindLock(name, receiver) =>
        WithThread(s, t, th.(pc := FindLookup(name, receiver))).(serverLock := Some(t))
      case FindLookup(name, receiver) =>
        if name in s.roomOf then WithThread(s, t, th.(pc := FindUnlock(name, receiver, s.roomOf[name])))
        else WithThread(s, t, th.(pc := FindUnlock(name, receiver, |s.rooms|)))
             .(rooms := s.rooms + [Room(name, None, {}, [])], roomOf := s.roomOf[name := |s.rooms|])
      case FindUnlock(_, receiver, found) =>
        WithThread(s, t, th.(pc := if receiver then AddLock else Ok(Loop), room := Some(found))).(serverLock := None)
  }

  // ----- add_member and remove_member

  predicate IsMembership(pc: Pc) {
    pc.AddLock? || pc.AddInsert? || pc.AddUnlock? || pc.RemoveLock? || pc.RemoveErase? || pc.RemoveUnlock?
  }

  predicate RoomEnabled(s: State, t: nat)
    requires t < |s.threads|
  {
    var pc := s.threads[t].pc;
    (pc.AddLock? || pc.RemoveLock? || pc.CastLock?) && HasRoom(s, t) ==> s.rooms[s.threads[t].room.value].lock == None
  }

  function Membership(t: nat, th: Thread, room: Room): (e: RoomEffect)
    requires IsMembership(th.pc)
  {
    var mine := room.lock == Some(t);
    match th.pc
    case AddLock => RoomEffect(th.(pc := AddInsert), room.(lock := Some(t)), true)
    case AddInsert =>
      RoomEffect(th.(pc := AddUnlock, joined := |room.history|), room.(members := room.members + {t}), mine)
    case AddUnlock => RoomEffect(th.(pc := AddReply), room.(lock := None), mine)
    case RemoveLock => RoomEffect(th.(pc := RemoveErase), room.(lock := Some(t)), true)
    case RemoveErase =>
      RoomEffect(th.(pc := RemoveUnlock, left := |room.history|), room.(members := room.members - {t}), mine)
    case RemoveUnlock => RoomEffect(th.(pc := Delete), room.(lock := None), mine)
  }

  // ----- dequeue and the receiver's loop

  predicate IsTake(pc: Pc) {
    pc.Wait? || pc.TakeLock? || pc.TakePop? || pc.TakeUnlock? || pc.Free? || pc.Check?
  }

  predicate TakeEnabled(s: State, t: nat)
    requires t < |s.threads| && t < |s.queues|
  {
    && (s.threads[t].pc.Wait? ==> s.queues[t].avail > 0)
    && (s.threads[t].pc.TakeLock? ==> s.queues[t].lock == None)
  }

  function Take(t: nat, th: Thread, q: Queue): (e: QueueEffect)
    requires IsTake(th.pc)
  {
    var mine := q.lock == Some(t);
    match th.pc
    case Wait =>
      if q.avail == 0 then QueueEffect(th, q, None, false)
      else QueueEffect(th.(pc := TakeLock), q.(avail := q.avail - 1), None, true)
    case TakeLock => QueueEffect(th.(pc := TakePop), q.(lock := Some(t)), None, true)
    case TakePop =>
      if q.messages == [] then QueueEffect(th, q, None, false)
      else
        var m := q.messages[0];
        QueueEffect(th.(pc := TakeUnlock, hand := [m]), q.(messages := q.messages[1..], popped := q.popped + 1),
                    Some(Move(m.id, InHand(t))), mine)
    case TakeUnlock => QueueEffect(th.(pc := Deliver), q.(lock := None), None, mine)
    case Free =>
      if th.hand == [] then QueueEffect(th, q, None, false)
      else QueueEffect(th.(pc := Check, hand := []), q, Some(Move(th.hand[0].id, Freed)), true)
    case Check => QueueEffect(th.(pc := if th.connected then Wait else RemoveLock), q, None, true)
  }

  // ----- broadcast_message and enqueue

  function DeliveryText(room: string, sender: string, text: string): (data: string) {
    room + ":" + sender + ":" + text
  }

  predicate IsCast(pc: Pc) {
    pc.CastLock? || pc.Cast?
  }

  /** The loop over members goes on with Pick; it ends, and the room is unlocked, when none is left. */
  predicate CastEnabled(s: State, t: nat)
    requires t < |s.threads|
  {
    var pc := s.threads[t].pc;
    && RoomEnabled(s, t)
    && (pc.Cast? && pc.stage.Idle? ==> pc.todo == {})
    && (pc.Cast? && pc.stage.Lock? && Live(s, pc.stage.target) ==> s.queues[pc.stage.target].lock == None)
  }

  predicate IsCastEdge(pc: Pc) {
    pc.CastLock? || (pc.Cast? && pc.stage.Idle?)
  }

  /** The beginning and the end of a broadcast. */
  function CastEdge(t: nat, th: Thread, room: Room): (e: RoomEffect)
    requires IsCastEdge(th.pc)
  {
    if th.pc.CastLock? then
      var data := DeliveryText(room.name, th.name, th.pc.text);
      RoomEffect(th.(pc := Cast(data, room.members, Idle)),
                 room.(lock := Some(t), history := room.history + [data]), true)
    else
      RoomEffect(th.(pc := Ok(Loop)), room.(lock := None), room.lock == Some(t))
  }

  /** The loop takes any member not served yet, and allocates its message. */
  function PickMember(s: State, t: nat, u: nat): (n: State)
    requires t < |s.threads| && s.threads[t].pc.Cast?
  {
    var th := s.threads[t];
    if HasRoom(s, t) && s.rooms[th.room.value].lock == Some(t) && u in s.rooms[th.room.value].members then
      var m := Msg(|s.places|, th.pc.data);
      WithThread(s, t, th.(pc := Cast(th.pc.data, th.pc.todo - {u}, Lock(u)), hand := [m]))
      .(places := s.places + [InHand(t)])
    else Faulty(s)
  }

  predicate IsEnqueue(pc: Pc) {
    pc.Cast? && !pc.stage.Idle?
  }

  function Enqueue(t: nat, th: Thread, q: Queue): (e: QueueEffect)
    requires IsEnqueue(th.pc)
  {
    var pc := th.pc;
    var u := pc.stage.target;
    var mine := q.lock == Some(t);
    match pc.stage
    case Lock(_) => QueueEffect(th.(pc := pc.(stage := Push(u))), q.(lock := Some(t)), None, true)
    case Push(_) =>
      if th.hand == [] then QueueEffect(th, q, None, false)
      else QueueEffect(th.(pc := pc.(stage := Post(u)), hand := []), q.(messages := q.messages + [th.hand[0]]),
                       Some(Move(th.hand[0].id, InQueue(u, q.popped + |q.messages|))), mine)
    case Post(_) => QueueEffect(th.(pc := pc.(stage := Unlock(u))), q.(avail := q.avail + 1), None, true)
    case Unlock(_) => QueueEffect(th.(pc := pc.(stage := Idle)), q.(lock := None), None, mine)
  }

  // ----- the end of a worker

  /** ~MessageQueue frees what is left, one message at a time; then the user is gone. */
  function Destroy(th: Thread, q: Queue): (e: QueueEffect) {
    var unlocked := q.lock == None;
    if q.messages == [] then QueueEffect(th.(pc := Done), q, None, unlocked)
    else
      var m := q.messages[0];
      QueueEffect(th.(dropped := th.dropped + [m.data]), q.(messages := q.messages[1..], popped := q.popped + 1),
                  Some(Move(m.id, Freed)), unlocked)
  }

  // ----- runs

  function Newcomer(): (th: Thread) {
    Thread(Login, "", None, true, [], 0, 0, [], [], [])
  }

  predicate Enabled(s: State, step: Step) {
    && |s.queues| == |s.threads|
    && (step.Spawn? ||
        (step.t < |s.threads| &&
         var pc := s.threads[step.t].pc;
         match step
         case Receive(t, _, _) => Receives(pc)
         case Send(t, _) => Sends(pc)
         case Timeout(t) => pc.Wait?
         case Pick(t, u) => pc.Cast? && pc.stage.Idle? && u in pc.todo
         case Act(t) => CanAct(s, t)))
  }

  /** Whether thread t has a step of its own that needs no peer and no choice. */
  predicate CanAct(s: State, t: nat)
    requires t < |s.threads| == |s.queues|
  {
    var pc := s.threads[t].pc;
    || (IsFind(pc) && FindEnabled(s, t))
    || (IsMembership(pc) && RoomEnabled(s, t))
    || (IsTake(pc) && TakeEnabled(s, t))
    || (IsCast(pc) && CastEnabled(s, t))
    || pc.Delete?
  }

  function Acted(s: State, t: nat): (n: State)
    requires t < |s.threads| == |s.queues| && CanAct(s, t)
  {
    var th, q := s.threads[t], s.queues[t];
    if IsFind(th.pc) then Find(s, t)
    else if IsMembership(th.pc) then
      if HasRoom(s, t) then WithRoomEffect(s, t, th.room.value, Membership(t, th, s.rooms[th.room.value]))
      else Faulty(s)
    else if IsTake(th.pc) then WithQueueEffect(s, t, t, Take(t, th, q))
    else if IsCastEdge(th.pc) then
      if HasRoom(s, t) then WithRoomEffect(s, t, th.room.value, CastEdge(t, th, s.rooms[th.room.value])) else Faulty(s)
    else if IsEnqueue(th.pc) then
      var u := th.pc.stage.target;
      if Live(s, u) then WithQueueEffect(s, t, u, Enqueue(t, th, s.queues[u])) else Faulty(s)
    else WithQueueEffect(s, t, t, Destroy(th, q))
  }

  function After(s: State, step: Step): (n: State)
    requires Enabled(s, step)
  {
    match step
    case Spawn => s.(threads := s.threads + [Newcomer()], queues := s.queues + [Queue([], 0, None, 0)])
    case Receive(t, result, msg) => WithThread(s, t, Heard(s.threads[t], result, msg))
    case Send(t, sent) => WithThread(s, t, SentBy(s.threads[t], sent))
    case Timeout(t) => WithThread(s, t, s.threads[t].(pc := Check))
    case Pick(t, u) => PickMember(s, t, u)
    case Act(t) => Acted(s, t)
  }

  function Start(): (s: State) {
    State(None, map[], [], [], [], [], false)
  }

  /** Whether the steps can be taken one after the other. */
  predicate Runs(s: State, steps: seq<Step>)
    decreases |steps|
  {
    steps == [] || (Enabled(s, steps[0]) && Runs(After(s, steps[0]), steps[1..]))
  }

  function Final(s: State, steps: seq<Step>): (n: State)
    requires Runs(s, steps)
    decreases |steps|
  {
    if steps == [] then s else Final(After(s, steps[0]), steps[1..])
  }

  ghost predicate Reachable(s: State) {
    exists steps :: Runs(Start(), steps) && Final(Start(), steps) == s
  }
}
