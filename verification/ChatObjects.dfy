/**
 The objects of the chat server as their methods change them, each method run without interruption.
 What a method does to an object is what the steps of one undisturbed thread do to its counterpart
 in module ChatModel.
 */
module ChatObjects {
  import opened Framing
  import opened ChatModel

  // ----- undisturbed operations of the transition system

  function Enqueued(q: Queue, m: Msg): (q': Queue) {
    q.(messages := q.messages + [m], avail := q.avail + 1)
  }

  function Dequeued(q: Queue): (q': Queue)
    requires q.messages != [] && q.avail > 0
  {
    q.(messages := q.messages[1..], avail := q.avail - 1, popped := q.popped + 1)
  }

  function Joined(room: Room, t: nat): (room': Room) {
    room.(members := room.members + {t})
  }

  function Parted(room: Room, t: nat): (room': Room) {
    room.(members := room.members - {t})
  }

  /** Lock, push, post and unlock by one thread. */
  lemma EnqueueUndisturbed(t: nat, th: Thread, q: Queue)
    requires IsEnqueue(th.pc) && th.pc.stage.Lock? && |th.hand| == 1 && q.lock == None
    ensures var e1 := Enqueue(t, th, q);
            IsEnqueue(e1.thread.pc) && var e2 := Enqueue(t, e1.thread, e1.queue);
            IsEnqueue(e2.thread.pc) && var e3 := Enqueue(t, e2.thread, e2.queue);
            IsEnqueue(e3.thread.pc) && var e4 := Enqueue(t, e3.thread, e3.queue);
            && e1.ok && e2.ok && e3.ok && e4.ok
            && e4.queue == Enqueued(q, th.hand[0])
            && e4.thread == th.(pc := th.pc.(stage := Idle), hand := [])
  {
  }

  /** Wait, lock, pop and unlock by one thread. */
  lemma DequeueUndisturbed(t: nat, th: Thread, q: Queue)
    requires th.pc.Wait? && q.lock == None && q.avail > 0 && q.messages != []
    ensures var e1 := Take(t, th, q);
            IsTake(e1.thread.pc) && var e2 := Take(t, e1.thread, e1.queue);
            IsTake(e2.thread.pc) && var e3 := Take(t, e2.thread, e2.queue);
            IsTake(e3.thread.pc) && var e4 := Take(t, e3.thread, e3.queue);
            && e1.ok && e2.ok && e3.ok && e4.ok
            && e4.queue == Dequeued(q)
            && e4.thread == th.(pc := Deliver, hand := [q.messages[0]])
  {
  }

  /** Lock, insert and unlock by one thread; lock, erase and unlock. */
  lemma MembershipUndisturbed(t: nat, th: Thread, room: Room)
    requires room.lock == None && (th.pc.AddLock? || th.pc.RemoveLock?)
    ensures var e1 := Membership(t, th, room);
            IsMembership(e1.thread.pc) && var e2 := Membership(t, e1.thread, e1.room);
            IsMembership(e2.thread.pc) && var e3 := Membership(t, e2.thread, e2.room);
            && e1.ok && e2.ok && e3.ok
            && e3.room == (if th.pc.AddLock? then Joined(room, t) else Parted(room, t))
            && e3.thread.pc == if th.pc.AddLock? then AddReply else Delete
  {
  }

  /** Which room a name has after a lookup; number is that of the next new room. */
  function Found(roomOf: map<string, nat>, name: string, number: nat): (roomOf': map<string, nat>) {
    if name in roomOf then roomOf else roomOf[name := number]
  }

  /** Lock, lookup and unlock by one thread. */
  lemma FindUndisturbed(s: State, t: nat)
    requires t < |s.threads| && s.threads[t].pc.FindLock? && s.serverLock == None && !s.fault
    ensures var name := s.threads[t].pc.name;
            var s1 := Find(s, t);
            t < |s1.threads| && IsFind(s1.threads[t].pc) && var s2 := Find(s1, t);
            t < |s2.threads| && IsFind(s2.threads[t].pc) && var s3 := Find(s2, t);
            && t < |s3.threads| && !s3.fault && s3.serverLock == None
            && s3.roomOf == Found(s.roomOf, name, |s.rooms|)
            && s3.threads[t].room == Some(s3.roomOf[name])
            && s3.rooms == s.rooms + if name in s.roomOf then [] else [Room(name, None, {}, [])]
  {
  }

  // ----- the objects

  class MessageQueue {
    var messages: seq<Message>
    var avail: nat

    /** Between operations the semaphore counts the deque. */
    ghost predicate Valid()
      reads this
    {
      |messages| == avail
    }

    /** Whether q is this queue in the transition system. */
    ghost predicate Shows(q: Queue)
      reads this
    {
      && q.lock == None && q.avail == avail && |q.messages| == |messages|
      && forall i | 0 <= i < |messages| :: messages[i] == Message("delivery", q.messages[i].data)
    }

    constructor ()
      ensures Valid() && messages == []
      ensures Shows(Queue([], 0, None, 0))
    {
      messages, avail := [], 0;
    }

    method Enqueue(msg: Message)
      requires Valid()
      modifies this
      ensures Valid() && messages == old(messages) + [msg]
      ensures forall q: Queue, m: Msg | old(Shows(q)) && msg == Message("delivery", m.data) :: Shows(Enqueued(q, m))
    {
      messages := messages + [msg];
      avail := avail + 1;
    }

    /** sem_timedwait fails when the count stays 0 for a second. */
    method Dequeue() returns (message: Option<Message>)
      requires Valid()
      modifies this
      ensures Valid()
      ensures message.None? ==> old(messages) == [] == messages
      ensures message.Some? ==> old(messages) == [message.value] + messages
      ensures forall q | old(Shows(q)) && q.messages != [] && q.avail > 0 ::
                message == Some(Message("delivery", q.messages[0].data)) && Shows(Dequeued(q))
    {
      if avail == 0 {
        return None;
      }
      avail := avail - 1;
      message := Some(messages[0]);
      messages := messages[1..];
    }

    /** The destructor's loop; freed lists what it deletes. */
    method Clear() returns (freed: seq<Message>)
      modifies this
      ensures freed == old(messages) && messages == []
    {
      freed := [];
      while messages != []
        invariant freed + messages == old(messages)
      {
        freed := freed + [messages[0]];
        messages := messages[1..];
      }
    }
  }

  class User {
    const username: string
    const mqueue: MessageQueue
    ghost const id: nat

    constructor (username: string, ghost id: nat)
      ensures this.username == username && this.id == id
      ensures fresh(mqueue) && mqueue.Valid() && mqueue.messages == []
    {
      this.username, this.id := username, id;
      mqueue := new MessageQueue();
    }
  }

  class ChatRoom {
    const roomName: string
    var members: set<User>
    ghost const number: nat

    /** Members have their own queues and numbers, and their queues are in order. */
    ghost predicate Valid()
      reads this, members, set u | u in members :: u.mqueue
    {
      && (forall u | u in members :: u.mqueue.Valid())
      && (forall u, v | u in members && v in members && u != v :: u.mqueue != v.mqueue && u.id != v.id)
    }

    /** A user that is no other member in disguise. */
    ghost predicate Distinguishes(user: User)
      reads this, members
    {
      forall u | u in members && u != user :: u.mqueue != user.mqueue && u.id != user.id
    }

    /** Whether room is this room in the transition system. */
    ghost predicate Shows(room: Room)
      reads this, members
    {
      room.lock == None && room.name == roomName && room.members == set u | u in members :: u.id
    }

    constructor (roomName: string, ghost number: nat)
      ensures this.roomName == roomName && this.number == number && members == {} && Valid()
      ensures Shows(Room(roomName, None, {}, []))
    {
      this.roomName, this.number := roomName, number;
      members := {};
    }

    /** The room stays fit for a broadcast, which then reaches exactly one user more. */
    method AddMember(user: User)
      requires Valid() && user.mqueue.Valid() && Distinguishes(user)
      modifies this
      ensures Valid() && members == old(members) + {user}
      ensures forall room | old(Shows(room)) :: Shows(Joined(room, user.id))
    {
      members := members + {user};
    }

    /** The room stays fit for a broadcast, which no longer reaches the user; no member is lost with it. */
    method RemoveMember(user: User)
      requires Valid() && Distinguishes(user)
      modifies this
      ensures Valid() && members == old(members) - {user}
      ensures forall room | old(Shows(room)) :: Shows(Parted(room, user.id))
    {
      members := members - {user};
      assert forall u | u in old(members) :: u in members <==> u.id != user.id;
    }

    /** Every member's queue grows by the same text, and no other object changes. */
    method BroadcastMessage(sender: string, text: string)
      requires Valid()
      modifies set u | u in members :: u.mqueue
      ensures Valid()
      ensures forall u | u in members ::
                u.mqueue.messages
                == old(u.mqueue.messages) + [Message("delivery", DeliveryText(roomName, sender, text))]
      ensures forall u, q: Queue, m: Msg |
                u in members && old(u.mqueue.Shows(q)) && m.data == DeliveryText(roomName, sender, text) ::
                u.mqueue.Shows(Enqueued(q, m))
    {
      hide DeliveryText;
      var data := DeliveryText(roomName, sender, text);
      var delivery := Message("delivery", data);
      var todo := members;
      while todo != {}
        invariant todo <= members && Valid()
        invariant forall u | u in members ::
                    u.mqueue.messages == old(u.mqueue.messages) + if u in todo then [] else [delivery]
        decreases todo
      {
        var now :| now in todo;
        now.mqueue.Enqueue(delivery);
        todo := todo - {now};
      }
    }
  }

  class ChatServer {
    var rooms: map<string, ChatRoom>

    ghost predicate Valid()
      reads this
    {
      forall name | name in rooms :: rooms[name].roomName == name
    }

    /** Whether roomOf is this server's map in the transition system. */
    ghost predicate Shows(roomOf: map<string, nat>)
      reads this
    {
      rooms.Keys == roomOf.Keys && forall name | name in rooms :: rooms[name].number == roomOf[name]
    }

    constructor ()
      ensures Valid() && rooms == map[] && Shows(map[])
    {
      rooms := map[];
    }

    /** The room of that name: the one there is, or a new empty one; every other name keeps its room. */
    method FindOrCreateRoom(roomName: string, ghost number: nat) returns (room: ChatRoom)
      requires Valid()
      modifies this
      ensures Valid() && room.roomName == roomName && rooms == old(rooms)[roomName := room]
      ensures roomName in old(rooms) ==> room == old(rooms)[roomName]
      ensures roomName !in old(rooms) ==> fresh(room) && room.members == {} && room.Valid()
      ensures forall roomOf | old(Shows(roomOf)) :: Shows(Found(roomOf, roomName, number))
    {
      if roomName !in rooms {
        var created := new ChatRoom(roomName, number);
        rooms := rooms[roomName := created];
      }
      return rooms[roomName];
    }
  }
}
