/** class Connection of connection.cpp, over the robust I/O of module Rio. */
module Connections {
  import opened Rio
  import opened Framing

  method StrLen(a: array<char>) returns (n: nat)
    requires '\0' in a[..]
    ensures n < a.Length && a[..n] == CString(a[..])
  {
    n := 0;
    while a[n] != '\0'
      invariant n < a.Length && '\0' in a[n..]
      invariant '\0' !in a[..n]
      decreases a.Length - n
    {
      n := n + 1;
    }
    CStringIs(a[..], a[..n]);
  }

  class Connection {
    const fd: Descriptor
    const fdbuf: RioBuffer
    var lastResult: Result

    ghost predicate Valid()
      reads this, fdbuf
    {
      fdbuf.Valid() && fdbuf.fd == fd
    }

    constructor (fd: Descriptor)
      ensures Valid() && this.fd == fd && fresh(fdbuf) && fresh(fdbuf.buf)
      ensures lastResult == SUCCESS && fdbuf.Remaining() == fd.pending
    {
      this.fd := fd;
      lastResult := SUCCESS;
      fdbuf := new RioBuffer(fd);
    }

    /** Writes the whole encoding, or fails after writing a proper prefix of it. */
    method Send(msg: Message) returns (ok: bool)
      requires Valid()
      modifies this`lastResult, fd`sent, fd`writeScript
      ensures Valid()
      ensures ok ==> lastResult == SUCCESS && fd.sent == old(fd.sent) + Sent(msg)
      ensures !ok ==>
                && lastResult == EOF_OR_ERROR
                && exists k :: 0 <= k < |Sent(msg)| && fd.sent == old(fd.sent) + Sent(msg)[..k]
      ensures NoFailure(old(fd.writeScript)) ==> ok && NoFailure(fd.writeScript)
    {
      hide CString;
      var overall := msg.tag + ":" + msg.data;
      var converted := new char[|overall| + 2];
      forall i | 0 <= i < |overall| {
        converted[i] := overall[i];
      }
      converted[|overall|] := '\n';
      converted[|overall| + 1] := '\0';
      assert converted[..|overall|] == overall;
      assert converted[..] == Encode(msg) + "\0";
      SentAsCString(msg);
      assert converted[..][|overall| + 1] == '\0';
      var n := StrLen(converted);
      var written := WriteN(fd, converted, n);
      if written != n {
        assert forall k | 0 <= k < n :: converted[..k] == Sent(msg)[..k];
        lastResult := EOF_OR_ERROR;
        return false;
      }
      lastResult := SUCCESS;
      return true;
    }

    /** Reads one line and splits it; the caller's message keeps its data at the end of the stream or on an error. */
    method Receive(msg: Message) returns (ok: bool, received: Message)
      requires Valid()
      modifies this`lastResult, fdbuf, fdbuf.buf, fd`pending, fd`readScript
      ensures Valid() && ok == (lastResult == SUCCESS)
      ensures var d := Received(old(fdbuf.Remaining()), msg);
              || (received == d.msg && lastResult == d.result && fdbuf.Remaining() == d.rest)
              || (received == msg.(tag := TAG_EMPTY) && lastResult == EOF_OR_ERROR && !NoFailure(old(fd.readScript)))
      ensures NoFailure(old(fd.readScript)) ==> NoFailure(fd.readScript)
    {
      hide LineLength, Split, KnownTag;
      ghost var stream := fdbuf.Remaining();
      var buffer := new char[MAX_LEN];
      var n := fdbuf.ReadLineB(buffer, MAX_LEN);
      if n <= 0 {
        received := msg.(tag := TAG_EMPTY);
        lastResult := EOF_OR_ERROR;
        return false, received;
      }
      var length := Terminated(buffer, n);
      received := Split(buffer[..length]);
      if KnownTag(received.tag) {
        lastResult := SUCCESS;
        return true, received;
      }
      lastResult := INVALID_MSG;
      return false, received;
    }
  }

  lemma SentAsCString(msg: Message)
    ensures CString(Encode(msg) + "\0") == Sent(msg)
  {
    var s := Encode(msg);
    CStringIs(s + "\0", Sent(msg));
  }

  /** The string a terminated buffer denotes is that of the bytes before the terminator. */
  method Terminated(a: array<char>, n: nat) returns (length: nat)
    requires n < a.Length && a[n] == '\0'
    ensures length <= n && a[..length] == CString(a[..n])
  {
    assert a[..][n] == '\0';
    length := StrLen(a);
    var c := a[..length];
    assert forall k | 0 <= k < length :: c[k] == a[k];
    CStringIs(a[..n], c);
  }

  method SendAll(conn: Connection, msgs: seq<Message>) returns (ok: bool)
    requires conn.Valid()
    modifies conn`lastResult, conn.fd`sent, conn.fd`writeScript
    ensures conn.Valid()
    ensures ok ==> conn.fd.sent == old(conn.fd.sent) + SentAll(msgs)
    ensures NoFailure(old(conn.fd.writeScript)) ==> ok
  {
    hide Sent;
    for i := 0 to |msgs|
      invariant conn.Valid()
      invariant NoFailure(old(conn.fd.writeScript)) ==> NoFailure(conn.fd.writeScript)
      invariant conn.fd.sent + SentAll(msgs[i..]) == old(conn.fd.sent) + SentAll(msgs)
    {
      assert msgs[i..][1..] == msgs[i + 1..];
      ok := conn.Send(msgs[i]);
      if !ok {
        return;
      }
    }
    assert msgs[|msgs|..] == [];
    return true;
  }

  method ReceiveAll(conn: Connection, into: Message) returns (got: seq<Reception>)
    requires conn.Valid() && NoFailure(conn.fd.readScript)
    modifies conn`lastResult, conn.fdbuf, conn.fdbuf.buf, conn.fd`pending, conn.fd`readScript
    ensures conn.Valid()
    ensures got == Conversation(old(conn.fdbuf.Remaining()), into) && conn.fdbuf.Remaining() == []
  {
    hide Received;
    got := [];
    var msg := into;
    var more := true;
    while more
      invariant conn.Valid() && NoFailure(conn.fd.readScript)
      invariant got + Conversation(conn.fdbuf.Remaining(), msg) == Conversation(old(conn.fdbuf.Remaining()), into)
      invariant !more ==> conn.fdbuf.Remaining() == []
      decreases if more then 1 + |conn.fdbuf.Remaining()| else 0
    {
      ghost var rest := conn.fdbuf.Remaining();
      ReceivedEnd(rest, msg);
      var ok, received := conn.Receive(msg);
      more := conn.lastResult != EOF_OR_ERROR;
      if more {
        ConversationStep(rest, msg);
        got := got + [Reception(received, conn.lastResult)];
        msg := received;
      }
    }
  }

  /**
   A sender and a receiver with any transfer sizes on either side: what arrives is what was sent if
   and only if every message is framed.
   */
  method Transmit(msgs: seq<Message>, into: Message, writeScript: seq<Outcome>, readScript: seq<Outcome>)
    returns (got: seq<Reception>)
    requires NoFailure(writeScript) && NoFailure(readScript)
    ensures got == Conversation(SentAll(msgs), into)
    ensures got == ArrivedAll(msgs) <==> FramedAll(msgs)
  {
    var near := new Descriptor([], [], writeScript);
    var sender := new Connection(near);
    var ok := SendAll(sender, msgs);
    assert near.sent == SentAll(msgs);
    var far := new Descriptor(near.sent, readScript, []);
    var receiver := new Connection(far);
    got := ReceiveAll(receiver, into);
    ConversationRoundTrip(msgs, into);
  }

  lemma ReceivedEnd(stream: string, msg: Message)
    ensures Received(stream, msg).result == EOF_OR_ERROR <==> stream == []
    ensures stream == [] ==> Received(stream, msg).rest == []
  {
  }
}
