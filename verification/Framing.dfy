/**
 The chat protocol's framing, connection.cpp: a message travels as tag ':' data '\n', and is read
 back as one line of at most MAX_LEN - 1 bytes, cut at its first colon.
 */
module Framing {
  import opened Rio

  const MAX_LEN: nat := 255
  const TAG_OK := "ok"
  const TAG_EMPTY := "empty"

  datatype Message = Message(tag: string, data: string)

  datatype Result = SUCCESS | EOF_OR_ERROR | INVALID_MSG

  predicate KnownTag(tag: string) {
    tag in {"err", TAG_OK, "slogin", "rlogin", "join", "leave", "sendall", "senduser", "quit", "delivery", TAG_EMPTY}
  }

  function Encode(msg: Message): (s: string) {
    msg.tag + ":" + msg.data + "\n"
  }

  /** A char array seen as a C string: up to its first NUL. */
  function CString(s: string): (c: string)
    ensures c <= s && '\0' !in c
    ensures c == s || s[|c|] == '\0'
  {
    if s == [] || s[0] == '\0' then [] else [s[0]] + CString(s[1..])
  }

  lemma {:induction false} CStringIs(s: string, c: string)
    requires c <= s && '\0' !in c && (c == s || s[|c|] == '\0')
    ensures CString(s) == c
  {
    var d := CString(s);
    assert forall i | 0 <= i < |c| :: c[i] == s[i];
    assert forall i | 0 <= i < |d| :: d[i] == s[i];
    assert d == s[..|d|] && c == s[..|c|];
  }

  /** What Connection::send puts on the wire. */
  function Sent(msg: Message): (s: string) {
    CString(Encode(msg))
  }

  function IndexOfColon(s: string): (i: nat)
    ensures i <= |s| && ':' !in s[..i]
    ensures i < |s| ==> s[i] == ':'
  {
    if s == [] || s[0] == ':' then 0
    else
      var i := 1 + IndexOfColon(s[1..]);
      assert s[..i] == [s[0]] + s[1..][..i - 1];
      i
  }

  /** The cut at the first colon; without one, the tag and the data are both the whole line. */
  function Split(line: string): (msg: Message) {
    var i := IndexOfColon(line);
    if i < |line| then Message(line[..i], line[i + 1..]) else Message(line, line)
  }

  datatype Delivery = Delivery(msg: Message, result: Result, rest: string)

  /** What Connection::receive makes of the stream, given the caller's message. */
  function Received(stream: string, msg: Message): (d: Delivery)
    ensures |d.rest| <= |stream|
    ensures stream != [] ==> |d.rest| < |stream|
  {
    var n := LineLength(stream, MAX_LEN);
    if n == 0 then Delivery(msg.(tag := TAG_EMPTY), EOF_OR_ERROR, stream)
    else
      var got := Split(CString(stream[..n]));
      Delivery(got, if KnownTag(got.tag) then SUCCESS else INVALID_MSG, stream[n..])
  }

  // ----- round trip

  predicate Clean(data: string) {
    '\n' !in data && '\0' !in data
  }

  /** The messages the protocol carries intact. */
  predicate Framed(msg: Message) {
    KnownTag(msg.tag) && Clean(msg.data) && |Encode(msg)| <= MAX_LEN - 1
  }

  /** The same tag, and the data with the newline that ended the line. */
  function Arrived(msg: Message): (m: Message) {
    msg.(data := msg.data + "\n")
  }

  lemma KnownTagIsPlain(tag: string)
    requires KnownTag(tag)
    ensures ':' !in tag && '\0' !in tag && '\n' !in tag
  {
  }

  lemma SplitJoin(tag: string, data: string)
    requires ':' !in tag
    ensures Split(tag + ":" + data) == Message(tag, data)
  {
    var line := tag + ":" + data;
    var i := IndexOfColon(line);
    assert line[|tag|] == ':';
    assert forall k | 0 <= k < |tag| :: tag[k] == line[k];
    assert forall k | 0 <= k < i :: line[..i][k] == line[k];
    assert line[..|tag|] == tag && line[|tag| + 1..] == data;
  }

  lemma JoinSplit(line: string)
    requires var m := Split(line); m.tag != m.data
    ensures line == Split(line).tag + ":" + Split(line).data
  {
  }

  lemma EncodePlain(msg: Message)
    requires KnownTag(msg.tag)
    ensures Clean(msg.data) <==>
        '\0' !in Encode(msg) && (forall i | 0 <= i < |Encode(msg)| - 1 :: Encode(msg)[i] != '\n')
  {
    hide KnownTag;
    KnownTagIsPlain(msg.tag);
    var s, t := Encode(msg), |msg.tag| + 1;
    assert forall i | 0 <= i < |msg.data| :: s[t + i] == msg.data[i];
    assert forall i | 0 <= i < |msg.tag| :: s[i] == msg.tag[i];
    if Clean(msg.data) {
      forall i | 0 <= i < |s| - 1 ensures s[i] != '\n' {
        if i >= t { assert s[i] == msg.data[i - t]; }
      }
      forall i | 0 <= i < |s| ensures s[i] != '\0' {
        if t <= i < |s| - 1 { assert s[i] == msg.data[i - t]; }
      }
    } else if '\0' in msg.data {
      var i :| 0 <= i < |msg.data| && msg.data[i] == '\0';
      assert s[t + i] == '\0';
    } else {
      var i :| 0 <= i < |msg.data| && msg.data[i] == '\n';
      assert s[t + i] == '\n';
    }
  }

  /** The line at the front of a stream. */
  lemma LineAtFront(line: string, rest: string)
    requires line != [] && |line| <= MAX_LEN - 1 && line[|line| - 1] == '\n'
    requires forall i | 0 <= i < |line| - 1 :: line[i] != '\n'
    ensures LineLength(line + rest, MAX_LEN) == |line|
    ensures (line + rest)[..|line|] == line && (line + rest)[|line|..] == rest
  {
    var stream := line + rest;
    assert forall i | 0 <= i < |line| :: stream[i] == line[i];
    LineLengthExact(stream, MAX_LEN, |line|);
  }

  lemma FramedIsReceived(msg: Message, rest: string, into: Message)
    requires Framed(msg)
    ensures Sent(msg) == Encode(msg)
    ensures Received(Sent(msg) + rest, into) == Delivery(Arrived(msg), SUCCESS, rest)
  {
    hide KnownTag, Split, CString, LineLength;
    EncodePlain(msg);
    var s := Encode(msg);
    CStringIs(s, s);
    LineAtFront(s, rest);
    KnownTagIsPlain(msg.tag);
    SplitJoin(msg.tag, msg.data + "\n");
    assert s == msg.tag + ":" + (msg.data + "\n");
  }

  lemma ReceivedIsFramed(msg: Message, rest: string, into: Message)
    requires var d := Received(Sent(msg) + rest, into); d.msg == Arrived(msg) && d.result == SUCCESS
    ensures Framed(msg)
  {
    hide KnownTag;
    var stream, s := Sent(msg) + rest, Encode(msg);
    var n := LineLength(stream, MAX_LEN);
    var line := CString(stream[..n]);
    KnownTagIsPlain(msg.tag);
    assert Arrived(msg).data[|msg.data|] == '\n';
    JoinSplit(line);
    assert line == s;
    LineLengthExact(stream, MAX_LEN, n);
    assert forall i | 0 <= i < |s| - 1 :: s[i] == stream[..n][i] == stream[i];
    EncodePlain(msg);
  }

  /**
   A message survives being sent and received, whatever follows it in the stream, exactly when its
   tag is known, its data holds no newline and no NUL, and it encodes in MAX_LEN - 1 bytes.
   */
  lemma RoundTripIff(msg: Message, rest: string, into: Message)
    ensures Received(Sent(msg) + rest, into) == Delivery(Arrived(msg), SUCCESS, rest) <==> Framed(msg)
  {
    hide *;
    if Framed(msg) { FramedIsReceived(msg, rest, into); }
    var d := Received(Sent(msg) + rest, into);
    if d.msg == Arrived(msg) && d.result == SUCCESS { ReceivedIsFramed(msg, rest, into); }
  }

  // ----- every line, framed or not

  /** Split is the cut at the first colon, and a line without one stands for tag and data alike. */
  lemma SplitExact(line: string, msg: Message)
    ensures msg == Split(line) <==>
              if ':' in line then ':' !in msg.tag && line == msg.tag + ":" + msg.data
              else msg.tag == line && msg.data == line
  {
    var i := IndexOfColon(line);
    if ':' in line {
      assert line[..|line|] == line;
      if ':' !in msg.tag && line == msg.tag + ":" + msg.data { SplitJoin(msg.tag, msg.data); }
      assert line == line[..i] + ":" + line[i + 1..];
    }
  }

  /**
   What receive makes of a line: its bytes up to a NUL are cut at their first colon, or stand for tag
   and data alike, and the result is a success exactly for the tags of the protocol.
   */
  lemma ReceivedClassified(stream: string, into: Message, line: string)
    requires stream != [] && line == CString(stream[..LineLength(stream, MAX_LEN)])
    ensures var d := Received(stream, into);
      && d.rest == stream[LineLength(stream, MAX_LEN)..]
      && (':' in line ==> ':' !in d.msg.tag && line == d.msg.tag + ":" + d.msg.data)
      && (':' !in line ==> d.msg == Message(line, line))
      && (d.result == SUCCESS <==>
            || d.msg.tag == "err" || d.msg.tag == "ok" || d.msg.tag == "slogin" || d.msg.tag == "rlogin"
            || d.msg.tag == "join" || d.msg.tag == "leave" || d.msg.tag == "sendall" || d.msg.tag == "senduser"
            || d.msg.tag == "quit" || d.msg.tag == "delivery" || d.msg.tag == "empty")
      && (d.result != SUCCESS ==> d.result == INVALID_MSG)
  {
    hide CString, Split;
    SplitExact(line, Split(line));
  }

  /** At the end of the stream the caller's data stays and the tag says that there is nothing. */
  lemma ReceivedAtEnd(into: Message)
    ensures Received([], into) == Delivery(Message("empty", into.data), EOF_OR_ERROR, [])
  {
  }

  /** A whole line without colon and NUL is no message, and keeps its bytes and newline as tag and data. */
  lemma ColonlessIsInvalid(text: string, rest: string, into: Message)
    requires Clean(text) && ':' !in text && |text| + 1 <= MAX_LEN - 1
    ensures Received(text + "\n" + rest, into) == Delivery(Message(text + "\n", text + "\n"), INVALID_MSG, rest)
  {
    hide KnownTag, CString, Split, LineLength;
    var line := text + "\n";
    assert forall i | 0 <= i < |text| :: line[i] == text[i];
    LineAtFront(line, rest);
    CStringIs(line, line);
    SplitExact(line, Message(line, line));
    assert line[|text|] == '\n';
    if KnownTag(line) { KnownTagIsPlain(line); }
  }

  /** message.h allows encodings of MAX_LEN bytes; one of exactly that length does not survive. */
  lemma DocumentedLimitIsLost(rest: string, into: Message)
    ensures exists msg: Message ::
      && KnownTag(msg.tag) && Clean(msg.data) && |Encode(msg)| == MAX_LEN
      && Received(Sent(msg) + rest, into) != Delivery(Arrived(msg), SUCCESS, rest)
  {
    var data := seq(251, _ => 'a');
    var msg := Message(TAG_OK, data);
    assert forall c | c in data :: c == 'a';
    assert Clean(data) && |Encode(msg)| == MAX_LEN;
    RoundTripIff(msg, rest, into);
  }

  // ----- whole conversations

  function SentAll(msgs: seq<Message>): (s: string) {
    if msgs == [] then [] else Sent(msgs[0]) + SentAll(msgs[1..])
  }

  datatype Reception = Reception(msg: Message, result: Result)

  /** What successive receives make of a stream, up to its end, each filling the same message. */
  function Conversation(stream: string, into: Message): (rs: seq<Reception>)
    decreases |stream|
  {
    if stream == [] then []
    else
      var d := Received(stream, into);
      [Reception(d.msg, d.result)] + Conversation(d.rest, d.msg)
  }

  function ArrivedAll(msgs: seq<Message>): (rs: seq<Reception>)
    ensures |rs| == |msgs|
    ensures forall i | 0 <= i < |msgs| :: rs[i] == Reception(Arrived(msgs[i]), SUCCESS)
  {
    seq(|msgs|, i requires 0 <= i < |msgs| => Reception(Arrived(msgs[i]), SUCCESS))
  }

  predicate FramedAll(msgs: seq<Message>) {
    forall m | m in msgs :: Framed(m)
  }

  lemma ConversationStep(stream: string, into: Message)
    requires stream != []
    ensures var d := Received(stream, into);
            Conversation(stream, into) == [Reception(d.msg, d.result)] + Conversation(d.rest, d.msg)
  {
  }

  lemma SplitArrived(msgs: seq<Message>)
    requires msgs != []
    ensures ArrivedAll(msgs) == [Reception(Arrived(msgs[0]), SUCCESS)] + ArrivedAll(msgs[1..])
    ensures FramedAll(msgs) <==> Framed(msgs[0]) && FramedAll(msgs[1..])
  {
    hide Framed, Arrived;
    assert msgs == [msgs[0]] + msgs[1..];
  }

  lemma SplitSent(msgs: seq<Message>)
    requires msgs != []
    ensures SentAll(msgs) == Sent(msgs[0]) + SentAll(msgs[1..])
    ensures Framed(msgs[0]) ==> SentAll(msgs) != []
  {
    if Framed(msgs[0]) { FramedIsReceived(msgs[0], [], msgs[0]); }
  }

  lemma ConsInjective<T>(a: T, s: seq<T>, b: T, t: seq<T>)
    ensures [a] + s == [b] + t <==> a == b && s == t
  {
    if [a] + s == [b] + t {
      assert a == ([a] + s)[0] && s == ([a] + s)[1..];
      assert b == ([b] + t)[0] && t == ([b] + t)[1..];
    }
  }

  /** A whole sequence of messages arrives as it was sent exactly when every one of them is framed. */
  lemma {:induction false} ConversationRoundTrip(msgs: seq<Message>, into: Message)
    ensures Conversation(SentAll(msgs), into) == ArrivedAll(msgs) <==> FramedAll(msgs)
    decreases |msgs|
  {
    if msgs != [] {
      hide *;
      var stream, rest := SentAll(msgs), SentAll(msgs[1..]);
      SplitArrived(msgs);
      SplitSent(msgs);
      RoundTripIff(msgs[0], rest, into);
      if stream != [] {
        ConversationStep(stream, into);
        var d := Received(stream, into);
        ConsInjective(Reception(d.msg, d.result), Conversation(d.rest, d.msg),
                      Reception(Arrived(msgs[0]), SUCCESS), ArrivedAll(msgs[1..]));
        if d.msg == Arrived(msgs[0]) && d.result == SUCCESS {
          ReceivedIsFramed(msgs[0], rest, into);
          ConversationRoundTrip(msgs[1..], d.msg);
        }
      } else {
        NothingReceived(into);
      }
    }
  }

  lemma NothingReceived(into: Message)
    ensures Conversation([], into) == []
  {
  }
}
