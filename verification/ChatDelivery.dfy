/** What a broadcast text looks like to the client that receives it: room.cpp and connection.cpp together. */
module ChatDelivery {
  import opened Framing
  import opened ChatModel

  /** The message that broadcast_message enqueues for every member. */
  function Delivered(room: string, sender: string, text: string): (msg: Message) {
    Message("delivery", DeliveryText(room, sender, text))
  }

  /** The first colon ends the room name exactly when the name has none itself. */
  lemma DeliveryNamesRoomIff(room: string, sender: string, text: string)
    ensures Split(DeliveryText(room, sender, text)) == Message(room, sender + ":" + text) <==> ':' !in room
  {
    var data := DeliveryText(room, sender, text);
    assert data == room + ":" + (sender + ":" + text);
    if ':' !in room {
      SplitJoin(room, sender + ":" + text);
    } else {
      var i := IndexOfColon(data);
      assert data[|room|] == ':';
      assert Split(data).tag == data[..i];
    }
  }

  predicate IsAlphanumeric(c: char) {
    'a' <= c <= 'z' || 'A' <= c <= 'Z' || '0' <= c <= '9'
  }

  lemma Range(s: string, first: char, last: char)
    requires |s| == last as int - first as int + 1 && forall i | 0 <= i < |s| :: s[i] as int == first as int + i
    ensures forall c :: c in s <==> first <= c <= last
  {
    forall c: char ensures c in s <==> first <= c <= last {
      if first <= c <= last { assert s[c as int - first as int] == c; }
    }
  }

  lemma AlphabetExact(c: char)
    ensures c in ALPHABET <==> IsAlphanumeric(c)
  {
    Range(LOWER, 'a', 'z');
    Range(UPPER, 'A', 'Z');
    Range("123456789", '1', '9');
    assert "1234567890" == "123456789" + "0";
  }

  /** A login is accepted when it is more than a newline and trims to letters and digits, or to nothing. */
  lemma AcceptedLoginIff(data: string)
    ensures ValidLogin(data) <==>
              '\n' in data && data != "\n" && forall c | c in RightTrim(data) :: IsAlphanumeric(c)
  {
    hide RightTrim, IsAlphanumeric;
    forall c ensures c in ALPHABET <==> IsAlphanumeric(c) { AlphabetExact(c); }
    if '\n' in data && |data| <= 1 { assert data == [data[0]]; }
  }

  /** So a carriage return is enough to log in under the empty name. */
  lemma EmptyNameIsAccepted()
    ensures ValidLogin("\r\n") && RightTrim("\r\n") == ""
  {
    var data := "\r\n";
    assert data[..1] == "\r" && data[1] == '\n' && RightTrim("\r") == RightTrim("\r"[..0]);
  }

  /** A name that the login accepts holds no colon, newline or NUL. */
  lemma AcceptedNameIsPlain(data: string)
    requires ValidLogin(data)
    ensures ':' !in RightTrim(data) && Clean(RightTrim(data))
  {
    hide RightTrim;
    forall c | c in RightTrim(data) ensures IsAlphanumeric(c) { AlphabetExact(c); }
  }

  /** A client can join room "a:b", and every delivery from it is then cut in the wrong place. */
  lemma ColonRoomIsMisread(sender: string, text: string)
    ensures AfterJoinRequest(SUCCESS, Message("join", "a:b\n")) == FindLock("a:b", true)
    ensures AfterCommand(SUCCESS, Message("join", "a:b\n"), false) == FindLock("a:b", false)
    ensures Split(DeliveryText("a:b", sender, text)) != Message("a:b", sender + ":" + text)
  {
    hide RightTrim, DeliveryText, Split;
    ColonRoomIsTrimmed();
    assert "a:b\n"[3] == '\n' && "a:b"[1] == ':';
    DeliveryNamesRoomIff("a:b", sender, text);
  }

  lemma ColonRoomIsTrimmed()
    ensures RightTrim("a:b\n") == "a:b"
  {
    assert "a:b\n"[..3] == "a:b";
  }

  lemma CleanParts(room: string, sender: string, text: string)
    ensures Clean(DeliveryText(room, sender, text)) <==> Clean(room) && Clean(sender) && Clean(text)
  {
    var data := DeliveryText(room, sender, text);
    assert forall i | 0 <= i < |room| :: data[i] == room[i];
    assert forall i | 0 <= i < |sender| :: data[|room| + 1 + i] == sender[i];
    assert forall i | 0 <= i < |text| :: data[|room| + |sender| + 2 + i] == text[i];
    assert forall c | c in data :: c in room || c in sender || c in text || c == ':';
    assert forall c | c in room || c in sender || c in text :: c in data;
  }

  /** A broadcast reaches the client intact exactly when its three parts are clean and at most 242 bytes long. */
  lemma DeliveryArrivesIff(room: string, sender: string, text: string, rest: string, into: Message)
    ensures Received(Sent(Delivered(room, sender, text)) + rest, into)
            == Delivery(Arrived(Delivered(room, sender, text)), SUCCESS, rest)
       <==> Clean(room) && Clean(sender) && Clean(text) && |room| + |sender| + |text| <= 242
  {
    hide Received, Sent, Arrived, Clean;
    RoundTripIff(Delivered(room, sender, text), rest, into);
    CleanParts(room, sender, text);
  }

  /**
   A client that receives a delivery and cuts its data at two colons gets room, sender and text back,
   the text with the newline that ended the line.
   */
  lemma ClientReadsBack(room: string, login: string, text: string, rest: string, into: Message)
    requires ValidLogin(login) && ':' !in room && Clean(room) && Clean(text)
    requires |room| + |RightTrim(login)| + |text| <= 242
    ensures var sender := RightTrim(login);
            var d := Received(Sent(Delivered(room, sender, text)) + rest, into);
            var cut := Split(d.msg.data);
            && d.result == SUCCESS && d.rest == rest
            && cut.tag == room && Split(cut.data) == Message(sender, text + "\n")
  {
    hide RightTrim, ValidLogin, Received, Sent, Clean, Split;
    var sender := RightTrim(login);
    AcceptedNameIsPlain(login);
    DeliveryArrivesIff(room, sender, text, rest, into);
    assert DeliveryText(room, sender, text) + "\n" == DeliveryText(room, sender, text + "\n");
    DeliveryNamesRoomIff(room, sender, text + "\n");
    SplitJoin(sender, text + "\n");
  }

  /** The server can accept a command whose broadcast no client can read back whole. */
  lemma AcceptedAndCut(rest: string, into: Message)
    ensures exists text ::
      && Framed(Message("sendall", text))
      && Received(Sent(Delivered("r", "s", text)) + rest, into)
         != Delivery(Arrived(Delivered("r", "s", text)), SUCCESS, rest)
  {
    hide Received, Sent, Arrived;
    var text := seq(245, _ => 'a');
    assert forall c | c in text :: c == 'a';
    assert Framed(Message("sendall", text));
    DeliveryArrivesIff("r", "s", text, rest, into);
  }
}
