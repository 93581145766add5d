/**
 * Properties that only show when the client rules, the HTTP routes and the socket handlers
 * are put together (client/src/App.js with server/index.js and server/routes/).
 */
module EndToEnd {
  import opened Values
  import opened JsString
  import opened RoomSchema
  import opened RoomRoutes
  import opened MessageSchema
  import opened Wire
  import opened MessageRoutes
  import opened SocketServer
  import opened Uploads
  import opened ClientApp

  /** The listing the client fetches for its history, read as JSON. */
  function Fetched(log: seq<Message>): seq<ChatJson> {
    ToJsonAll(SortByTime(log))
  }

  /** No stored message carries a room, so the history filter lets all of them through, in every room. */
  lemma HistoryIsNotRoomScoped(log: seq<Message>, roomCode: string)
    ensures ListMessages(log, None) == Ok(200, SortByTime(log))
    ensures History(Fetched(log), roomCode) == Fetched(log)
  {
    var data := Fetched(log);
    forall i | 0 <= i < |data| ensures Keep(data[i], roomCode) {
      assert data[i].roomCode == None;
    }
    HistoryKeepsAll(data, roomCode);
  }

  /** A message saved from a chat in one room shows up in the history of any other room. */
  lemma OtherRoomSeesMessage(s: Server, msg: ChatJson, now: int, otherRoom: string)
    requires Truthy(msg.roomCode) && Truthy(msg.username) && otherRoom != msg.roomCode.value
    ensures var log := ChatMessage(s, msg, now, None).server.log;
            ToJson(Message(msg.username.value, msg.message, None, now)) in History(Fetched(log), otherRoom)
  {
    var log := ChatMessage(s, msg, now, None).server.log;
    var m := Message(msg.username.value, msg.message, None, now);
    assert m == log[|log| - 1];
    assert m in multiset(log);
    var sorted := SortByTime(log);
    assert m in multiset(sorted);
    var i :| 0 <= i < |sorted| && sorted[i] == m;
    assert Fetched(log)[i] == ToJson(m);
    HistoryIsNotRoomScoped(log, otherRoom);
  }

  /** A message object the send guard lets out passes the POST guard and is tagged with a room. */
  lemma SentPayloadAcceptable(c: Client, url: Field)
    requires CanSend(c) && (c.file ==> Truthy(url))
    ensures var p := Send(c, url).value.payload;
            Acceptable(p) && Truthy(p.roomCode) && Truthy(p.username)
  {
    TrimmedNonBlankIsNonEmpty(c.username);
    if Trim(c.input) != "" {
      TrimmedNonBlankIsNonEmpty(c.input);
    }
  }

  /** The server side of one send: the POST appends a record, then the socket event appends another. */
  lemma PostThenEmit(s: Server, p: ChatJson, postTime: int, socketTime: int)
    requires Acceptable(p) && Truthy(p.roomCode)
    ensures var post := PostMessage(s.log, p, postTime, None);
            var chat := ChatMessage(Server(s.sockets, post.log), p, socketTime, None);
            && post.reply.Ok?
            && chat.server.log == s.log + [
                 Message(p.username.value, p.message, p.fileUrl, postTime),
                 Message(p.username.value, p.message, None, socketTime)]
            && chat.delivery == Delivery(InRoom(s.sockets, p.roomCode.value), p)
  {
    var post := PostMessage(s.log, p, postTime, None);
    var first := Message(p.username.value, p.message, p.fileUrl, postTime);
    var second := Message(p.username.value, p.message, None, socketTime);
    assert post.log == s.log + [first];
    assert s.log + [first] + [second] == s.log + [first, second];
  }

  /**
   * One accepted send writes the log twice: the POST stores the message with its file, then the
   * socket handler stores `{ username, message }` again and emits the original object to the room.
   * For a file sent without text the second record has neither text nor file.
   */
  lemma OneSendTwoRecords(c: Client, storedFile: string, s: Server, postTime: int, socketTime: int)
    requires CanSend(c)
    ensures var p := Send(c, Some(Upload(Some(storedFile)).value)).value.payload;
            var post := PostMessage(s.log, p, postTime, None);
            var chat := ChatMessage(Server(s.sockets, post.log), p, socketTime, None);
            && post.reply.Ok?
            && chat.server.log == s.log + [
                 Message(c.username, Some(c.input), p.fileUrl, postTime),
                 Message(c.username, Some(c.input), None, socketTime)]
            && chat.delivery == Delivery(InRoom(s.sockets, c.roomCode), p)
            && (c.input == "" ==> !HasContent(chat.server.log[|chat.server.log| - 1]))
  {
    var url := Some(Upload(Some(storedFile)).value);
    assert url.value[0] == '/';
    SentPayloadAcceptable(c, url);
    var p := Send(c, url).value.payload;
    assert p.username == Some(c.username) && p.message == Some(c.input) && p.roomCode == Some(c.roomCode);
    PostThenEmit(s, p, postTime, socketTime);
  }

  /** A create request the client sends after the username screen passes the server's 400 check. */
  lemma ClientCreatePassesValidation(c: Client)
    requires c.step == RoomStep && PastUsername(c)
    requires CreateRequest(c).Some?
    ensures CreateAcceptable(Some(CreateRequest(c).value.name), Some(CreateRequest(c).value.username))
  {
    TrimmedNonBlankIsNonEmpty(c.username);
  }

  /** A join request the client sends after the username screen is answered 200 or 404, never 400. */
  lemma ClientJoinPassesValidation(c: Client, rooms: Registry)
    requires c.step == RoomStep && PastUsername(c)
    requires JoinRequest(c).Some?
    ensures JoinRoom(rooms, Some(JoinRequest(c).value.code), Some(JoinRequest(c).value.username)).reply.status in {200, 404}
  {
    TrimmedNonBlankIsNonEmpty(c.username);
    var body := JoinRequest(c).value;
    assert body.username == c.username && body.code != "";
    assert Truthy(Some(body.code)) && Truthy(Some(body.username));
    var r := JoinRoom(rooms, Some(body.code), Some(body.username));
    if body.code in rooms {
      assert r.reply.status == 200;
    } else {
      assert r.reply.status == 404;
    }
  }

  /**
   * A successful create answered to the client's request opens the chat on the new code, and
   * the client's socket then joins exactly that room.
   */
  lemma CreateReplyOpensSocket(c: Client, rooms: Registry, draws: seq<real>)
    requires c.step == RoomStep && PastUsername(c) && AllDraws(draws)
    requires CreateRequest(c).Some?
    ensures var body := CreateRequest(c).value;
            var r := CreateRoom(rooms, Some(body.name), Some(body.username), draws);
            r.Some? && r.value.reply.Ok? ==>
              && var c' := OnCreateReply(c, r.value.reply);
              && SocketJoin(c') == Some(r.value.reply.value.code)
              && c'.createdRoomCode == r.value.reply.value.code
              && r.value.reply.value.code !in rooms
              && PastUsername(c')
  {
    ClientCreatePassesValidation(c);
  }

  /**
   * A successful join answered to the client's request opens the chat on the normalised code the
   * client typed, and the client's socket then joins exactly that room.
   */
  lemma JoinReplyOpensSocket(c: Client, rooms: Registry)
    requires c.step == RoomStep && PastUsername(c) && WellFormed(rooms)
    requires JoinRequest(c).Some?
    ensures var body := JoinRequest(c).value;
            var reply := JoinRoom(rooms, Some(body.code), Some(body.username)).reply;
            reply.Ok? ==>
              && var c' := OnJoinReply(c, reply);
              && SocketJoin(c') == Some(body.code)
              && c'.roomCode == NormaliseCode(c.joinCode)
              && PastUsername(c')
  {
    var body := JoinRequest(c).value;
    var r := JoinRoom(rooms, Some(body.code), Some(body.username));
    if r.reply.Ok? {
      ClientJoinPassesValidation(c, rooms);
      assert body.code in rooms;
      assert r.reply.value.code == body.code;
    }
  }

  /**
   * A room mate whose socket joined through the client effect receives the message, with or
   * without a file, and appends it.
   */
  lemma RoomMateReceives(s: Server, id: SocketId, mate: Client, sender: Client, url: Field, now: int)
    requires id in s.sockets && SocketJoin(mate).Some?
    requires CanSend(sender) && sender.roomCode == mate.roomCode
    ensures var s' := JoinSocket(s, id, SocketJoin(mate).value);
            var p := Send(sender, url).value.payload;
            var d := ChatMessage(s', p, now, None).delivery;
            && id in d.recipients
            && OnIncoming(mate, d.payload).messages == mate.messages + [p]
  {
    TrimmedNonBlankIsNonEmpty(sender.username);
  }

  /** The three video endings contain no digit and no dash before their last character. */
  predicate SafeEnding(e: string) {
    && |e| >= 2
    && forall i :: 0 <= i < |e| - 1 ==> !IsDigit(e[i]) && e[i] != '-'
  }

  lemma VideoEndingsSafe()
    ensures SafeEnding(".mp4") && SafeEnding(".webm") && SafeEnding(".ogg")
  {
  }

  /**
   * After a dash and at least one digit, a name ends with a safe ending exactly when the
   * extension that follows does.
   */
  lemma EndingDecidedByExtension(pre: string, digits: string, ext: string, e: string)
    requires |digits| >= 1 && forall i :: 0 <= i < |digits| ==> IsDigit(digits[i])
    requires SafeEnding(e)
    ensures EndsWithIgnoringCase(pre + "-" + digits + ext, e) <==> EndsWithIgnoringCase(ext, e)
  {
    var f := pre + "-" + digits + ext;
    if |e| <= |ext| {
      assert f[|f| - |e|..] == ext[|ext| - |e|..];
    } else if |e| <= |f| {
      var w := f[|f| - |e|..];
      var q := |e| - |ext| - 1;
      assert w[q] == digits[|digits| - 1];
      if |ext| >= 1 {
        assert ToLower(w)[q] == w[q];
      } else {
        assert w[q - 1] == f[|f| - 2];
        assert f[|f| - 2] == '-' || IsDigit(f[|f| - 2]) by {
          if |digits| >= 2 { assert f[|f| - 2] == digits[|digits| - 2]; }
        }
        assert ToLower(w)[q - 1] == w[q - 1];
      }
    }
  }

  /**
   * The client shows an uploaded file as a video exactly when the original file's extension
   * is a video extension: the timestamp the server inserts never changes the verdict.
   */
  lemma UploadedMediaFollowsExtension(original: string, now: nat)
    ensures Classify(Upload(Some(StoredName(original, now))).value) == Classify(Extname(original))
  {
    var name := StoredName(original, now);
    StoredNameShape(original, now);
    assert Upload(Some(name)).value == UploadPrefix + name;
    StampedClassifiesByExtension(name, Stem(original), Decimal(now), Extname(original));
  }

  /** A dash and at least one digit before an extension never change how the URL is classified. */
  lemma StampedClassifiesByExtension(name: string, stem: string, digits: string, ext: string)
    requires name == stem + ("-" + digits) + ext
    requires |digits| >= 1 && forall i :: 0 <= i < |digits| ==> IsDigit(digits[i])
    ensures Classify(UploadPrefix + name) == Classify(ext)
  {
    var pre := UploadPrefix + stem;
    assert UploadPrefix + name == pre + "-" + digits + ext;
    VideoEndingsSafe();
    EndingDecidedByExtension(pre, digits, ext, ".mp4");
    EndingDecidedByExtension(pre, digits, ext, ".webm");
    EndingDecidedByExtension(pre, digits, ext, ".ogg");
  }

  /** Create "Team" as alice with a first draw of all zeroes, then bob joins with the code. */
  lemma CreateThenJoinScenario()
    ensures var created := CreateRoom(map[], Some("Team"), Some("alice"), [0.0, 0.0, 0.0, 0.0, 0.0, 0.0]);
            && created.Some?
            && created.value.reply == Ok(201, Room("Team", "AAAAAA", ["alice"]))
            && JoinRoom(created.value.rooms, Some("AAAAAA"), Some("bob")).reply
               == Ok(200, Room("Team", "AAAAAA", ["alice", "bob"]))
  {
    var draws := [0.0, 0.0, 0.0, 0.0, 0.0, 0.0];
    assert Spell(draws) == "AAAAAA";
    assert draws[0..6] == draws;
    assert Attempt(draws, 0) == "AAAAAA";
    var created := CreateRoom(map[], Some("Team"), Some("alice"), draws);
    var room := Room("Team", "AAAAAA", ["alice"]);
    assert created == Some(RoomResult(Ok(201, room), map["AAAAAA" := room]));
    assert "bob" !in room.members;
    assert AddMember(room.members, "bob") == ["alice", "bob"];
  }

  /** Sockets s1 and s2 joined room AAAAAA and s3 joined BBBBBB; alice's message reaches s1 and s2 only. */
  lemma BroadcastScenario(now: int)
    ensures var msg := ChatJson(Some("alice"), Some("hello"), None, Some("AAAAAA"));
            var r := ChatMessage(ScenarioSockets(), msg, now, None);
            && r.delivery.recipients == {"s1", "s2"}
            && r.server.log == [Message("alice", Some("hello"), None, now)]
  {
    var s := ScenarioSockets();
    var msg := ChatJson(Some("alice"), Some("hello"), None, Some("AAAAAA"));
    var r := ChatMessage(s, msg, now, None);
    assert r.delivery.recipients == InRoom(s.sockets, "AAAAAA");
  }

  /** Three fresh connections; s1 and s2 then join AAAAAA and s3 joins BBBBBB. */
  function ScenarioSockets(): (r: Server)
    ensures r.log == [] && InRoom(r.sockets, "AAAAAA") == {"s1", "s2"}
  {
    var s0 := Connected3(Server(map[], []));
    assert InRoom(s0.sockets, "AAAAAA") == {} by { assert "AAAAAA" !in {"s1", "s2", "s3"}; }
    ScenarioJoins(s0);
    JoinSocket(JoinSocket(JoinSocket(s0, "s1", "AAAAAA"), "s2", "AAAAAA"), "s3", "BBBBBB")
  }

  lemma ScenarioJoins(s0: Server)
    requires s0.sockets.Keys == {"s1", "s2", "s3"} && InRoom(s0.sockets, "AAAAAA") == {}
    ensures InRoom(JoinSocket(JoinSocket(JoinSocket(s0, "s1", "AAAAAA"), "s2", "AAAAAA"), "s3", "BBBBBB").sockets,
                   "AAAAAA") == {"s1", "s2"}
  {
    var a := JoinSocket(s0, "s1", "AAAAAA");
    var b := JoinSocket(a, "s2", "AAAAAA");
    assert InRoom(b.sockets, "AAAAAA") == {"s1", "s2"};
    assert "AAAAAA" != "BBBBBB";
  }

  /** Connections s1, s2 and s3 on a server that has none: only their own rooms have members. */
  function Connected3(s: Server): (r: Server)
    requires s.sockets == map[]
    ensures r.sockets.Keys == {"s1", "s2", "s3"}
    ensures forall room :: room !in {"s1", "s2", "s3"} ==> InRoom(r.sockets, room) == {}
  {
    Connect(Connect(Connect(s, "s1"), "s2"), "s3")
  }
}
