/** The client's decision rules (client/src/App.js), without rendering or networking. */
module ClientApp {
  import opened Values
  import opened JsString
  import opened Wire
  import RoomSchema

  /** The three screens: enter a username, pick a room, chat. */
  datatype Step = UsernameStep | RoomStep | ChatStep

  /** The component state that the rules read and write. An empty `roomCode` means no room yet. */
  datatype Client = Client(
    step: Step,
    username: string,
    roomName: string,
    joinCode: string,
    roomCode: string,
    createdRoomCode: string,
    input: string,
    file: bool,
    messages: seq<ChatJson>)

  /** The client has passed the username screen with a username that is not blank. */
  predicate PastUsername(c: Client) {
    c.step != UsernameStep ==> Trim(c.username) != ""
  }

  /** "Continue": moves on to the room screen only with a username that is not blank. */
  function Continue(c: Client): (r: Client)
    requires c.step == UsernameStep
    ensures r.step == RoomStep <==> !AllSpace(c.username)
    ensures r == c.(step := r.step)
    ensures PastUsername(r)
  {
    TrimEmptyIff(c.username);
    if Trim(c.username) != "" then c.(step := RoomStep) else c
  }

  datatype CreateBody = CreateBody(name: string, username: string)
  datatype JoinBody = JoinBody(code: string, username: string)

  /** `handleCreateRoom`: no request for a blank room name; otherwise the name is sent as typed. */
  function CreateRequest(c: Client): (r: Option<CreateBody>)
    ensures r.None? <==> AllSpace(c.roomName)
    ensures r.Some? ==> r.value == CreateBody(c.roomName, c.username)
  {
    TrimEmptyIff(c.roomName);
    if Trim(c.roomName) == "" then None else Some(CreateBody(c.roomName, c.username))
  }

  /** The code the join form sends: `joinCode.trim().toUpperCase()`. */
  function NormaliseCode(typed: string): string {
    ToUpper(Trim(typed))
  }

  /** `handleJoinRoom`: no request for a blank code; otherwise the normalised code is sent. */
  function JoinRequest(c: Client): (r: Option<JoinBody>)
    ensures r.None? <==> AllSpace(c.joinCode)
    ensures r.Some? ==> r.value == JoinBody(NormaliseCode(c.joinCode), c.username) && r.value.code != ""
  {
    TrimEmptyIff(c.joinCode);
    if Trim(c.joinCode) == "" then None else Some(JoinBody(NormaliseCode(c.joinCode), c.username))
  }

  /** Normalising a code that was already normalised leaves it as it is. */
  lemma {:induction false} NormaliseIdempotent(typed: string)
    ensures NormaliseCode(NormaliseCode(typed)) == NormaliseCode(typed)
  {
    var t := Trim(typed);
    var u := ToUpper(t);
    if u != [] {
      TrimmedEnds(typed);
      assert u[0] == UpperChar(t[0]);
      assert u[|u| - 1] == UpperChar(t[|t| - 1]);
    }
    AlreadyTrimmed(u);
    UpperIdempotent(t);
  }

  /** A trimmed string starts and ends with a non-space. */
  lemma TrimmedEnds(s: string)
    ensures var t := Trim(s); t == [] || (!IsSpace(t[0]) && !IsSpace(t[|t| - 1]))
  {
    var h := TrimStart(s);
    var t := TrimEnd(h);
    if t != [] {
      assert t[0] == h[0];
    }
  }

  /** A string with no white space at either end trims to itself. */
  lemma AlreadyTrimmed(s: string)
    requires s == [] || (!IsSpace(s[0]) && !IsSpace(s[|s| - 1]))
    ensures Trim(s) == s
  {
  }

  lemma UpperIdempotent(s: string)
    ensures ToUpper(ToUpper(s)) == ToUpper(s)
  {
  }

  /**
   * A create reply on the room screen: on success the room's code becomes current, is shown as the
   * code to share, and the chat step opens; nothing else changes. A failure changes nothing here.
   */
  function OnCreateReply(c: Client, reply: Reply<RoomSchema.Room>): (r: Client)
    requires c.step == RoomStep
    ensures reply.Ok? ==> r.step == ChatStep && r.roomCode == reply.value.code && r.createdRoomCode == reply.value.code
    ensures r.(roomCode := c.roomCode, createdRoomCode := c.createdRoomCode, step := c.step) == c
    ensures reply.Error? ==> r == c
  {
    if reply.Ok? then c.(roomCode := reply.value.code, createdRoomCode := reply.value.code, step := ChatStep) else c
  }

  /**
   * A join reply on the room screen: on success the room's code becomes current and the chat step
   * opens; nothing else changes. A failure changes nothing here.
   */
  function OnJoinReply(c: Client, reply: Reply<RoomSchema.Room>): (r: Client)
    requires c.step == RoomStep
    ensures reply.Ok? ==> r.step == ChatStep && r.roomCode == reply.value.code
    ensures r.(roomCode := c.roomCode, step := c.step) == c
    ensures reply.Error? ==> r == c
  {
    if reply.Ok? then c.(roomCode := reply.value.code, step := ChatStep) else c
  }

  /** The effect that opens the socket: in the chat step with a room, it emits `join room`. */
  function SocketJoin(c: Client): (r: Option<string>)
    ensures r.Some? <==> c.step == ChatStep && c.roomCode != ""
    ensures r.Some? ==> r.value == c.roomCode
  {
    if c.step == ChatStep && c.roomCode != "" then Some(c.roomCode) else None
  }

  /** The send guard: (text or file), a username that is not blank, and a room. */
  predicate CanSend(c: Client) {
    (Trim(c.input) != "" || c.file) && Trim(c.username) != "" && c.roomCode != ""
  }

  /** What one send produces: the message object posted and emitted, and the state afterwards. */
  datatype Sent = Sent(payload: ChatJson, client: Client)

  /** `sendMessage`, given the URL the upload reply carried, if any. */
  function Send(c: Client, uploadedUrl: Field): (r: Option<Sent>)
    ensures r.None? <==> !CanSend(c)
    ensures r.Some? ==>
      && r.value.payload.username == Some(c.username)
      && r.value.payload.message == Some(c.input)
      && r.value.payload.roomCode == Some(c.roomCode)
      && r.value.payload.fileUrl == (if c.file then uploadedUrl else None)
      && r.value.client == c.(input := "", file := false)
  {
    if !CanSend(c) then None
    else
      var payload := ChatJson(Some(c.username), Some(c.input), if c.file then uploadedUrl else None, Some(c.roomCode));
      Some(Sent(payload, c.(input := "", file := false)))
  }

  /** A `chat message` arriving on the socket is appended after everything already shown. */
  function OnIncoming(c: Client, msg: ChatJson): (r: Client)
    ensures |r.messages| == |c.messages| + 1
    ensures r.messages[..|c.messages|] == c.messages && r.messages[|c.messages|] == msg
    ensures r == c.(messages := r.messages)
  {
    c.(messages := c.messages + [msg])
  }

  /** The history filter: `m.roomCode === roomCode || !m.roomCode`. */
  predicate Keep(m: ChatJson, roomCode: string) {
    m.roomCode == Some(roomCode) || !Truthy(m.roomCode)
  }

  /** The fetched history, restricted to what `Keep` admits. */
  function History(data: seq<ChatJson>, roomCode: string): (r: seq<ChatJson>)
    ensures |r| <= |data|
    ensures forall m :: m in r <==> m in data && Keep(m, roomCode)
  {
    if data == [] then []
    else
      assert data == [data[0]] + data[1..];
      (if Keep(data[0], roomCode) then [data[0]] else []) + History(data[1..], roomCode)
  }

  /** The filter keeps relative order: filtering a concatenation filters each part. */
  lemma {:induction false} HistoryOfConcat(a: seq<ChatJson>, b: seq<ChatJson>, roomCode: string)
    ensures History(a + b, roomCode) == History(a, roomCode) + History(b, roomCode)
  {
    if a == [] {
      assert a + b == b;
    } else {
      assert (a + b)[0] == a[0];
      assert (a + b)[1..] == a[1..] + b;
      HistoryOfConcat(a[1..], b, roomCode);
    }
  }

  /** When every fetched message passes the filter, the history is the whole list in its order. */
  lemma {:induction false} HistoryKeepsAll(data: seq<ChatJson>, roomCode: string)
    requires forall i :: 0 <= i < |data| ==> Keep(data[i], roomCode)
    ensures History(data, roomCode) == data
  {
    if data != [] {
      HistoryKeepsAll(data[1..], roomCode);
    }
  }

  /** How a file preview is rendered. */
  datatype Media = Video | Image

  /** A case-insensitive suffix test against a lower-case suffix. */
  predicate EndsWithIgnoringCase(s: string, suffix: string) {
    |suffix| <= |s| && ToLower(s[|s| - |suffix|..]) == suffix
  }

  predicate IsVideoUrl(url: string) {
    EndsWithIgnoringCase(url, ".mp4") || EndsWithIgnoringCase(url, ".webm") || EndsWithIgnoringCase(url, ".ogg")
  }

  /** `/\.(mp4|webm|ogg)$/i`: a video for those endings in any case, an image otherwise. */
  function Classify(url: string): Media {
    if IsVideoUrl(url) then Video else Image
  }

  lemma LowerOfUpper(c: char)
    ensures LowerChar(UpperChar(c)) == LowerChar(c)
  {
  }

  /** Lower-casing forgets an earlier upper-casing, on every suffix. */
  lemma LowerOfUpperSuffix(url: string, n: nat)
    requires n <= |url|
    ensures ToLower(ToUpper(url)[|url| - n..]) == ToLower(url[|url| - n..])
  {
    var u := ToUpper(url)[|url| - n..];
    var v := url[|url| - n..];
    forall i | 0 <= i < n ensures ToLower(u)[i] == ToLower(v)[i] {
      LowerOfUpper(v[i]);
    }
  }

  /** Changing the case of a URL never changes how it is rendered. */
  lemma ClassifyIgnoresCase(url: string)
    ensures Classify(ToUpper(url)) == Classify(url)
  {
    if 4 <= |url| { LowerOfUpperSuffix(url, 4); }
    if 5 <= |url| { LowerOfUpperSuffix(url, 5); }
  }

  /** One rendered bubble. */
  datatype Bubble = Bubble(own: bool, author: Field, text: Field, media: Option<Media>)

  /** The bubble for `msg` as seen by `me`: own side, text when present, preview when a file is present. */
  function Render(msg: ChatJson, me: string): (b: Bubble)
    ensures b.own <==> msg.username == Some(me)
    ensures b.author == msg.username
    ensures b.text.Some? <==> Truthy(msg.message)
    ensures b.text.Some? ==> b.text == msg.message
    ensures b.media.Some? <==> Truthy(msg.fileUrl)
    ensures b.media == Some(Video) <==> Truthy(msg.fileUrl) && IsVideoUrl(msg.fileUrl.value)
  {
    Bubble(
      msg.username == Some(me),
      msg.username,
      if Truthy(msg.message) then msg.message else None,
      if Truthy(msg.fileUrl) then Some(Classify(msg.fileUrl.value)) else None)
  }
}
