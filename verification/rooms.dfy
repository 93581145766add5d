/** The room routes: code generation, `/create` and `/join` (server/routes/rooms.js). */
module RoomRoutes {
  import opened Values
  import opened RoomSchema
  import JsString

  const Alphabet := "ABCDEFGHIJKLMNOPQRSTUVWXYZ0123456789"
  const CodeLength: nat := 6
  const CreateRequired := "Room name and username are required"
  const JoinRequired := "Room code and username are required"
  const RoomNotFound := "Room not found"

  /** A reply together with the collection as it stands afterwards. */
  datatype RoomResult = RoomResult(reply: Reply<Room>, rooms: Registry)

  /** A value `Math.random()` can return. */
  predicate IsDraw(x: real) {
    0.0 <= x < 1.0
  }

  predicate AllDraws(xs: seq<real>) {
    forall i :: 0 <= i < |xs| ==> IsDraw(xs[i])
  }

  /** `Math.floor(x * chars.length)`: the alphabet position a draw selects. */
  function Pick(x: real): int {
    (x * (|Alphabet| as real)).Floor
  }

  /** A draw always selects a position inside the alphabet. */
  lemma PickInRange(x: real)
    requires IsDraw(x)
    ensures 0 <= Pick(x) < |Alphabet|
  {
  }

  /** `String.prototype.charAt`: the one-character string at `i`, or "" outside the string. */
  function CharAt(s: string, i: int): string {
    if 0 <= i < |s| then [s[i]] else ""
  }

  predicate InAlphabet(code: string) {
    forall i :: 0 <= i < |code| ==> code[i] in Alphabet
  }

  /** Every stored code came from the generator, so it is spelled over the alphabet. */
  predicate CodesGenerated(rooms: Registry) {
    forall c :: c in rooms ==> InAlphabet(c)
  }

  /** Reference reading of a code: one alphabet symbol per draw. */
  function Spell(draws: seq<real>): (code: string)
    requires AllDraws(draws)
  {
    seq(|draws|, i requires 0 <= i < |draws| => Alphabet[Pick(draws[i])])
  }

  /** `generateRoomCode(length)`, drawing from the oracle `draws` instead of `Math.random`. */
  method GenerateRoomCode(draws: seq<real>, length: nat) returns (code: string)
    requires length <= |draws| && AllDraws(draws)
    ensures |code| == length && InAlphabet(code)
    ensures code == Spell(draws[..length])
  {
    code := "";
    var i := 0;
    while i < length
      invariant 0 <= i <= length
      invariant code == Spell(draws[..i])
    {
      PickInRange(draws[i]);
      code := code + CharAt(Alphabet, Pick(draws[i]));
      i := i + 1;
    }
  }

  /** The code the `k`-th pass of the retry loop draws. */
  function Attempt(draws: seq<real>, k: nat): (code: string)
    requires AllDraws(draws) && (k + 1) * CodeLength <= |draws|
  {
    Spell(draws[k * CodeLength..(k + 1) * CodeLength])
  }

  /** The retry loop from pass `k` on: the first pass whose code is not taken, if the oracle reaches one. */
  function FirstFree(rooms: Registry, draws: seq<real>, k: nat): (r: Option<nat>)
    requires AllDraws(draws)
    ensures r.Some? ==>
      && k <= r.value && (r.value + 1) * CodeLength <= |draws|
      && Attempt(draws, r.value) !in rooms
      && forall j :: k <= j < r.value ==> Attempt(draws, j) in rooms
    ensures r.None? ==>
      forall j :: k <= j && (j + 1) * CodeLength <= |draws| ==> Attempt(draws, j) in rooms
    decreases |draws| - k * CodeLength
  {
    if |draws| < (k + 1) * CodeLength then None
    else if Attempt(draws, k) !in rooms then Some(k)
    else FirstFree(rooms, draws, k + 1)
  }

  /** The `/create` guard: both fields truthy. */
  predicate CreateAcceptable(name: Field, username: Field) {
    Truthy(name) && Truthy(username)
  }

  /**
   * POST `/create`. `None` means the oracle ran out before a free code came up,
   * where the handler itself would keep drawing.
   */
  function CreateRoom(rooms: Registry, name: Field, username: Field, draws: seq<real>): (r: Option<RoomResult>)
    requires AllDraws(draws)
    ensures !CreateAcceptable(name, username) ==>
      r == Some(RoomResult(Error(400, CreateRequired), rooms))
    ensures CreateAcceptable(name, username) && r.Some? ==>
      && r.value.reply.Ok? && r.value.reply.status == 201
      && var room := r.value.reply.value;
      && room.code !in rooms
      && |room.code| == CodeLength && InAlphabet(room.code)
      && room.name == name.value && room.members == [username.value]
      && r.value.rooms == rooms[room.code := room]
    ensures CreateAcceptable(name, username) && r.Some? ==>
      && FirstFree(rooms, draws, 0).Some?
      && r.value.reply.value.code == Attempt(draws, FirstFree(rooms, draws, 0).value)
    ensures CreateAcceptable(name, username) && r.None? ==>
      forall j: nat :: (j + 1) * CodeLength <= |draws| ==> Attempt(draws, j) in rooms
    ensures r.Some? && WellFormed(rooms) ==> WellFormed(r.value.rooms)
    ensures r.Some? && CodesGenerated(rooms) ==> CodesGenerated(r.value.rooms)
  {
    if !CreateAcceptable(name, username) then
      Some(RoomResult(Error(400, CreateRequired), rooms))
    else
      match FirstFree(rooms, draws, 0)
      case None => None
      case Some(k) =>
        var room := Room(name.value, Attempt(draws, k), [username.value]);
        Some(RoomResult(Ok(201, room), rooms[room.code := room]))
  }

  /** `room.members.includes(username) ? members : members + [username]`. */
  function AddMember(members: seq<string>, username: string): seq<string> {
    if username in members then members else members + [username]
  }

  /** POST `/join`: the code is looked up exactly as given. */
  function JoinRoom(rooms: Registry, code: Field, username: Field): (r: RoomResult)
    ensures !(Truthy(code) && Truthy(username)) ==> r == RoomResult(Error(400, JoinRequired), rooms)
    ensures Truthy(code) && Truthy(username) && code.value !in rooms ==>
      r == RoomResult(Error(404, RoomNotFound), rooms)
    ensures Truthy(code) && Truthy(username) && code.value in rooms ==>
      && var before := rooms[code.value];
      && r.rooms.Keys == rooms.Keys
      && r.reply == Ok(200, r.rooms[code.value])
      && (forall c :: c in rooms && c != code.value ==> r.rooms[c] == rooms[c])
      && r.rooms[code.value].name == before.name
      && r.rooms[code.value].code == before.code
      && username.value in r.rooms[code.value].members
      && (username.value in before.members ==> r.rooms == rooms)
      && (username.value !in before.members ==> r.rooms[code.value].members == before.members + [username.value])
    ensures WellFormed(rooms) ==> WellFormed(r.rooms)
    ensures CodesGenerated(rooms) ==> CodesGenerated(r.rooms)
  {
    if !(Truthy(code) && Truthy(username)) then RoomResult(Error(400, JoinRequired), rooms)
    else if code.value !in rooms then RoomResult(Error(404, RoomNotFound), rooms)
    else
      var room := rooms[code.value];
      var updated := room.(members := AddMember(room.members, username.value));
      var rooms' := rooms[code.value := updated];
      RoomResult(Ok(200, updated), rooms')
  }

  /** Joining again with the same code and username changes nothing and returns the same room. */
  lemma JoinIdempotent(rooms: Registry, code: Field, username: Field)
    ensures var once := JoinRoom(rooms, code, username);
            JoinRoom(once.rooms, code, username) == once
  {
  }

  /** After a successful join the username occurs exactly once in the room, however often it joined. */
  lemma {:induction false} JoinedExactlyOnce(rooms: Registry, code: Field, username: Field)
    requires WellFormed(rooms)
    requires JoinRoom(rooms, code, username).reply.Ok?
    ensures var members := JoinRoom(rooms, code, username).reply.value.members;
            multiset(members)[username.value] == 1
  {
    var r := JoinRoom(rooms, code, username);
    assert r.reply.value == r.rooms[code.value];
    OccursOnce(r.reply.value.members, username.value);
  }

  /** In a list without repeats, a listed name occurs exactly once. */
  lemma {:induction false} OccursOnce(s: seq<string>, x: string)
    requires NoDuplicates(s) && x in s
    ensures multiset(s)[x] == 1
  {
    assert s == [s[0]] + s[1..];
    if s[0] == x {
      assert x !in s[1..] by {
        forall j | 0 <= j < |s| - 1 ensures s[1..][j] != x {
          assert s[1..][j] == s[j + 1];
        }
      }
    } else {
      OccursOnce(s[1..], x);
    }
  }

  /** The server does not normalise codes: typing a stored code in lower case is answered 404. */
  lemma LookupIsExact(rooms: Registry, stored: string, typed: string, username: string)
    requires CodesGenerated(rooms)
    requires stored in rooms && JsString.ToUpper(typed) == stored && typed != stored
    requires username != ""
    ensures JoinRoom(rooms, Some(typed), Some(username)).reply == Error(404, RoomNotFound)
  {
    var i :| 0 <= i < |typed| && typed[i] != stored[i];
    assert stored[i] == JsString.UpperChar(typed[i]);
    assert 'a' <= typed[i] <= 'z';
    LowerCaseNotInAlphabet(typed[i]);
    assert typed != "";
    assert typed !in rooms;
  }

  /** No lower-case letter is a code symbol. */
  lemma LowerCaseNotInAlphabet(c: char)
    requires 'a' <= c <= 'z'
    ensures c !in Alphabet
  {
    forall i | 0 <= i < |Alphabet| ensures Alphabet[i] != c {
    }
  }
}
