# Room chat: a Dafny model of the room, message and socket rules

This project models the core of a small room-based chat application. It has an HTTP room
registry (`/api/rooms/create`, `/api/rooms/join`) and an HTTP message log (`/api/messages`).
A socket layer delivers `chat message` events to the sockets that joined a room. On top of
these sit the client's decision rules: the screen steps, the request guards, the send guard,
the history filter and the media classification. The Mongo store, Express, socket.io and React
are replaced by immutable values:

- the rooms collection is a `map` from code to `Room`;
- the message log is a `seq<Message>`;
- the socket table is a `map` from socket id to the set of rooms the socket is in;
- the client is a record of the component state it reads and writes.

Each handler is a pure function from the old state to a reply and the new state.

External effects are parameters:
- `Math.random()` is an oracle sequence of reals in `[0, 1)`;
- `Date.now()` is a `now` argument;
- a failing store is an optional `storeError` message;
- the upload reply's URL is an argument of `Send`.

Modules, one per source file or component: `Values` (optional JSON fields, truthiness, replies),
`JsString` (trim, ASCII case mapping, decimal text), `RoomSchema`, `RoomRoutes`,
`MessageSchema`, `Wire` (the JSON shape of a chat message), `MessageRoutes`, `SocketServer`,
`Uploads`, `ClientApp`, and `EndToEnd` for properties that span several files.

## Where the code departs from the intended design

The model follows the code in each of these cases.

- Stored messages carry no room. The schema has no `roomCode` field, and neither the POST
  route nor the socket handler stores one. So the client's history filter
  `m.roomCode === roomCode || !m.roomCode` admits every stored message, in every room
  (`EndToEnd.HistoryIsNotRoomScoped`, `EndToEnd.OtherRoomSeesMessage`).
- One send from the client writes the log twice. First the client POSTs the message object,
  then it emits the same object on the socket, and the socket handler saves
  `{ username, message }` again. The second copy drops `fileUrl`, so for a file sent without
  text it has neither text nor file (`EndToEnd.OneSendTwoRecords`).
- The socket handler does not check the message content. It only relies on the schema's
  required `username`. When that save is refused, the awaited `save()` rejects inside an async
  listener that has no `catch`, so nothing after it runs: the event is neither stored nor
  delivered. That rejection is also unhandled (see `SocketServer.ChatMessage` under Left out).
- `/join` looks the code up exactly as received. Only the client trims and upper-cases it
  (`RoomRoutes.LookupIsExact`, `ClientApp.NormaliseIdempotent`).
- `socket.join` adds a room to a socket's set of rooms. A second `join room` therefore adds a
  second room; it does not replace the first. Joining a code that no room has succeeds; an
  event tagged with a stored room's code never matches that binding.
- socket.io puts every socket in a room named by its own id. A tagged `chat message` whose
  `roomCode` is the id of a live socket is therefore stored and delivered to that socket,
  though it never joined such a room (`SocketServer.OwnIdRoomReceives`).
- `GET /api/messages` returns the whole log, with no filtering by room.

## Model

| member | source | states |
|---|---|---|
| `JsString.TrimEmptyIff` | client/src/App.js:251 | a field trims to "" exactly when every character is ECMAScript white space, which is the blank test behind every `.trim()` guard |
| `JsString.DecimalRoundTrip` | server/index.js:32 | the decimal text written for the millisecond timestamp reads back as that number |
| `RoomSchema.CodesUnique` | server/models/Room.js:5 | in a consistent collection two different entries never share a room code |
| `RoomSchema.SchemaAdmitsRepeatedMembers` | server/models/Room.js:6 | the schema accepts a valid room whose member list repeats a name, so only the join handler prevents duplicates |
| `RoomRoutes.PickInRange` | server/routes/rooms.js:7-10 | `floor(r * 36)` lies in `[0, 36)` for every draw `r` in `[0, 1)` |
| `RoomRoutes.GenerateRoomCode` | server/routes/rooms.js:6-13 | the code has exactly `length` characters, all from `A-Z0-9`, and character i is the alphabet symbol draw i selects |
| `RoomRoutes.FirstFree` | server/routes/rooms.js:21-26 | the retry loop stops at the first pass whose code is not taken, every earlier pass collided, and if the oracle runs out every pass collided |
| `RoomRoutes.CreateRoom` | server/routes/rooms.js:16-30 | 400 with the collection unchanged unless name and username are both truthy; otherwise 201 with a room whose code is the one drawn on the first pass of the retry loop that found no stored room (so it is 6 symbols of `A-Z0-9` and was absent before), named as given, with `members == [username]`, added under its code; keeps the collection well formed and every stored code drawn from `A-Z0-9` |
| `RoomRoutes.JoinRoom` | server/routes/rooms.js:33-47 | 400 or 404 leave the collection unchanged; success returns 200 with the stored room, appends the username only when absent, keeps name and code, touches no other room, keeps member lists free of repeats and adds no code |
| `RoomRoutes.JoinIdempotent` | server/routes/rooms.js:42-46 | joining twice with the same code and username gives the same reply and collection as joining once |
| `RoomRoutes.JoinedExactlyOnce` | server/routes/rooms.js:42-45 | after a successful join the username occurs exactly once in the room's member list |
| `RoomRoutes.LookupIsExact` | server/routes/rooms.js:38-41 | when every stored code was generated, a typed code that differs from a stored code but upper-cases to it (so it has a lower-case letter) is answered 404: the lookup does not fold case |
| `MessageSchema.Save` | server/models/Message.js:3-8 | a document saves exactly when `username` is truthy; the stored record has that username, the given text and file, and the creation time as timestamp |
| `MessageRoutes.PostMessage` | server/routes/messages.js:16-28 | 400 exactly when username is falsy or both text and file are falsy; 500 on a store failure; both leave the log unchanged; otherwise 201 with one appended record that carries the body's username, text and file and has content |
| `MessageRoutes.PostIgnoresRoomCode` | server/routes/messages.js:17-22 | the `roomCode` of a POST body has no effect on the reply or the log |
| `MessageRoutes.SortByTime` | server/routes/messages.js:8 | the listing is a permutation of the log in non-decreasing timestamp order |
| `MessageRoutes.ListMessages` | server/routes/messages.js:6-13 | GET answers 500 with the store's message on failure, otherwise 200 with every stored message in non-decreasing timestamp order |
| `SocketServer.Connect` | server/index.js:59-60 | a new socket is live and in the room named by its own id and no other, so no other room's recipient set changes; every live socket stays in its own room |
| `SocketServer.JoinSocket` | server/index.js:62-65 | `join room` adds the socket to that room's recipients and changes no other room and no stored message; every live socket stays in its own room |
| `SocketServer.Disconnect` | server/index.js:79-81 | a disconnected socket leaves every room and the live table; the log is untouched; every remaining socket stays in its own room |
| `SocketServer.ChatMessage` | server/index.js:67-77 | an untagged event goes unchanged to every live socket and is not stored; a tagged event is stored as `{username, message}` without file or room and goes unchanged to exactly the sockets in its room; a refused save stores and delivers nothing |
| `SocketServer.JoinedSocketReceives` | server/index.js:62-73 | a socket that joined the event's room is a recipient, and after disconnecting it is not |
| `SocketServer.OwnIdRoomReceives` | server/index.js:59-73 | a tagged event whose room is a live socket's id reaches that socket, which never joined it, and is stored |
| `SocketServer.SocketCopyDropsFile` | server/index.js:71-72 | a tagged event with a file and no text is stored as one record with no content |
| `Uploads.StoredName` | server/index.js:29-33 | the stored filename is the original name's stem, a dash, then the canonical decimal text of the upload time (only digits, reading back as that time, no leading zero unless it is 0), then the original extension |
| `Uploads.Upload` | server/index.js:41-45 | no file gives 400; otherwise 200 with `/uploads/` followed by the stored filename |
| `Uploads.StoredNameKeepsExtension` | server/index.js:30-32 | the stored filename has the same `path.extname` as the original name, for every name other than ".." |
| `Uploads.DotDotGainsExtension` | server/index.js:30-32 | for the name "..", the stored filename's extension is a dot, a dash and the timestamp digits |
| `ClientApp.Continue` | client/src/App.js:251 | the username screen advances to the room screen exactly when the username is not blank, and changes nothing else |
| `ClientApp.CreateRequest` | client/src/App.js:174-182 | no request for a blank room name; otherwise a request with the room name as typed and the username |
| `ClientApp.JoinRequest` | client/src/App.js:196-204 | no request for a blank code; otherwise the code is sent trimmed and upper-cased, and is non-empty |
| `ClientApp.NormaliseIdempotent` | client/src/App.js:203 | normalising an already normalised code leaves it unchanged |
| `ClientApp.OnCreateReply` | client/src/App.js:183-190 | on the room screen, a successful create sets the current and the shared room code to the server's code and moves to the chat step, and changes nothing else; a failure changes nothing |
| `ClientApp.OnJoinReply` | client/src/App.js:205-211 | on the room screen, a successful join sets the current room code to the server's code and moves to the chat step, and changes nothing else; a failure changes nothing |
| `ClientApp.SocketJoin` | client/src/App.js:148-151 | the client emits `join room` exactly in the chat step with a room, and names that room |
| `ClientApp.Send` | client/src/App.js:217-239 | nothing is sent unless (text is not blank or a file is chosen), the username is not blank and a room is set; otherwise the object carries username, raw text, room and the uploaded URL only with a file, and text and file are cleared |
| `ClientApp.OnIncoming` | client/src/App.js:152-153 | an incoming socket message is appended after the shown messages, which stay as they were |
| `ClientApp.History` | client/src/App.js:165 | the displayed history holds exactly the fetched messages whose room is the current one or absent |
| `ClientApp.HistoryOfConcat` | client/src/App.js:165 | the filter keeps relative order: filtering a concatenation concatenates the filtered parts |
| `ClientApp.HistoryKeepsAll` | client/src/App.js:165 | when every fetched message passes the filter, the history is the fetched list itself |
| `ClientApp.ClassifyIgnoresCase` | client/src/App.js:295 | upper-casing a URL never changes whether it shows as video or image |
| `ClientApp.Render` | client/src/App.js:289-301 | a bubble is own exactly when its username equals the client's; text shows only when truthy; a preview shows only for a truthy file URL, as video exactly for the `.mp4`/`.webm`/`.ogg` endings in any case |
| `EndToEnd.HistoryIsNotRoomScoped` | client/src/App.js:160-166 | the GET listing passes the history filter unchanged for every room code, because stored messages have no room |
| `EndToEnd.OtherRoomSeesMessage` | server/index.js:69-72 | a message saved from a chat in one room appears in the history shown in any other room |
| `EndToEnd.SentPayloadAcceptable` | client/src/App.js:219-232 | an object the send guard lets out passes the POST guard and has a truthy room and username |
| `EndToEnd.PostThenEmit` | server/index.js:69-73 | a POST followed by the socket event for the same object appends two records, the second without file, and delivers the object to the room |
| `EndToEnd.OneSendTwoRecords` | client/src/App.js:232-238 | one accepted client send appends exactly two log records and reaches exactly the room's sockets; for a file without text the second record has no content |
| `EndToEnd.ClientCreatePassesValidation` | client/src/App.js:176-181 | a create request the client sends after the username screen satisfies the server's create guard |
| `EndToEnd.ClientJoinPassesValidation` | client/src/App.js:198-203 | a join request the client sends after the username screen is answered 200 or 404, never 400 |
| `EndToEnd.CreateReplyOpensSocket` | client/src/App.js:148-151 | after a successful create of the client's own request, the client's socket joins exactly the new code, which is the shared code and was free before |
| `EndToEnd.JoinReplyOpensSocket` | client/src/App.js:148-151 | after a successful join of the client's own request on a well-formed collection, the client's socket joins exactly the trimmed, upper-cased code it typed |
| `EndToEnd.RoomMateReceives` | server/index.js:73 | a client whose socket joined the room receives a room mate's message, with or without a file, and appends it unchanged to its list |
| `EndToEnd.UploadedMediaFollowsExtension` | client/src/App.js:295 | an uploaded file shows as video exactly when its original extension is a video extension; the inserted timestamp never changes this |
| `EndToEnd.CreateThenJoinScenario` | server/routes/rooms.js:16-47 | creating "Team" as alice with all-zero draws gives code AAAAAA, and bob's join gives members alice, bob |
| `EndToEnd.BroadcastScenario` | server/index.js:59-76 | with sockets s1 and s2 joined to AAAAAA and s3 to BBBBBB, alice's tagged message reaches s1 and s2 only and adds one record |

## Left out

- `RoomRoutes.CreateRoom`: the handler retries without bound. The model reads attempts from a
  finite oracle and returns `None` when the oracle runs out before a free code, so termination
  of the real loop is not modelled.
- `MessageRoutes.ListMessages`: the store does not promise an order among equal timestamps. The
  model keeps insertion order for ties, which is one admissible answer.
- `Uploads.StoredName`: `Extname` and `Stem` follow Node's `path.extname` and `path.basename`
  only for names without '/'. Browsers report upload names without directory parts.
- `ClientApp.JoinRequest`: `toUpperCase` is modelled on ASCII letters only. Non-ASCII case
  mapping, and mappings that change the string's length, are not modelled.
- `RoomRoutes.GenerateRoomCode`: reals stand in for IEEE doubles in `Math.random() * 36`, and
  the model multiplies exactly. For 18 of the 36 boundaries k/36, the largest double below k/36
  (for k = 1 it is 0x1.c71c71c71c71cp-6) times 36 rounds up to k in double arithmetic, so
  JavaScript picks symbol k where the exact product picks k - 1. Rounding never reaches 36, so
  every symbol is still from `A-Z0-9`; only which symbol such a draw selects differs.
- JSON values that are not strings (numbers, objects) in request bodies and events are not
  modelled. A field is either absent (or `null`) or a string.
- Error texts are kept only for the server replies. The client's error messages, the `error`
  state, scrolling, styling and the `fetch`/`async` ordering in the client are not modelled.
- `RoomRoutes.CreateRoom`: store failures in `findOne` or `save` are not modelled; the room
  store is assumed to succeed. The routes are async handlers with no `catch`. Under Express 4
  such a failure is an unhandled promise rejection: the request gets no reply, and on Node 15
  or later the server process ends. Express 5 would answer 500 instead.
- `RoomRoutes.JoinRoom`: the same holds for a failing `findOne` or `save` in the join route.
- `SocketServer.ChatMessage`: a refused save (no username, or a store failure) rejects inside the
  async listener, which has no `catch`. The model stores and delivers nothing and keeps the
  server with its sockets. On Node 15 or later the unhandled rejection ends the server process,
  which drops every socket; that crash is not modelled.
- `SocketServer.Connect`: socket ids are chosen by the caller rather than drawn at random.
- The concurrency of many clients is not modelled: each handler runs as one atomic step. This
  covers racing creates that draw the same code, which the unique index would reject at save.
- Express routing, CORS, JSON parsing, static file serving, the Mongo connection, multer's disk
  writes and the socket.io transport are not modelled.
