# Chat broadcast hub and echo transformer, in Dafny

This project models the two pieces of logic in a small Express chat server
(`app.js`):

- **The chat hub.** One process-wide `EventEmitter` holds a `message` listener
  per open server-sent-events session. `GET /sse` writes the stream head,
  registers a fresh listener that writes `data: <msg>` and a blank line to that
  session's response, and removes the listener when the response closes.
  `GET /chat?message=…` emits the message to every listener, but only when the
  value is truthy (present and non-empty).
- **The echo transformer.** `GET /echo?input=…` answers with the input
  unchanged, its length and its reversed form.

Modules:

- `Wrappers` (`wrappers.dfy`): `Option`, the shape a query value arrives in.
- `EventStream` (`event_stream.dfy`): the frame a message becomes
  (`Frame`), a reader that turns a stream of such frames back into messages
  (`ParseEvents`), and the round trip between them. The frame is the `data`
  field line of the server-sent events format, WHATWG HTML Living Standard,
  section 9.2, followed by the blank line that dispatches the event.
- `Echo` (`echo.dfy`): the echo reply as a pure function, with its
  reversal and length laws. The runtime's strings are sequences of UTF-16
  code units, and `length` and `split('')` work unit by unit, so the echo text
  is a sequence of `CodeUnit` values (0 to FFFF), surrogate halves included.
- `HubSpec` (`hub_spec.dfy`): the hub as a value (`State`: listener list,
  every session's sink, next session id) with one pure function per
  operation, and a per-session reference description of a whole history of
  connects, disconnects and chat requests (`Registered`, `Received`). The
  theorem `RunFaithful` says that the hub after any history holds, for every
  session, exactly the frames of the messages published while that session
  was connected, in publish order.
- `ChatServer` (`hub.dfy`): the hub as a class whose fields the methods
  update in place. `Publish` loops over the listeners registered when the
  emit starts, as the emitter does. The postconditions of the constructor,
  `OpenSession`, `CloseSession` and `Chat` say that the new state is
  `HubSpec.Init`, or one `HubSpec.Step` from the old one for the matching
  event. `HubSpec.RunSnoc` shows that one more step is `Run` of the history
  with one more event, so any sequence of those calls on a fresh `Hub` ends in
  `HubSpec.Run` of the matching history, and `RunFaithful` and the lemmas
  beside it apply. `Publish` stands for the emitter's `emit`, which only a chat
  request calls, and only with a truthy message (app.js:86-87); it is not an
  event of its own, and a direct call with the empty message would publish
  what a chat request never does.

A session id stands for the listener closure's identity. Each connection
creates a new closure, so ids are handed out fresh from a counter and the
listener list never holds one twice. A closed session's sink stays in `sinks`:
it keeps what was written to it and gets nothing more.

Two behaviours of the code worth naming:

- A robust hub would isolate a failing subscriber so that the others still
  get the message. This code has no `try`/`catch`, and the emitter calls
  listeners plainly, so there is no such isolation. The model has no failing
  writes at all.
- Removing a listener that is not registered does nothing. `CloseSession` on
  an id that is not listed is likewise a no-op.

## Model

| member | source | states |
|---|---|---|
| `EventStream.Frame` | app.js:106 | the frame is `data: ` then the message then two LFs (LF, not CR), of length \|m\| + 8; for a message without CR or LF the only line terminators are the last two characters, so it is one data line and one blank line |
| `EventStream.ReadFrame` | app.js:106 | when the front of a stream is read as a frame, its text has no line break and the characters it consumed are exactly that text's frame |
| `EventStream.ReadOneFrame` | app.js:106 | the frame of a single-line message at the front of any stream is read back as that message, consuming \|m\| + 8 characters |
| `EventStream.ParseEvents` | app.js:106 | whatever the reader accepts is exactly the concatenation of the frames of single-line messages, in order |
| `EventStream.ParseOneFrame` | app.js:106 | reading the frame of a single-line message off the front of a stream yields that message, then whatever the rest of the stream reads as |
| `EventStream.ParseFramed` | app.js:105-107 | the stream a sink receives reads back as exactly the messages written to it, in order, when none contains a line break |
| `EventStream.FrameJoin` | app.js:106 | the frame of `a`, a blank line, `data: ` and `b` is character for character the frame of `a` followed by the frame of `b` |
| `EventStream.NewlineSplitsMessage` | app.js:106 | one chat message `a` LF LF `data: ` `b` (a, b single-line) reaches a viewer as the two events `a` and `b` |
| `Echo.Reverse` | app.js:64 | the reversed string has the same length, and its i-th code unit is the input's (n-1-i)-th |
| `Echo.ReverseReverse` | app.js:64 | reversing twice gives the input back |
| `Echo.Respond` | app.js:57-66 | `normal` is the input, or the empty string when the parameter is missing; `charCount` is its length, which is also the length of `backwards`; `backwards` holds the code units of `normal` back to front |
| `Echo.BackwardsReversesToNormal` | app.js:61-64 | reversing `backwards` gives `normal` |
| `Echo.MissingInput` | app.js:58 | a missing input answers `''`, 0, `''`, the same as an empty input |
| `Echo.SurrogatePairSplit` | app.js:63-64 | a character outside the Basic Multilingual Plane (U+1F600, the pair D83D DE00) counts 2 and comes back with its two halves swapped |
| `HubSpec.Without` | app.js:112 | removing a listener leaves exactly the others, and keeps the list free of duplicates |
| `HubSpec.WithoutAt` | app.js:112 | in a duplicate-free list, removing the listener at index i splices it out and keeps the order of all others |
| `HubSpec.WithoutAbsent` | app.js:112 | removing a listener that is not registered changes nothing |
| `HubSpec.Open` | app.js:105-109 | a connection appends a fresh id to the end of the listener list and gives it an empty sink; on a valid hub every other sink is unchanged and the invariant is kept |
| `HubSpec.Close` | app.js:111-113 | after a close the id is no longer listed, every other id keeps its registration, no sink changes, and the invariant is kept |
| `HubSpec.Publish` | app.js:87 | an emit changes no registration and no sink's existence, and keeps the invariant |
| `HubSpec.Chat` | app.js:84-90 | a chat request without a truthy message leaves the whole hub unchanged; the invariant is kept either way |
| `HubSpec.RunSnoc` | app.js:84-113 | the hub after a history with one more event is one more step from the hub after the history |
| `HubSpec.NotYetOpened` | app.js:109 | a session that has not connected yet is not registered and has received nothing |
| `HubSpec.ConnectFaithful` | app.js:105-109 | a connection keeps the hub in agreement with the per-session description |
| `HubSpec.DisconnectFaithful` | app.js:111-113 | a close keeps the hub in agreement with the per-session description |
| `HubSpec.ChatFaithful` | app.js:84-88 | a chat request keeps the hub in agreement with the per-session description |
| `HubSpec.StepFaithful` | app.js:84-113 | every kind of event keeps the hub in agreement with the per-session description |
| `HubSpec.RunFaithful` | app.js:84-114 | after any history the hub is valid (no duplicate listeners, every listener has a sink), its listeners are exactly the connected sessions, and each sink holds the frames of exactly the messages published while its session was connected, in publish order |
| `HubSpec.ConnectedReceivesAll` | app.js:105-109 | a session that stays connected receives every later published message exactly once, in publish order |
| `HubSpec.ClosedStaysQuiet` | app.js:111-113 | once a session has closed, later events never register it again or add to what it received |
| `HubSpec.NoReplay` | app.js:105-109 | a message published before a session connected is never delivered to it: deleting that publish from the history changes nothing the session receives |
| `ChatServer.Hub.constructor` | app.js:11 | the hub starts with no listeners and no sinks |
| `ChatServer.Hub.OpenSession` | app.js:98-109 | a fresh id is appended to the end of the listener list with an empty sink, every other sink is unchanged, and the invariant is kept |
| `ChatServer.Hub.CloseSession` | app.js:111-113 | searching from the most recent listener, the session is spliced out of the list if present (others keep their order) and left absent; no sink changes |
| `ChatServer.Hub.Publish` | app.js:105-107 | looping over the listeners in order, every registered session's sink gains exactly one frame of the message and every other sink is unchanged |
| `ChatServer.Hub.Chat` | app.js:84-90 | a truthy message is published unchanged; a missing or empty one changes no listener and no sink |
| `ChatServer.Walkthrough` | app.js:84-114 | a session that saw "hello" and closed, then "world" with no session, then a new session: the first sink holds only the frame of "hello", the second only that of "again" |

## Left out

- Express setup, routing, static files, `sendFile`, `app.listen` and the port
  variable (app.js:9-14, 74-76, 116-126): framework and I/O plumbing.
- The status code and headers written by `writeHead` (app.js:99-103)
  (`text/event-stream`, `keep-alive`, `no-cache`): a sink is modelled as the
  sequence of strings written to it after the head.
- `res.end()` on the chat response (app.js:89): an empty reply with no state.
- `respondText`, `respondJson` and `respondNotFound` (app.js:22-49): constant
  replies; two of them are not even routed.
- The upper-cased `shouty` field of the echo reply (app.js:62): it depends on
  the runtime's Unicode case mapping.
- Query values that arrive as arrays when a parameter is repeated, or as
  objects when it is written with brackets (`?message[a]=b`): a query value
  is modelled as an optional string.
- The warning the emitter prints when more than ten `message` listeners are
  registered (app.js:109): a logging side effect that changes no state.
- A listener that throws during an emit, and socket write failures: the code
  catches nothing and the model has no failing writes.
- Concurrency between requests: each operation is atomic and they run one
  after another, as on a single event loop.
- `public/chat.js`: browser code (`EventSource`, `fetch`, `innerHTML`) with no
  logic of its own.
- Chat messages are Dafny strings, whose `char`s are Unicode scalar values: a
  message holding a lone surrogate code unit (D800-DFFF without its partner)
  has no Dafny form and is not modelled. The echo text has no such gap; it is
  a sequence of code units.
- `EventStream.ParseEvents` reads only streams built from `data: ` frames
  ending in two LFs; it is not a full server-sent events parser (comments,
  other fields, CR line endings and multi-line data are not read).
