# Chat server: registry, broadcast and session lifecycle

This project models the core of a multithreaded line-oriented chat server
(`ChatServer` with its inner class `ClientHandler`, in `index.java`). The
server keeps a registry of client handlers. Each handler runs one connection.
It prompts for a name and greets the client. It announces the join to every
client, relays each non-blank chat line to every client, and ends on `/quit`
(any letter case), end of stream or a read error. Its cleanup then marks the
handler closed, announces the departure, closes the socket and deregisters
the handler.

The model has four modules:

- `Text`: the string operations the protocol relies on.
  - Java's `String.trim`: drops every character up to U+0020 at both ends.
  - `equalsIgnoreCase` against `/quit`, with ASCII case folding.
  - The decimal rendering of the port in the fallback name `Guest-<port>`.
- `Protocol`: the per-connection protocol as a pure state machine.
  - Input: a sequence of `Event`s, which is what `readLine` yields: a line,
    end of stream, or an `IOException`.
  - Phases: `Handshake`, `Active`, `Closed`.
  - Output: `Action`s, which are
    - a reply to the handler's own client (the prompt, the greeting);
    - a broadcast;
    - marking the handler closed;
    - deregistering it.
  - `Step` reads one event; `Run` reads events until the phase is `Closed`.
  - `Session` adds the opening of the streams and the welcome prompt.
  - `Cleanup` is the transition of `cleanup()`.
  - Observers over an action list:
    - `Broadcasts`: what every other receiving client gets;
    - `Sent`: everything written;
    - `SelfInbox`: what the connection's own client gets, which stops once
      the handler is marked closed;
    - `Count`: how often an action occurs.
  - Messages are a datatype `Message`; `Render` gives the exact text written
    on the wire.
- `ProtocolProperties`: lemmas about the state machine (naming, the chat
  loop, quitting, failures, cleanup exactly once, what the leaver sees).
- `Server`: the imperative classes.
  - `ChatServer` holds `clients: seq<ClientHandler>`, the registry.
  - Each `ClientHandler` holds:
    - the name;
    - the `closed` flag;
    - whether its socket is closed;
    - whether its writer exists;
    - an `outbox: seq<Message>`: every line written to its client, in order.
  - `ChatServer.Broadcast` walks a snapshot of the registry and sends to
    every handler that is not closed.
  - `ClientHandler.Run` is the body of `run()`. Its contract ties the
    handler, its own outbox, every other client's outbox and the registry to
    `Protocol.Session`. The proof goes through `Serve` (the `try` block),
    `Converse` (the reads), `Greet` (the name step), `ChatLoop` (the
    `while` loop) and `HandleLine` (one pass of it).

Several behaviours of the code are easy to misread; the model follows the
code in each:

- A client that closes the stream instead of sending a name is not
  disconnected at once. The null name becomes the fallback `Guest-<port>`.
  The greeting is written and the join notice is broadcast. The chat loop's
  first read then meets the same end of stream, so cleanup follows.
  `DisconnectBeforeNaming` states the result: the broadcasts are the join
  notice and then the leave notice, both under the fallback name.
- `cleanup()` sets `closed` before it broadcasts the leave notice. The
  leaving client therefore never receives its own "has left" line.
  `LeaverMissesOwnNotice` states this.
- A read error on the first read leaves the name at its initial value
  `Unknown`. The leave notice then says `Unknown has left the chat.`
  (`FailureBeforeNaming`).
- `send` tests only whether the writer exists, not the `closed` flag. The
  closed test is made by `broadcast`, through `isClosed()`.

## Model

| member | source | states |
|---|---|---|
| Server.ChatServer.Accept | index.java:31-33 | a fresh handler for the accepted connection, with name `Unknown`, not closed and without a writer, is appended to the registry, which stays free of repeats |
| Server.ChatServer.Broadcast | index.java:42-50 | every registered handler that is not closed and has a writer gets the message exactly once, appended to what it already had; the others get nothing |
| Server.ChatServer.RemoveClient | index.java:53-56 | the handler is removed from the registry; the others keep their order; removing an unregistered handler changes nothing |
| Server.Remove | index.java:54 | `List.remove` deletes only the first occurrence and shortens the list by one exactly when the element was present |
| Server.RemoveFromDistinct | index.java:54 | in a registry without repeats, the removed handler is gone, every other handler stays, and a second removal changes nothing |
| Server.RemoveAbsent | index.java:54 | removing a handler that is not registered leaves the registry unchanged |
| Server.RemoveAt | index.java:54 | removal cuts out exactly the first occurrence and keeps the rest in order |
| Server.CutDistinct | index.java:54 | cutting one entry out of a registry without repeats leaves one without repeats that holds all the other entries |
| Server.ClientHandler.constructor | index.java:64-70 | a new handler has the name `Unknown`, is not closed, has no writer and has written nothing |
| Server.ClientHandler.Send | index.java:80-84 | the message is appended to the client's output exactly when the writer exists; otherwise nothing changes |
| Server.ClientHandler.Cleanup | index.java:119-128 | closed and socket-closed are set; every other client that could receive gets the leave notice under the current name; the leaving client gets nothing more; the handler is deregistered |
| Server.ClientHandler.Run | index.java:87-117 | the handler ends up exactly as `Protocol.Session` prescribes: its name and closed flags, its own client's output (every reply and broadcast made before it closed), every other receiving client's output (every broadcast), and deregistration once closed |
| Server.ClientHandler.Serve | index.java:88-113 | the try block: a failure opening the streams goes to cleanup with nothing written; otherwise the welcome prompt is written and what follows is the handshake phase of the machine |
| Server.ClientHandler.Converse | index.java:94-111 | the reads of the try block perform exactly the actions of the machine's handshake phase, apart from the final cleanup, and end exactly when the machine closes |
| Server.ClientHandler.Named | index.java:94-111 | once the first read has named the client: greeting and join notice, then the chat loop, unless the stream has already ended, in which case the session ends at once |
| Server.ClientHandler.Greet | index.java:94-99 | the name is the trimmed first line, or the port's fallback when there is none or it is blank; the client gets the greeting and then the join notice; every other receiving client gets the join notice |
| Server.ClientHandler.ChatLoop | index.java:101-111 | the loop does what the machine's active phase does, then ends exactly when the machine closes; every receiving client, this one included, gets the loop's broadcasts in order |
| Server.ClientHandler.HandleLine | index.java:102-110 | end of stream, a read error or a quit token ends the loop and sends nothing; any other line is trimmed and, unless blank, broadcast once as `name: line` |
| Server.Advance | index.java:102-110 | one more pass on a line that does not quit extends the actions so far by what the line emits, and the rest of the run follows |
| Server.Finish | index.java:102-106 | the pass that ends the loop is followed by cleanup and nothing else |
| Server.AfterSend | index.java:80-84 | one more write while open adds exactly one message to the writer's output and, for a broadcast, one to the others' |
| Server.AfterCleanup | index.java:119-122 | after cleanup the others have one more message, the leave notice; the leaving client has exactly what was sent before |
| Server.ObserveGreeting | index.java:97-99 | the greeting goes to the client only; the join notice goes to everyone |
| Server.WhileOpen | index.java:80-84 | while the handler is not closed, its client receives everything sent |
| ProtocolProperties.NameStep | index.java:94-96 | the first line names the client by its trim, or by the fallback when it is blank; end of stream gives the fallback name; a read error keeps the initial name and closes |
| ProtocolProperties.JoinedOnce | index.java:97-99 | exactly one join notice, under the chosen name, follows the greeting; at end of stream it is followed by the leave notice |
| ProtocolProperties.QuitEndsSession | index.java:103-106 | a line whose trim is `/quit` in any letter case goes to cleanup and no later event is read |
| ProtocolProperties.ChatLine | index.java:103-110 | a line that does not quit leaves the connection active; blank yields no broadcast, otherwise exactly one chat broadcast of its trim |
| ProtocolProperties.LoopEnds | index.java:102-116 | end of stream or a read error in the chat loop goes to cleanup |
| ProtocolProperties.ReadOne | index.java:102-111 | one read of the chat loop, seen from the whole run: a terminal event gives cleanup; any other line gives its broadcast followed by the rest of the run |
| ProtocolProperties.ChatLoop | index.java:102-111 | lines that do not quit broadcast exactly their reference transcript (one message per non-blank line, carrying its trim) and leave the connection where it was |
| ProtocolProperties.ChatThenEnd | index.java:102-116 | non-quitting lines followed by a terminal event broadcast the transcript and then one leave notice |
| ProtocolProperties.TerminalEnds | index.java:102-116 | whichever terminal event ends the loop, cleanup follows and nothing more is read |
| ProtocolProperties.CleanupObserved | index.java:119-128 | cleanup broadcasts only the leave notice, shows the leaving client nothing, and marks closed and deregisters exactly once |
| ProtocolProperties.NamedSession | index.java:93-99 | a session named by its first line gets welcome, greeting and join notice under the chosen name, then the chat loop |
| ProtocolProperties.Transcript | index.java:93-116 | a named session broadcasts its join notice, the transcript of its chat lines and one leave notice, all under the chosen name |
| ProtocolProperties.SessionSetupFailed | index.java:88-116 | a failure while opening the streams goes straight to cleanup |
| ProtocolProperties.SessionOpened | index.java:89-93 | with the streams open, the welcome prompt is written and the handshake reads follow |
| ProtocolProperties.HandshakeFails | index.java:94-116 | a read error instead of a name goes to cleanup under the name held so far |
| ProtocolProperties.HandshakeNamed | index.java:94-102 | a first line or end of stream gives greeting and join notice, then either the chat loop or, at end of stream, cleanup under the chosen name |
| ProtocolProperties.FailureBeforeNaming | index.java:88-122 | when the streams fail to open or the first read fails, the only broadcast is `Unknown has left the chat.`, and the client has seen at most the welcome prompt |
| ProtocolProperties.DisconnectBeforeNaming | index.java:94-122 | a client that ends the stream before naming itself is announced as joined and then as left, under `Guest-<port>` |
| ProtocolProperties.StepShape | index.java:87-128 | every single read either keeps the connection open without closing or deregistering, or ends in exactly one cleanup |
| ProtocolProperties.RunShape | index.java:87-128 | every run is actions that neither close nor deregister, followed by cleanup exactly when the run has closed |
| ProtocolProperties.SessionShape | index.java:87-128 | the same shape for a whole session, including a failed setup |
| ProtocolProperties.CountAbsent | index.java:119-128 | an action that does not occur is counted zero times |
| ProtocolProperties.CleanupOnce | index.java:114-128 | every exit path runs cleanup exactly once; a session still waiting for input has not run it |
| ProtocolProperties.LeaverMissesOwnNotice | index.java:119-122 | the leave notice is the last broadcast, and the leaving client receives everything sent before it but not the notice itself |
| Protocol.ChooseNameShape | index.java:95-96 | the chosen name is the trimmed line, or `Guest-<port>` when there is no line or it is blank; it is never blank |
| Protocol.FallbackNameShape | index.java:95 | the fallback name is not blank, is its own trim, and differs for different ports |
| Protocol.RunCons | index.java:102 | the run reads the first event, then the rest from where it leads |
| Protocol.ObserveCons | index.java:44-48 | the observers read an action list front to back |
| Protocol.BroadcastsAppend | index.java:44-48 | the broadcasts of two action lists in sequence are the first's followed by the second's |
| Protocol.SentAppend | index.java:80-84 | the messages written by two action lists in sequence are the first's followed by the second's |
| Protocol.CountAppend | index.java:119-128 | occurrences of an action in two lists in sequence add up |
| Protocol.SelfInboxAppend | index.java:119-122 | until the handler is marked closed its own client sees everything sent; afterwards nothing more |
| Text.LeadingTrimmableShape | index.java:96 | the prefix that trim drops is every leading character up to U+0020, and no more |
| Text.TrailingStartShape | index.java:96 | the suffix that trim drops is every trailing character up to U+0020, and no more |
| Text.TrimShape | index.java:95-103 | the trim is no longer than the string, is empty exactly when the string is blank, and otherwise starts and ends with a kept character |
| Text.TrimIdempotent | index.java:95-103 | trimming twice is trimming once |
| Text.TrimmedIsFixed | index.java:96-103 | a string that starts and ends with kept characters is its own trim |
| Text.ToLowerAscii | index.java:104 | defines the ASCII case folding the quit test uses; its properties are stated by `ToLowerAsciiShape` |
| Text.ToLowerAsciiShape | index.java:104 | folding never yields an upper-case letter, and two characters fold alike exactly when they are equal or one is the upper-case form of the other |
| Text.EqualsIgnoreCase | index.java:104 | defines `equalsIgnoreCase`: same length and the same folded character at every position (ASCII folding) |
| Text.IsQuit | index.java:104 | defines the quit test on the trimmed line, letter by letter; `QuitIsEqualsIgnoreCase` proves it is `equalsIgnoreCase("/quit")` |
| Text.Trim | index.java:95-103 | defines `String.trim`: the slice between the leading and the trailing characters up to U+0020; `TrimShape` and `TrimIdempotent` state its properties |
| Text.NatToString | index.java:95 | defines the decimal text of the port in `"Guest-" + port`; `NatToStringShape` and `NatToStringRoundTrip` state its properties |
| Protocol.FallbackName | index.java:95 | defines the fallback name `Guest-<port>`; `FallbackNameShape` states its properties |
| Protocol.ChooseName | index.java:94-96 | defines the name taken from the first read: the trimmed line, or the fallback when there is none or it trims to nothing; `ChooseNameShape` states its properties |
| Protocol.Render | index.java:93-122 | defines the exact line written for each message: the prompt (93), the greeting (97), the join notice (99), a chat line (108) and the leave notice (122); `RenderShape` states its properties |
| Protocol.RenderShape | index.java:97-122 | every notice and chat line starts with the name it is about, the greeting addresses the client by name, and a join notice is never the leave notice for the same name |
| Protocol.Open | index.java:88-93 | defines the start of run: with the streams open, the welcome prompt; if opening fails, cleanup under `Unknown`; `SessionOpened` and `SessionSetupFailed` state the results |
| Protocol.Cleanup | index.java:119-128 | defines cleanup: mark closed, then the leave notice under the current name, then deregistration; `CleanupObserved` states what the clients see |
| Protocol.Step | index.java:94-111 | defines one read: in the handshake it names the client, greets it and announces the join; in the chat loop it ends on a terminal event and otherwise broadcasts the trimmed line unless blank; `NameStep`, `ChatLine`, `LoopEnds` and `QuitEndsSession` state each case |
| Protocol.Run | index.java:94-116 | defines reading events until the connection is closed, after which nothing more is read; `RunShape` and `ReadOne` state its properties |
| Protocol.Session | index.java:87-128 | defines a whole connection; `ClientHandler.Run` is proved to carry it out, and `Transcript`, `CleanupOnce` and `LeaverMissesOwnNotice` state what it promises |
| Protocol.Broadcasts | index.java:42-48 | defines what every other receiving client gets from a list of actions: the broadcast messages, in order |
| Protocol.Sent | index.java:80-84 | defines everything a list of actions writes, replies and broadcasts, in order |
| Protocol.SelfInbox | index.java:120-122 | defines what the connection's own client gets: everything written before the handler is marked closed; `SelfInboxAppend` states its properties |
| Protocol.Count | index.java:114-128 | defines how often an action occurs; `CleanupOnce` uses it |
| ProtocolProperties.IsTerminal | index.java:102-113 | defines the events that end the chat loop: end of stream, a read error, or a line whose trim is the quit token |
| ProtocolProperties.ChatTranscript | index.java:102-110 | defines the reference transcript of chat lines, independent of the state machine: one `name: line` message per non-blank line, carrying its trim |
| Server.ClientHandler.IsClosed | index.java:76-78 | defines `isClosed`: the closed flag or the socket being closed |
| Server.ClientHandler.Receives | index.java:44-84 | defines whether a broadcast reaches the handler's client: `broadcast` skips it when it is closed, and `send` writes nothing before the writer exists |
| Server.ChatServer.Valid | index.java:16 | defines the registry invariant, no handler registered twice; `Accept`, `RemoveClient` and `Run` keep it |
| Server.ChatServer.constructor | index.java:16 | a new server has an empty registry |
| Text.QuitIsEqualsIgnoreCase | index.java:104 | the quit test holds exactly when the line equals `/quit` ignoring ASCII case |
| Text.QuitTokenShape | index.java:104 | any letter case of `/quit` quits, a quit token is never blank and is already trimmed, and `/quit ` with a trailing space does not match before trimming |
| Text.DigitChar | index.java:95 | a digit below ten renders as the character with that value |
| Text.NatToStringShape | index.java:95 | the port renders as a non-empty string of decimal digits with no leading zero |
| Text.NatToStringRoundTrip | index.java:95 | reading the rendering back gives the port, so different ports give different fallback names |

## Left out

- Sockets and streams are not modelled. `readLine` is replaced by a sequence of events: a line, end of stream, or a read error standing for an `IOException`. Failing to open the streams (`index.java:89-90`) is a `setupOk` parameter. What `println` writes is an outbox entry of type `Message`, whose wire text is `Protocol.Render`.
- After a null name the model does not perform the chat loop's first `readLine` (`index.java:102`). It goes straight to cleanup, assuming a reader at end of stream keeps returning null. If that read threw an `IOException` instead, the same cleanup would follow, so nothing observable is lost. The case of that read returning a line after end of stream is not modelled.
- Running out of events means the session is still blocked in `readLine`. No cleanup happens then.
- Threads and concurrency are not modelled: `handler.start()`, `volatile`, and `CopyOnWriteArrayList` under concurrent change. Each session runs alone. Interleavings of different clients' sessions, and joins or leaves during a broadcast, are not captured. `Broadcast` iterates over a snapshot of the registry, as the copy-on-write iterator does.
- `main`, `DEFAULT_PORT`, argument parsing, the `ServerSocket` and the accept loop are not modelled (`index.java:18-38` apart from lines 31-33). `ChatServer.Accept` is one iteration of that loop, without the thread start.
- Console logging is not modelled (`System.out`/`System.err` lines). `broadcast`'s `from` parameter and `getClientName` only feed that logging, so they are left out too.
- Server.ClientHandler.Cleanup: the socket is always marked closed. In Java, if `in.close()` throws, the remaining closes are skipped and the exception is ignored; that path is not modelled.
- Text.QuitIsEqualsIgnoreCase: only ASCII case folding is modelled. Java's `equalsIgnoreCase` also folds other characters, such as U+0130, whose lower case is `i`. So `/quİt` quits in Java but not in the model.
- Java strings are UTF-16 code units; the model's strings are sequences of Dafny characters. Trim treats both alike, since it only looks at characters up to U+0020.
- Port numbers are unbounded naturals; `socket.getPort()` is at most 65535, which no contract depends on.
