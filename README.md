# TcpChatRoom server core, modelled in Dafny

The server of TcpChatRoom is a line-based TCP chat relay written in Go.
Each connection gets a user with a unique ID and an outbound channel (its
mailbox). The connection's session asks for a nickname, welcomes the user,
announces the arrival to the room and registers the user. It then turns
every input line into a room-wide chat line, or into a private reply from
the AI service when the line starts with `gemini:`. On end of input it
deregisters the user and announces the departure. One broadcaster goroutine
owns the set of online users. It consumes `Enter`, `Leave` and `Broadcast`
events one at a time. It adds users, removes them and closes their channel,
and copies each broadcast message into the channel of every online user.

The model has six modules, one per concern:

- `Ids` (`ids.dfy`): the ID generator `genUserID` as a class whose `Next`
  method increments a counter. A ghost list of issued IDs records the calls.
- `Registry` (`registry.dfy`): the broadcaster's state as a value. It holds
  the online users and the mailbox of every user (lines sent, closed flag).
  `Apply` performs one event. Go's run-time panics (a send on a closed
  channel, closing a closed channel) are `Err` faults.
- `Broadcasting` (`broadcaster.dfy`): the broadcaster goroutine as a class.
  Its `Enter`, `Leave` and `Broadcast` methods change its fields in place.
  `Broadcast` loops over the online users as the Go `for ... range` does.
  `Serve` is the `for { select }` loop over a totally ordered stream of
  events. Each method is proved against `Apply`.
- `Session` (`session.dfy`): the literal message formats and `handleConn`.
  `Trace` is the ordered list of what a session does given its input lines.
  `HandleConn` builds the same list step by step with a loop.
- `Protocol` (`protocol.dfy`): the session's states made explicit. A user
  is `Unborn`, then `Connected`, then `Entered`, then `Departed`. Every
  session follows this machine.
- `ChatSystem` (`system.dfy`): all sessions interleaved into one global
  order, with the broadcaster handling each event at its place. An
  interleaving is any sequence of moves in which each user's own moves, in
  order, are a prefix of its session. The main theorems are stated here:
  - no interleaving ever panics;
  - a broadcast reaches exactly the users whose `Enter` precedes it and
    whose `Leave` does not;
  - a user never receives its own entrance announcement, in interleavings
    where each session's events reach the broadcaster in the order the
    session sends them (see Findings);
  - a closed mailbox is never written again.

The message texts follow the code: `user:` + backtick + nickname + backtick
+ ` has enter` (and ` has left`). The model uses the code's literal text.

## Model

| member | source | states |
|---|---|---|
| `Ids.IdGenerator.constructor` | server.go:25-28 | the counter starts at 0 and no ID has been issued |
| `Ids.IdGenerator.Next` | server.go:147-153 | returns one more than the previous ID (1 on the first call); the ID is appended to the issued list and exceeds every ID issued before; the issued list stays 1, 2, ..., n |
| `Ids.IssuedAscending` | server.go:147-153 | IDs issued in counting order from 1 are positive, unique and strictly increasing |
| `Registry.Apply` | server.go:78-92 | one turn of the select: Enter never faults; a handled event neither makes nor drops a channel, and leaves every closed channel as it was |
| `Registry.Replay` | server.go:77-93 | the select loop over a stream of events: a run that does not panic keeps the same channels and leaves every closed channel as it was |
| `Registry.ReplayStaysValid` | server.go:77-93 | from a state where every online user has an open channel, a stream of events each admissible at its turn never panics and keeps that invariant to the end |
| `Registry.EnterRegisters` | server.go:79-81 | Enter never faults, adds the user to the online set and leaves every mailbox unchanged |
| `Registry.LeaveDeregisters` | server.go:82-86 | Leave succeeds exactly when the user's mailbox exists and is open; it removes the user from the online set and closes its mailbox with its queued lines kept; no other user's mailbox changes |
| `Registry.BroadcastDelivers` | server.go:87-91 | Broadcast succeeds exactly when every online user has an open mailbox; it then appends the message to the end of exactly the online users' mailboxes; membership, closed flags and all other mailboxes are unchanged |
| `Registry.ApplyPreservesValid` | server.go:77-93 | from a state where every online user has an open mailbox, any event the sessions can issue does not fault and keeps that invariant |
| `Broadcasting.Broadcaster.constructor` | server.go:75 | the broadcaster starts with nobody online, which satisfies its invariant |
| `Broadcasting.Broadcaster.Enter` | server.go:79-81 | adds the user and changes no mailbox; the new state is `Apply` of Enter on the old one; entering with an open mailbox keeps the invariant |
| `Broadcasting.Broadcaster.Leave` | server.go:82-86 | with the user's mailbox still open: removes the user, then closes only that mailbox; the new state is `Apply` of Leave on the old one; the invariant is kept |
| `Broadcasting.Broadcaster.Broadcast` | server.go:87-91 | with every online user's mailbox open, the loop over the online users appends the message to each of their mailboxes and to no other; the new state is `Apply` of Broadcast on the old one |
| `Broadcasting.Broadcaster.Serve` | server.go:77-93 | handling a non-panicking stream of events one at a time ends in the state `Replay` gives for the whole stream; from a valid state, a stream of admissible events keeps every online user's channel open |
| `Session.Welcome` | server.go:117 | the private welcome is the 7-character greeting followed by the nickname |
| `Session.EnterNotice` | server.go:118 | the entrance announcement carries the nickname between its backticks, after the 6-character `user:` + backtick head and before an 11-character tail |
| `Session.LeftNotice` | server.go:144 | the departure announcement carries the nickname between its backticks, and differs from the entrance announcement for the same nickname |
| `Session.ChatLine` | server.go:134 | a room chat line is the sender's nickname, a colon and a space, then the line as typed |
| `Session.IsGeminiRequest` | server.go:130 | a line is a request to the AI service exactly when its first 7 characters are `gemini:` |
| `Session.Respond` | server.go:130-135 | a chat line becomes a private write exactly when it is an AI request, and that write is the AI reply; otherwise it becomes a broadcast that starts with the sender's nickname |
| `Session.Chat` | server.go:129-136 | the chat loop gives one action per line, and each is a private write or a broadcast: it never opens a channel, registers or deregisters |
| `Session.Handshake` | server.go:100-125 | the handshake makes the channel first and sends Enter last, and sends no other Enter or Leave |
| `Session.Teardown` | server.go:142-144 | the teardown sends Leave first, then only a broadcast |
| `Session.Trace` | server.go:96-145 | a session that gets no nickname takes 2 actions; otherwise it takes 6 more actions than it has input lines (the nickname line included) |
| `Session.ChatAt` | server.go:129-136 | the chat loop produces exactly one action per input line, in input order |
| `Session.ChatAppend` | server.go:129-136 | reading more lines only extends the chat loop's actions |
| `Session.HandleConn` | server.go:96-145 | the step-by-step session yields exactly `Trace`: prompt; on a nickname, welcome, announcement and Enter; one action per later line; then Leave and the departure announcement |
| `Session.SilentWithoutNickname` | server.go:113-121 | every session first makes its channel and writes the prompt; without a nickname line those two are all it does; it sends nothing to the broadcaster exactly when there is no nickname line |
| `Session.SessionOrder` | server.go:116-144 | with nickname n the session writes the welcome, then broadcasts the entrance announcement, then sends Enter (its only Enter); after the chat lines it sends Leave (its only Leave), then the departure announcement; it has input length + 6 actions |
| `Session.ChatLineHandled` | server.go:129-136 | a later line starting with `gemini:` becomes only a private write of the AI reply; any other line becomes only the broadcast `n: line` |
| `Protocol.ConformsAppend` | server.go:96-145 | a session's actions follow the state machine exactly when each part does, from the state the earlier part reaches |
| `Protocol.ConformsPrefix` | server.go:96-145 | every beginning of a conforming session conforms |
| `Protocol.ConformsCons` | server.go:96-145 | one allowed action followed by conforming actions conforms, and the final state is that of the rest |
| `Protocol.ChatStaysEntered` | server.go:129-136 | the chat loop is allowed while entered and leaves the user entered |
| `Protocol.SessionConforms` | server.go:96-145 | every session follows the machine; it ends connected (channel open, never registered) without a nickname, and departed otherwise |
| `Protocol.DepartedIsFinal` | server.go:142-144 | after Leave a session never sends Enter or Leave again and stays departed |
| `Protocol.EnteredBetween` | server.go:79-86 | a user is entered exactly when it has sent Enter (or already was entered) and has not sent Leave |
| `Protocol.DepartedAfterLeave` | server.go:82-86 | a user is departed exactly when it has sent Leave (or already was departed) |
| `ChatSystem.Perform` | server.go:100-144 | one move of one session: making a channel always succeeds and yields a fresh open channel; no other move makes or drops a channel |
| `ChatSystem.Run` | server.go:77-144 | a run that does not panic never loses a channel |
| `ChatSystem.ConsistentIsValid` | server.go:74-94 | when every user's phase agrees with the state, every online user has an open mailbox |
| `ChatSystem.PerformKeepsConsistent` | server.go:74-145 | a move the machine allows never faults, and every user's phase still agrees with the registry and the mailboxes afterwards |
| `ChatSystem.RunSafe` | server.go:74-145 | a run in which every user's moves follow the machine never faults, and at its end each user's registration and mailbox state is fixed by that user's own moves |
| `ChatSystem.ProjectAppend` | server.go:77-93 | splitting the global order splits each user's own moves the same way |
| `ChatSystem.RunAppend` | server.go:77-93 | running two stretches of moves one after the other is running them together |
| `ChatSystem.Reached` | server.go:74-145 | every point of any interleaving of sessions is reached without a panic, with each user's phase agreeing with the state |
| `ChatSystem.SessionsNeverPanic` | server.go:79-90 | however the sessions interleave, no send hits a closed channel and no channel is closed twice; every online user has an open mailbox; a mailbox is closed exactly when its user has sent Leave; a user is registered exactly when it has sent Enter and not Leave |
| `ChatSystem.DeliveryFollowsOrder` | server.go:87-91 | a broadcast at any position reaches user u (appended at the end of its mailbox) exactly when u's Enter precedes it and u's Leave does not; nothing else in u's mailbox changes |
| `ChatSystem.OwnEntranceNotDelivered` | server.go:116-125 | the fourth move of every session is its entrance announcement, and when it is handled the announcing user's mailbox does not change |
| `ChatSystem.SelfAnnouncementWhenBuffered` | server.go:118-125 | in the order the buffered `messageChannel` allows (Enter handled before the still-buffered announcement), the user's mailbox ends with its own entrance announcement |
| `ChatSystem.ClosedMailboxFrozen` | server.go:84-90 | once a mailbox is closed, no non-faulting run changes it again (unless its owner makes a new channel, which no session does) |

## Findings

| source | as written | input that shows it | evidently intended | confidence | as-written member | corrected member |
|---|---|---|---|---|---|---|
| server.go:36, server.go:118-125 | `messageChannel` has a buffer of 8 and `enteringChannel` has none, so the announcement sent at line 118 can wait in the buffer while the session's `Enter` at line 125 is received first; `select` picks at random among ready cases | while the broadcaster is busy delivering another user's line, alice sends nickname `alice`; her announcement is buffered, her Enter is then ready too, and if `select` takes the Enter first alice receives ``user:`alice` has enter`` | the comment at lines 123-124: the announcement must be handled before the Enter, so that a user never sees its own arrival; this holds when each session's events reach the broadcaster in the order it sends them (for example with an unbuffered `messageChannel`) | medium; not executed | `ChatSystem.SelfAnnouncementWhenBuffered` (order `ChatSystem.BufferedHandshake`) | `ChatSystem.OwnEntranceNotDelivered`, under `ChatSystem.Interleaves` |

## Left out

- `main` (server.go:40-66): the listener, the accept loop and environment loading are process bootstrap and I/O.
- `sendMessage` (server.go:159-163): the writer goroutine is socket I/O. A mailbox's `lines` is everything ever sent into the channel, in FIFO order. The model does not model the writer draining it until close.
- Goroutines, blocking sends and the buffer capacity of 8 (server.go:36, server.go:104) are not modelled. All moves happen in one total order, and a send never blocks.
- `ChatSystem.Interleaves` takes each session's events to reach the broadcaster in the order the session sends them. With the buffered `messageChannel`, Go does not guarantee this (see Findings). The safety theorems do not rely on that order for broadcasts, but the model proves them only for program-order interleavings.
- `GeminiChatComplete` (server.go:131) is an external AI call, and its definition is not part of this model. It is a function parameter `gemini` that returns one reply line.
- `time.Now`, `conn.RemoteAddr` and the `Addr`/`EnterAt` fields (server.go:102-103) are descriptive only and are not modelled.
- Line splitting by `bufio.Scanner` is I/O. The input is taken as the already-split list of lines. The possible loss of bytes that the first scanner buffered before the second scanner starts (server.go:114, server.go:128) is not modelled.
- A read error and end of input both end the input list. The error log line (server.go:138-140) is not modelled.
- When no nickname arrives, the session returns without closing its channel (server.go:119-121). The model keeps that mailbox open, in the `Connected` phase. The resulting leak of the writer goroutine is a concurrency matter and is not modelled.
- Channels are mailbox values kept in one map keyed by user ID, not shared references. Each Go user owns exactly one channel, made in `handleConn`, so only aliasing is lost.
- A panicking broadcast is a fault with no resulting state. In Go some online users may already have received the message before the process crashes.
- The order in which Go iterates over the `users` map is unspecified. `Broadcasting.Broadcaster.Broadcast` picks users in any order, and its result does not depend on that order.
- Ids.IdGenerator.Next: does not model wrap-around of Go's 64-bit `int` after 2^63 - 1 calls, because integers here are unbounded. The mutex only serialises calls, and a single caller stands for that.
- The deferred `conn.Close()` (server.go:97) is socket I/O and is not modelled.
- Go strings are byte strings. Lines here are Dafny strings, that is, sequences of characters, so an input line that is not valid UTF-8 cannot be represented. On valid text the relay and the `gemini:` prefix test behave the same.
- The prompt text (server.go:113) and the `gemini:` prefix (server.go:130) are the constants `Session.NicknamePrompt` and `Session.GeminiPrefix`. Their contracts are those of `Session.Trace`, `Session.SilentWithoutNickname` and `Session.IsGeminiRequest`.
- `client/client.go` is not part of this model. It is the interactive terminal client.
