# ball-pass-game, modelled in Dafny

A model of the ball-passing game: a TCP server (the coordinator) and one session per
connected client, plus the command-line client. Exactly one connected player holds the
ball. The holder can pass it to any connected player. When the holder leaves, the ball
goes to somebody else. The server drops a client whose heartbeats stop.

The model follows the program's own structure, one module per source file:

- `Encoding` (`src/encoding.rs`) is the frame codec: a 2-byte big-endian length, then
  the payload. `Encode` and `Decode` change a `BytesMut` buffer in place. Both are proved
  against `Frame` and `DecodeFront`, and the stream round trip is proved on top of those.
  The serializer (bincode) is a parameter, a pair of functions. The one property the
  codec relies on, that deserializing what was serialized gives the message back, is a
  precondition of the round-trip lemmas.
- `Events` (`src/events.rs`) is the three-lane event queue: urgent, normal and delayed
  events. `EventQueue` is a class whose lanes are sequence fields and whose timers are a
  map keyed by instant. The clock is an explicit `now` in milliseconds. `select!` is a
  choice among the sources that are ready at `now`. `RecvAsync` returns `Pending` when
  nothing is ready.
- `Session` (`src/session.rs`) is the per-connection state machine. `ClientSession.Step`
  is one turn of `start`'s loop. `Start` runs the loop over a script of turns. Frames
  written to the client, and events sent to the coordinator, are recorded in sequence
  fields.
- `Server` (`src/server.rs`) is the coordinator, `GameServer`. Each registered player's
  mailbox is an `Outbox` value: the messages the coordinator has put on that session's
  normal and urgent lanes. The invariant `Valid` says the holder is set exactly when
  somebody is registered, and is then registered. Connecting, passing, disconnecting
  and handling an event preserve it, so the `unwrap` in `on_client_disconnect` cannot
  fail. The shutdown at the end of `run` drains the registry as `drain` does
  (`src/server.rs:178-180`) and leaves the holder in place. After it the invariant no
  longer holds, and nothing runs after it.
- `Client` (`src/client.rs`) holds:
  - the client's mirror of the game, `Reduce`, and the class that applies it, `ClientApp`;
  - the `pass <id>` command parser, with `str::split(" ")` and `usize` parsing written out.
- `Game` (`src/game.rs`) holds the players and the ball holder. `Messages`
  (`src/message.rs`) holds the wire messages. `Decimal` holds the decimal printing and
  parsing of `usize`, which `Display for Player` and `str::parse` rely on.

Behaviour of the code worth knowing, which the model follows:

- End of the client's stream: the session does not end its loop. The heartbeat-check
  branch of the `select!` binds `_`, so that branch is never disabled and the `else`
  arm (`src/session.rs:119`) cannot be reached. The end of the stream only disables the
  client branch for that turn. `Step(Client(EndOfStream), …)` therefore changes nothing.
  The session then ends at the next heartbeat check that finds the last heartbeat stale.
- A decode error ends the loop without sending the client a disconnect reason.
- Joins: every registered player hears of a join, the newcomer included. A departure is
  never broadcast.
- When the holder leaves, the ball goes to whichever remaining player `HashMap`
  iteration yields first. The model chooses any remaining player, not the lowest id.
- The client's `PlayerLeave` handler keeps only the entries equal to the player who
  left (`retain(|opl| opl == &pl)`). This is modelled literally, by `RetainEqual`.
- The decoder treats a buffer of two bytes or fewer as incomplete. So the complete frame
  of an empty payload is only decoded once one more byte follows it
  (`EmptyFrameNeedsAFollower`).
- A heartbeat check kicks only if strictly more than 5000 ms have passed since the last
  heartbeat (`src/session.rs:80-81`). A check that does not kick schedules no new check.
  Only a heartbeat schedules one.

## Model

| member | source | states |
|---|---|---|
| Decimal.ToDecimal | src/game.rs:20-24 | the decimal digits of `n`: at least one digit, all digits, value `n`, and a leading `0` only for `n == 0` |
| Decimal.ParseUsize | src/client.rs:121 | a success is at most `usize::MAX`, and the text starts with a digit or with `+` followed by more |
| Decimal.ParseDisplayRoundTrip | src/client.rs:121 | parsing the printed decimal of any `usize` gives it back |
| Decimal.ParseAcceptsPaddingAndPlus | src/client.rs:121 | leading zeros and one leading `+` are accepted and do not change the value |
| Decimal.ParseRejectsOverflow | src/client.rs:121 | `usize::MAX + 1` does not parse |
| Game.DefaultGameInfo | src/game.rs:26-29 | the default game has no ball holder |
| Game.Display | src/game.rs:20-24 | `player #` followed by digits whose value is the id |
| Game.AsRefStr | src/game.rs:7-13 | `"themselves"` exactly when the two ids are equal, otherwise the other player's `Display` |
| Game.DisplayReadsBack | src/game.rs:20-24 | the id printed by `Display` parses back to the same `usize` |
| Encoding.ReadU16BE | src/encoding.rs:74 | the big-endian header value is at most 65535 |
| Encoding.U16BE | src/encoding.rs:52 | `put_u16` writes two bytes that read back as the same number |
| Encoding.U16BEOfRead | src/encoding.rs:52 | writing back a header that was read gives the same two bytes |
| Encoding.Frame | src/encoding.rs:50-53 | a frame is payload length plus two bytes: the header holds the length, followed by the payload |
| Encoding.Encode | src/encoding.rs:41-57 | an oversized payload gives `LargePayload` and leaves the buffer untouched; otherwise the frame is appended |
| Encoding.DecodeFront | src/encoding.rs:67-91 | "need more" exactly when nothing is consumed; otherwise exactly one frame (header plus declared length) is consumed, and the result is the deserialized payload or `Serialization` |
| Encoding.Decode | src/encoding.rs:67-91 | the result and the buffer left behind are those of `DecodeFront` on the old contents |
| Encoding.EmptyFrameNeedsAFollower | src/encoding.rs:68-71 | the two-byte frame of an empty payload is not decoded alone, but is once another byte follows it |
| Encoding.StrictPrefixNeedsMore | src/encoding.rs:68-84 | no strict prefix of a frame yields a message or consumes a byte |
| Encoding.FrameIsConsumedExactly | src/encoding.rs:77-90 | a frame followed by other bytes: exactly the frame is consumed and the rest stays |
| Encoding.DecodeEncodeRoundTrip | src/encoding.rs:41-91 | decoding what encode appended gives the message back and leaves the following bytes |
| Encoding.EncodeAll | src/encoding.rs:41-57 | the byte stream of a list of messages is empty exactly when the list is |
| Encoding.DecodeAvailable | src/encoding.rs:67-91 | repeated decoding stops only at "need more" or at an error |
| Encoding.DecodeAvailableRoundTrip | src/encoding.rs:41-91 | a reader given a writer's whole stream gets every message back, in order, and consumes every byte |
| Events.InsertAllElsewhere | src/events.rs:47-51 | draining the timer lane leaves untouched every instant it holds no entry for |
| Events.InsertAllLastWins | src/events.rs:47-51 | of several timers at one instant, the last one drained wins |
| Events.Earliest | src/events.rs:53-55 | the first key of the timer map: `None` exactly when there are no timers, otherwise the least instant |
| Events.EventQueue.constructor | src/events.rs:24-38 | every lane is empty and there are no timers |
| Events.EventQueue.EnqueTimers | src/events.rs:47-51 | the timer lane is emptied into the timer map in arrival order; the other lanes are unchanged |
| Events.EventQueue.NextInstant | src/events.rs:53-55 | the least scheduled instant, `None` exactly when nothing is scheduled |
| Events.EventQueue.NextTimedEvent | src/events.rs:57-65 | the earliest timer is removed and returned only when its instant is strictly before `now`; otherwise nothing changes |
| Events.EventQueue.RecvAsync | src/events.rs:67-86 | urgent first, then a timer that is already overdue, then the normal lane or a timer whose instant is reached; `Pending` only when none of these is ready |
| Events.EventSender.constructor | src/events.rs:100-106 | a handle on the given queue |
| Events.EventSender.Send | src/events.rs:108 | appends to the normal lane only |
| Events.EventSender.SendWithUrgency | src/events.rs:110 | appends to the urgent lane only |
| Events.EventSender.SendWithDelay | src/events.rs:112-114 | schedules the event at `now + after`; the other lanes are unchanged |
| Events.EventSender.Clone | src/events.rs:121-127 | a new handle on the same queue |
| Events.UrgentOvertakesNormal | src/events.rs:67-71 | an urgent event sent after a normal one is received first |
| Events.DelayedEventWaits | src/events.rs:57-86 | a delayed event is not received before its deadline, even with nothing else waiting, and is received once the deadline is reached |
| Events.OverdueEventGoesFirst | src/events.rs:72-73 | an overdue delayed event is received ahead of a normal event sent after it |
| Session.Elapsed | src/session.rs:80 | `duration_since` is the time passed, or zero when `now` is not after `since` |
| Session.ClientSession.constructor | src/session.rs:28-42 | not stopped, nothing written or sent, with a fresh empty mailbox |
| Session.ClientSession.Send | src/session.rs:46-51 | a successful write appends the frame; a failed write sets `stop` |
| Session.ClientSession.Kick | src/session.rs:53-58 | sets `stop`; sends `Disconnect(reason)` only if the session was not already stopped |
| Session.ClientSession.Begin | src/session.rs:62-72 | the first frame is `InitialState(player, snapshot)` and the first check is scheduled 5000 ms after start |
| Session.ClientSession.Step | src/session.rs:74-121 | a due check kicks with "Heartbeat failed" only if the last heartbeat is more than 5000 ms old. A coordinator `Disconnect` kicks, and any other coordinator message is relayed unchanged. A heartbeat re-arms the check. A pass is forwarded as `PassBall(player, receiver)`. `Leave` and a decode error end the loop, and end of stream changes nothing |
| Session.ClientSession.Finish | src/session.rs:122-125 | stops the session and tells the coordinator `PlayerLeft(player)` |
| Session.ClientSession.Start | src/session.rs:60-126 | the first frame written is the snapshot. A session that ended has sent exactly one `PlayerLeft`, as its last event, and only passes before it. A `Leave` or a decode error anywhere in the script ends it |
| Session.SilentClientIsDropped | src/session.rs:79-92 | a client that never sends a heartbeat is told "Heartbeat failed" at the first check after 5000 ms |
| Session.HeartbeatKeepsClientAlive | src/session.rs:79-108 | a heartbeat makes the first check pass; the check it scheduled drops the client once that heartbeat is stale |
| Server.PassTag | src/server.rs:96-111 | `PlayerStumbledUponBall` exactly when nobody held the ball, `Player` exactly when the holder is registered, `PlayerWithBallLeft` exactly when the holder is gone |
| Server.BroadcastSingleton | src/server.rs:136-140 | broadcasting to one player appends to that player's normal lane |
| Server.GameServer.constructor | src/server.rs:29-35 | empty registry, counter 0, nobody holds the ball; the invariant holds |
| Server.GameServer.Players | src/server.rs:40 | every registered player exactly once |
| Server.GameServer.GenUniqueId | src/server.rs:42-45 | the counter goes up by one and the new id is larger than every registered id |
| Server.GameServer.Broadcast | src/server.rs:136-140 | the message is appended to every registered player's normal lane and nothing else changes |
| Server.GameServer.PassBall | src/server.rs:95-119 | to a registered player: the holder changes and everybody hears of it with the right tag; otherwise nothing changes |
| Server.GameServer.OnBallPass | src/server.rs:121-134 | a pass by the holder to a registered player moves the ball with tag `Player`; any other request changes nothing |
| Server.GameServer.OnClientDisconnect | src/server.rs:47-63 | the player is removed from the registry. If it held the ball, the ball goes to another remaining player with tag `PlayerWithBallLeft`, or to nobody if none remain. The invariant is kept |
| Server.GameServer.OnClientConnect | src/server.rs:66-93 | fresh id; the snapshot is the game before the join; everybody, the newcomer included, hears `PlayerJoin`; a newcomer with no holder gets the ball |
| Server.GameServer.Register | src/server.rs:82-87 | the newcomer is added with a mailbox holding only its own `PlayerJoin`, which every other player also receives |
| Server.GameServer.HandFirstBall | src/server.rs:89-92 | the only player gets the ball with tag `PlayerStumbledUponBall` |
| Server.GameServer.Shutdown | src/server.rs:177-180 | every registered player gets `Disconnect("Server Shutdown")` on its urgent lane and the registry is empty |
| Server.GameServer.HandleEvent | src/server.rs:161-167 | quits exactly on Ctrl-C, which changes nothing. A departure has exactly `on_client_disconnect`'s effect (`Departed`), and a pass exactly `on_ball_pass`'s (`BallPassed`). The invariant is kept |
| Server.GameServer.React | src/server.rs:159-175 | a connection greets a newcomer with the next id and has exactly `on_client_connect`'s effect (`Joined`). An event greets nobody, quits exactly on Ctrl-C, and has exactly the effect of handling it (`Handled`) |
| Server.ServedStep | src/server.rs:159-175 | the run grows by one input: a connection with `on_client_connect`'s effect and one more greeting, or an event with the effect of handling it and no greeting |
| Server.ServedGreetsEachConnect | src/server.rs:170 | along a run, the greetings are exactly one per connection taken |
| Server.GameServer.Serve | src/server.rs:159-175 | takes the inputs in order up to and including the first Ctrl-C, and takes all of them if there is none. The states it goes through start at the old state and end at the new one. Each input has exactly `React`'s effect (`Served`). There is one greeting per connection, with ids following the old counter in order. `quit` holds exactly when a Ctrl-C is among the inputs, and the invariant is kept |
| Server.GameServer.Run | src/server.rs:159-180 | runs `Serve`'s loop and shuts down only on Ctrl-C: `quit` exactly when a Ctrl-C is among the inputs. The registry the shutdown finds is the last state of the run. The shutdown empties it and sends `Disconnect("Server Shutdown")` on the urgent lane to exactly the players in it. Without a Ctrl-C the server keeps running: the invariant holds and nothing is drained |
| Server.HolderLeavesBallMovesOn | src/server.rs:47-63 | the first of two players leaves with the ball; the second gets it and hears `PassBall(second, PlayerWithBallLeft)` |
| Server.PassFromNonHolderIsIgnored | src/server.rs:121-134 | a pass requested by a player without the ball changes neither the holder nor any mailbox |
| Server.ConnectThenCtrlCRun | src/server.rs:159-175 | from an empty server, a connection then Ctrl-C leaves player 1 registered, its mailbox holding its join and the first ball |
| Server.ConnectThenCtrlC | src/server.rs:159-180 | one connection, then Ctrl-C: player 1 is greeted and gets the ball, and its mailbox ends with the urgent shutdown notice |
| Server.LastHolderLeaves | src/server.rs:56-58 | when the last player leaves, nobody holds the ball and the registry is empty |
| Client.Split | src/client.rs:119 | at least one piece, and no piece contains a space |
| Client.JoinSplit | src/client.rs:119 | the pieces and the spaces between them make up the line again |
| Client.SplitJoin | src/client.rs:119 | pieces without spaces, joined by spaces, split back into the same pieces |
| Client.ParseInput | src/client.rs:118-127 | a pass needs a `pass ` prefix and a `usize` target; the out-of-range index happens only for the line `pass` |
| Client.PassLineParses | src/client.rs:118-124 | `pass` followed by a printed id asks to pass to that player |
| Client.OnlyBarePassPanics | src/client.rs:120-121 | `args[1]` is out of range exactly for the line `pass` |
| Client.OtherInputIsInvalid | src/client.rs:120-126 | a line that does not begin with `pass` sends nothing |
| Client.RetainEqual | src/client.rs:91 | keeps only, and every one of, the entries equal to the player who left |
| Client.Reduce | src/client.rs:74-115 | a snapshot replaces the game. With no game, nothing else is recorded. A join appends. A leave keeps only the leaver's entries. A pass sets the holder and keeps the players. A disconnect changes nothing |
| Client.JoinsAccumulate | src/client.rs:81-86 | after a snapshot, the player list grows by exactly the joined players, in order |
| Client.NothingBeforeSnapshot | src/client.rs:81-111 | messages before the snapshot leave the client without a game |
| Client.PassPanicsWithoutHolder | src/client.rs:94-101 | printing a player's pass panics only when the mirror applies the pass and knew no previous holder. A player's pass applied without a panic had a holder to print |
| Client.HolderStaysKnown | src/client.rs:94-111 | once the mirror knows a holder, it keeps knowing one until the next snapshot, so no pass panics in between |
| Client.OutcomeCases | src/client.rs:118-141 | the loop breaks exactly on a dropped connection and on Ctrl-C. An input line panics exactly when it is the bare word `pass`. A server message panics only on a player's pass when no holder is known |
| Client.ClientApp.constructor | src/client.rs:42-52 | no game yet, and the handle on the connection loop's outgoing queue |
| Client.ClientApp.OnServerMessage | src/client.rs:74-115 | the game becomes `Reduce` of the old game; a `Player` pass with no previous holder panics |
| Client.ClientApp.OnInput | src/client.rs:118-127 | a parsed pass is sent on the normal lane; the line `pass` panics; nothing goes on the urgent lane or the timer lanes |
| Client.ClientApp.Handle | src/client.rs:71-141 | Ctrl-C sends `Leave` on the urgent lane and exits; a dropped connection exits without sending; inputs and server messages as above; nothing is ever scheduled with a delay |
| Client.ClientApp.RunLoop | src/client.rs:57-143 | handles events in order until one exits or panics. Every event before the last one handled continues the loop, and the last one decides how it ended. The game is the reduction of the server messages handled. The normal lane holds exactly the passes parsed. `Leave` is sent only when the loop ended on Ctrl-C. Nothing is scheduled with a delay |

## Left out

- Sockets, TCP accept and connect, `set_nodelay`/`set_keepalive`, and the spawning of
  session tasks. A new connection is the `Connect` input of `Server.GameServer.React`.
  The session is the `Session.ClientSession` object built for the greeting it returns.
- `src/main.rs` (argument parsing, Ctrl-C wiring) and `src/utils.rs` (socket framing
  plumbing) are not part of this model.
- The client's stdin reader thread and `connect_to_server`: the TCP connect, the 2 s
  heartbeat interval and the socket relay loop. Their effects reach `ClientApp` as
  `Client.Event` values.
- bincode's byte format. The serializer is a parameter, and its round trip is a
  precondition. A serializer failure in `encode`, and the `IO` error variant, are not
  produced by the model.
- `BytesMut::reserve` and buffer capacity. They have no effect on contents.
- Channel send failures after a receiver is dropped. The model's queues are never
  dropped. `EventQueue::sender()` is modelled by building an `EventSender` on the queue.
- Session.Step: the outcome of each write to the client is the `writeOk` parameter, not
  the socket. The locals `hb_check` and `last_hb` of `start` are fields.
- Session.Step: with a discrete clock, a check that fires exactly at its deadline finds
  exactly 5000 ms elapsed. It then neither kicks nor re-arms, and a client silent from
  then on is never dropped. In the source this cannot happen. `last_hb` is read
  (`src/session.rs:63`) before the deadline's clock read (`src/events.rs:113`), which
  follows the awaited write at `src/session.rs:66-67`. The comparison at
  `src/session.rs:80` reads the clock after the delay has fired, so the elapsed time
  there is strictly more than 5000 ms. The model's scenarios run checks after the
  deadline.
- Server.GameServer.GenUniqueId: the counter is unbounded, so `usize` overflow of
  `id_counter` is not modelled.
- Server.GameServer.Players: the order of `keys()` is any order. Likewise the choice of
  the next holder in `OnClientDisconnect`.
- `println!`/`log` output, and the unused constant `HEARTBEAT_INTERVAL_SECS`.
- Timing is discrete milliseconds, and `select!` fairness is any choice among the ready
  sources.
