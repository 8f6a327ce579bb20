# Talk WebSocket hub, modelled in Dafny

This project models the connection registry and broadcast loop of the Talk chat
backend (`backend/internal/handler/websocket_handler.go`). The handler keeps a
registry of live WebSocket connections (`clients map[*websocket.Conn]bool`).
Each connection's handler registers its connection, replays the recent-message
backlog to it, and then reads messages in a loop. Every message read gets the
server's timestamp, is saved, and is handed to the broadcaster. The broadcaster
writes each message to every registered connection. It closes and removes each
connection whose write fails.

How it is modelled:

- Connections have opaque ids (`Oracles.ConnId`).
- The `Message` record (ID, Type, Content, Sender, Timestamp) is `Domain.Message`.
  Go's `Type` field is called `kind`, because `type` is a Dafny keyword.
  Timestamps are opaque integers (`Domain.Time`).
- Every call into code outside the model is an input of the step that makes it:
  - the WebSocket upgrade (`Oracles.Upgrade`);
  - each `ReadJSON` (`Oracles.ReadResult`);
  - each `WriteJSON` (a `bool` per write);
  - `SendMessage` (a `bool`);
  - `GetRecentMessages` (a function from the limit to an `Oracles.FetchResult`,
    called with `Backlog.RecentLimit` = 50);
  - `time.Now()` (a `Time` parameter).
- `Handler.WebSocketHandler` holds the registry as a `map<ConnId, bool>`. It is
  updated in place. A ghost `trace` records, in order, every registration,
  removal, write attempt (with its outcome), close, save (with its outcome) and
  forward to the broadcaster.
- The class invariant `Valid()` has three parts:
  - every value in the registry map is `true`;
  - the registry is exactly what the trace's registrations and removals leave
    (`Trace.After`);
  - no write so far went to a connection that was unregistered at the moment of
    the write (`Trace.Sound`).
- Each handler step and each broadcast round is one atomic, sequential method.
  Its postcondition gives the new registry and the events it appends. The pure
  modules `Backlog` and `Broadcast` define those events, and lemmas there prove
  what the events do to the registry and to each connection's writes
  (`Trace.Writes`).
- Go's map iteration order is unspecified. So `BroadcastRound` returns, as a
  ghost value, the order it visited the registry in. It is an enumeration of the
  registry at the start of the round: every connection once, none added.

Three things the code does that a reader of a chat hub might not expect:

- A message whose save fails is still broadcast. `ReadStep` forwards
  `Stamp(msg, now)` whatever `saveOk` is.
- The backlog is written in the order the service returns it. The repository
  query orders by `timestamp DESC`, so that order is newest first, not
  chronological (`Backlog.ReplayKeepsNewestFirst`).
- There are no per-connection bounded queues, heartbeats, size caps or field
  validation. A slow client blocks the broadcaster's write instead of
  overflowing a queue.

## Model

| member | source | states |
|---|---|---|
| `Handler.WebSocketHandler.constructor` | backend/internal/handler/websocket_handler.go:27-33 | a new handler has an empty registry and an empty history, and satisfies the invariant |
| `Handler.WebSocketHandler.Connect` | backend/internal/handler/websocket_handler.go:36-56 | a failed upgrade changes nothing and writes nothing; otherwise the new connection, whose id is not yet registered, is registered (the `Registered` event comes before any backlog write), the backlog fetched with limit 50 is replayed to it, and no other connection is written to |
| `Handler.WebSocketHandler.SendBacklog` | backend/internal/handler/websocket_handler.go:46-56 | the loop writes the fetched messages in order and stops after the first failed write; a failed fetch writes nothing; the registry is unchanged, so the connection stays registered and goes on to reading; only this connection is written to |
| `Handler.WebSocketHandler.ReadStep` | backend/internal/handler/websocket_handler.go:58-73 | a failed read removes exactly this connection (others keep their membership), closes it and forwards nothing; a successful read saves the message with the server timestamp first and then forwards that same message, whether or not the save succeeded |
| `Handler.WebSocketHandler.BroadcastRound` | backend/internal/handler/websocket_handler.go:76-87 | the round visits every connection registered at its start exactly once, sender included; each one gets exactly one write of the message and nobody else gets any; afterwards the registry is the old one minus exactly the connections whose write failed, and exactly those were closed |
| `Handler.WebSocketHandler.VisitClient` | backend/internal/handler/websocket_handler.go:80-85 | one registered connection of the round: the message is written to it; on a failed write exactly that connection is closed and deleted from the registry, otherwise the registry is unchanged |
| `Domain.StampOverwritesTimestamp` | backend/internal/handler/websocket_handler.go:67 | the stamped message carries the server clock and the inbound ID, Type, Content and Sender; the client's own timestamp has no effect on the result |
| `Trace.RemoveIsIdempotent` | backend/internal/handler/websocket_handler.go:60-64 | a removal takes out exactly that connection; removing it again, or removing an absent connection, changes nothing |
| `Backlog.Replay` | backend/internal/handler/websocket_handler.go:50-55 | the writes are the messages in the order given, each with its outcome; every write but the last succeeded; and if fewer writes than messages were made, the last one failed |
| `Backlog.ReplayStopsAtFirstFailure` | backend/internal/handler/websocket_handler.go:50-55 | with k the first failing index, exactly k+1 writes are attempted; if no write fails, every message is written |
| `Backlog.ReplayEffect` | backend/internal/handler/websocket_handler.go:50-55 | the replay registers and removes no connection; it writes only to the new connection, which is registered at the time |
| `Backlog.BacklogEffect` | backend/internal/handler/websocket_handler.go:46-56 | the backlog step leaves the registry unchanged in both outcomes of the fetch; a failed fetch produces no event at all |
| `Backlog.ReplayKeepsNewestFirst` | backend/internal/repository/postgres/message_repository.go:26-35 | a backlog that the query returns newest first reaches the connection newest first |
| `Broadcast.VisitEffect` | backend/internal/handler/websocket_handler.go:80-85 | visiting one connection writes to it once and to no other connection; it closes and removes that connection exactly when its write fails |
| `Broadcast.RoundRegistry` | backend/internal/handler/websocket_handler.go:79-85 | a round over registered connections, each visited once, leaves the registry minus exactly the failed ones; every write reaches a connection still registered at that moment |
| `Broadcast.RoundWrites` | backend/internal/handler/websocket_handler.go:79-85 | each connection in the round gets exactly one write attempt of the message and connections outside it get none; a connection is closed exactly when it is in the round and its write failed |
| `Broadcast.RoundSummary` | backend/internal/handler/websocket_handler.go:77-87 | appending a round to a valid history keeps the history valid. The registry becomes the connections whose write succeeded. Each connection gains exactly one write attempt. Exactly the failed connections are closed |

## Left out

- The WebSocket upgrade, JSON framing and `ReadJSON`/`WriteJSON` belong to gorilla/websocket and are not modelled. Only their success or failure and their payload are.
- Goroutines and the unbuffered `broadcast` channel are not modelled. A forwarded message is the value `ReadStep` returns, and the caller passes it to `BroadcastRound`.
- The data race on `clients` between the handler goroutines and the broadcaster is not modelled. The steps are atomic and sequential, so in the model a backlog replay cannot interleave with a broadcast round. In the Go program it can.
- The unbounded read loop is not a method of its own. Each iteration is one `ReadStep`, and the loop ends at the iteration whose read fails.
- The deferred `conn.Close()` runs when the handler returns. The model records it as the `Closed` event right after the removal in a failed `ReadStep`, the only way the loop ends.
- `time.Now()` is not modelled; the clock is a parameter. Timestamps are integers, so monotonicity of the clock is not assumed.
- Log output is a side effect and is not modelled.
- SQL persistence is database I/O and is not modelled: the repository's `Save` and `GetRecent`, and the schema setup in `backend/internal/database/db.go`. The outcome of a save and the fetched backlog are inputs. The 50-row limit is the only constant the handler passes.
- `backend/internal/service/message_service.go` only delegates to the repository and is not modelled.
- Startup plumbing in `backend/cmd/server/main.go` is not modelled: configuration, HTTP routing, static files and the health check.
- The React frontend and its reconnect timers are not modelled.
- `StartBroadcasting` is an endless loop; the model has one of its rounds, `BroadcastRound`.
- Go's `ID int64` is an unbounded `int` in the model. The handler only passes the ID through and never computes with it, so the width does not matter.
- Connection ids are fresh at each upgrade (`Connect` requires that the new id is not registered), as a new `*websocket.Conn` always is. Reuse of an id while it is still live is not modelled.
- JSON decoding is not modelled, only its outcome. A message whose fields do not decode into `Message` makes `ReadJSON` fail, and the handler then drops the connection (`ReadStep` with `ReadFailed`). This includes a `timestamp` that is not an RFC 3339 string. The bundled frontend sends `timestamp: Date.now()`, a JSON number (frontend/src/components/Chat.tsx:42). So the client's timestamp can decide whether a message is accepted at all, even though it never reaches `Stamp`.
- The Go code stores `true` as every value of `clients` and never reads the values. The model keeps them all `true`, which is part of `Valid()`.
