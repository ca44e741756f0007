# Maelstrom node runtime and services, modelled in Dafny

This project models a small Rust library for Maelstrom-style distributed-systems exercises. It has a
node runtime (`src/lib.rs`) and three services built on it: `broadcast`, `uid` (unique ids) and
`echo` (`src/bin/*.rs`). Each process reads JSON messages one per unit of input. The first message
is the `init` handshake. Every later request gets one reply, numbered from the node's message
counter.

Modules, one per file:

- `Protocol` (`protocol.dfy`): the envelope `Message`/`Body` with optional `msgId` and
  `inReplyTo`, and the `init`/`init_ok` payloads. `Decoded<T>` stands for one decoded or malformed
  unit of input. `Exit` says how a process ends: at the end of input (`Clean`), with an error
  returned from `main` (`Error`), or in a panic (`Panic`).
- `Runtime` (`runtime.dfy`): the class `Node`, with fields `id`, `nodeIds`, `messageId` and
  `rpcHandlers`, and its operations `FromInit`, `Send`, `Rpc` and `Handle`. The pure function
  `Initialize` specifies the handshake, and `Take` specifies how an entry leaves the table of
  outstanding requests.
- `Decimal` (`decimal.dfy`): the decimal text of a counter, as `format!("{}")` writes it, and its
  inverse.
- `BroadcastService`, `UidService`, `EchoService`: one module per binary. Each has a pure `Step`
  (one message) and `Run` (the request loop over the whole input) that specify the service. Three
  imperative methods are proved against them. `HandleMessage` is one arm of the `match`, updating the
  `Node` (and, for broadcast, the `BroadcastState` class) in place. `Serve` is the `for msg in input`
  loop. `Process` is all of `main`: the handshake, then the loop. Lemmas about `Run` state what the
  service promises over a whole run.

Notes on the code's behaviour:

- `broadcast` keeps its values in a `Vec<i32>`. A repeated value is stored, and reported by `read`,
  once per broadcast. It is not a set.
- There is no gossip, timer, per-neighbour knowledge or neighbour selection. The topology is
  stored and never read.
- Every reply, including `broadcast_ok` and `init_ok`, carries a `msg_id`.
- `Node::handle` with an `in_reply_to` that has no entry in the table does nothing and returns
  `Ok`. It does not pass the message on to a per-payload handler.

## Model

| member | source | states |
|---|---|---|
| `Protocol.ReplyTo` | src/bin/broadcast.rs:54-62 | The reply built for a request answers it: its source is the node, its destination the request's sender, its `in_reply_to` the request's `msg_id`; it carries the given `msg_id` and payload. |
| `Runtime.Initialize` | src/lib.rs:17-54 | The handshake succeeds exactly when the first input decodes as `init`. The node then takes `node_id` and `node_ids` from it, and the `init_ok` reply answers the `init` (source = new id, dest = init sender, `in_reply_to` = init `msg_id`) with `msg_id` 0. Absent or undecodable input is an error; an `init_ok` is a panic. |
| `Runtime.Node.FromInit` | src/lib.rs:17-54 | Returns a fresh node exactly when `Initialize` succeeds. The node has the `init`'s id and member list, an empty handler table and counter 1, because the `init_ok` took number 0. Otherwise it returns `Initialize`'s failure. |
| `Runtime.Node.constructor` | src/lib.rs:26-31 | A new node has the given id and members, counter 0 and no outstanding requests. |
| `Runtime.Node.Send` | src/lib.rs:56-60 | Sending raises the counter by exactly 1 and leaves id, members and handler table unchanged. |
| `Runtime.Node.Rpc` | src/lib.rs:62-71 | Requires the request to have a `msg_id`. Afterwards the table maps that id to the new handler, replacing any earlier one, and every other key is unchanged. The counter rises by 1. |
| `Runtime.Node.Handle` | src/lib.rs:73-82 | Requires an `in_reply_to`. If that key is in the table, its entry is removed, its handler is returned as the one that ran, and the result is that handler's run over the state. Otherwise table, counter and state are unchanged and the result is `Ok`. |
| `Runtime.Take` | src/lib.rs:74-77 | Removing key `k` yields the handler stored under `k`, if any. The remaining table has exactly the other keys, with their old handlers. |
| `Runtime.TakeAtMostOnce` | src/lib.rs:74-79 | A second removal of the same `in_reply_to` finds nothing and leaves the table as it is, so a handler runs at most once. |
| `Runtime.RegisterThenTake` | src/lib.rs:67-77 | A handler registered under `k` is the one a reply to `k` takes. Afterwards the table is what it was without `k`. |
| `Decimal.Format` | src/bin/uid.rs:29 | The decimal text of a counter is non-empty, made only of digits and has no leading zero. |
| `Decimal.ParseFormat` | src/bin/uid.rs:29 | Parsing the decimal text of `n` gives back `n`. |
| `Decimal.FormatInjective` | src/bin/uid.rs:29 | Distinct counters have distinct decimal texts. |
| `UidService.GeneratedId` | src/bin/uid.rs:29 | The id is the node id, then `:`, then a non-empty numeral, so it is longer than the node id plus one. |
| `UidService.ParseGenerated` | src/bin/uid.rs:29 | Splitting `"<node id>:<counter>"` at its last `:` recovers both the node id and the counter, because the decimal suffix holds no `:`. |
| `UidService.GeneratedIdInjective` | src/bin/uid.rs:29 | Two generated ids are equal only when they have the same node id and the same counter. So ids from differently named nodes never collide. |
| `UidService.Step` | src/bin/uid.rs:27-45 | A message is answered exactly when it is a `generate`. The reply answers it, carries the current counter as `msg_id` and the id `"<node id>:<counter>"`. A `generate_ok` gets no reply (the panic). |
| `UidService.Run` | src/bin/uid.rs:23-46 | The loop writes at most one reply per input, the counter ends one higher per reply, and the loop ends cleanly exactly when every input was answered. |
| `UidService.HandleMessage` | src/bin/uid.rs:27-45 | A `generate` is answered as `Step` says and the counter rises by 1. A `generate_ok` gives no reply (the panic) and changes nothing. |
| `UidService.Serve` | src/bin/uid.rs:23-47 | The request loop writes exactly `Run`'s replies, ends as `Run` does, and leaves the counter where `Run` does. |
| `UidService.Process` | src/bin/uid.rs:16-49 | After a handshake, the replies are `Run`'s from counter 1, numbered 1, 2, ... after the `init_ok`'s 0, and no two of them carry the same id. Without a handshake there are no replies and the exit is the handshake's. |
| `UidService.RunGenerates` | src/bin/uid.rs:23-45 | Reply `j` answers input `j`, which is a `generate`: dest = its source, src = node id, `in_reply_to` = its `msg_id`. The reply has `msg_id` = counter + j and id = `"<node id>:<counter + j>"`. The counter ends one higher per reply. The loop ends cleanly exactly when all input is answered, with an error at undecodable input, and with a panic at a `generate_ok`. |
| `UidService.IdNumberIsMsgId` | src/bin/uid.rs:29-35 | The number after the last `:` of each generated id is the `msg_id` of the reply that carries it, and the part before it is the node id. |
| `UidService.RunIdsDistinct` | src/bin/uid.rs:29-41 | The ids one node issues in a run are pairwise distinct, because the counter rises between them. |
| `EchoService.Step` | src/bin/echo.rs:27-43 | A message is answered exactly when it is an `echo`. The reply answers it, carries the current counter as `msg_id` and the same `echo` text. An `echo_ok` gets no reply (the panic). |
| `EchoService.Run` | src/bin/echo.rs:23-44 | The loop writes at most one reply per input, the counter ends one higher per reply, and the loop ends cleanly exactly when every input was answered. |
| `EchoService.HandleMessage` | src/bin/echo.rs:27-43 | An `echo` is answered as `Step` says and the counter rises by 1. An `echo_ok` gives no reply (the panic) and changes nothing. |
| `EchoService.Serve` | src/bin/echo.rs:23-46 | The request loop writes exactly `Run`'s replies, ends as `Run` does, and leaves the counter where `Run` does. |
| `EchoService.Process` | src/bin/echo.rs:16-47 | After a handshake, the replies are `Run`'s from counter 1, numbered 1, 2, ... after the `init_ok`'s 0. Without a handshake there are no replies and the exit is the handshake's. |
| `EchoService.RunEchoes` | src/bin/echo.rs:23-44 | Reply `j` answers input `j`, which is an `echo`: dest = its source, src = node id, `in_reply_to` = its `msg_id`. The reply has `msg_id` = counter + j and carries exactly the same `echo` text. The counter rises by 1 per reply. The loop ends cleanly exactly when all input is answered, with an error at undecodable input, and with a panic at an `echo_ok`. |
| `BroadcastService.BroadcastState.constructor` | src/bin/broadcast.rs:30-34 | The default state has an empty topology and no values. |
| `BroadcastService.Step` | src/bin/broadcast.rs:50-98 | A message is answered exactly when it is a `broadcast`, `topology` or `read`. The reply answers it with `msg_id` = counter and the counter rises by 1. A `broadcast` appends its value and gets `broadcast_ok`; a `topology` replaces the topology and gets `topology_ok`; a `read` gets `read_ok` with the values held. No value is ever dropped. |
| `BroadcastService.Run` | src/bin/broadcast.rs:47-100 | The loop writes at most one reply per input, the counter ends one higher per reply, and the loop ends cleanly exactly when every input was answered. |
| `BroadcastService.HandleMessage` | src/bin/broadcast.rs:50-99 | A message is answered exactly when it is a `broadcast`, `topology` or `read`. The reply, new counter, topology and values are `Step`'s: append the value, replace the topology, or report the values. Any other payload changes nothing. |
| `BroadcastService.Serve` | src/bin/broadcast.rs:47-100 | The request loop writes exactly `Run`'s replies, ends as `Run` does, and leaves the counter, topology and values where `Run` does. |
| `BroadcastService.Process` | src/bin/broadcast.rs:36-103 | After a handshake, the replies are `Run`'s from counter 1 with an empty state, numbered 1, 2, ... after the `init_ok`'s 0. Without a handshake there are no replies and the exit is the handshake's. |
| `BroadcastService.RunAnswers` | src/bin/broadcast.rs:47-99 | Every handled request gets exactly one reply, in order. Reply `j` answers input `j` (dest = its source, `in_reply_to` = its `msg_id`) with `msg_id` = counter + j, whether or not the value was new. A `broadcast` gets `broadcast_ok`, a `topology` gets `topology_ok` and a `read` gets a `read_ok`. The loop ends cleanly only at the end of input. It stops with an error, and no reply, at undecodable input or at a `broadcast_ok`, `read_ok` or `topology_ok`. |
| `BroadcastService.RunFinalView` | src/bin/broadcast.rs:51-80 | After the loop the counter has risen by one per reply. The topology is the last one set, so the last writer wins. The values are the old ones followed by every broadcast value in arrival order, duplicates kept. |
| `BroadcastService.RunReads` | src/bin/broadcast.rs:83-96 | Each `read_ok` lists the values held before the loop, then every value broadcast before that `read`, in order. |
| `BroadcastService.NoLoss` | src/bin/broadcast.rs:51-96 | A value accepted by a `broadcast` appears in every later `read_ok`, and so does every value held before. |
| `BroadcastService.RepliesNumberedApart` | src/bin/broadcast.rs:54-96 | Reply `msg_id`s strictly increase along the output, so they are pairwise distinct. |

## Left out

- Reading stdin and writing stdout, and JSON encoding and decoding (`serde_json`, the derived
  `Serialize`/`Deserialize`, `tag`, `flatten`, `skip_serializing_if`). Messages are decoded
  datatypes, a unit that fails to decode is `Malformed`, and what a process writes is the sequence
  of replies its methods return.
- Failure of `serde_json::to_string` (src/lib.rs:43, 57) cannot happen for these payloads. A write
  failure in `println!` would be a panic. Neither is modelled, so `Send` always succeeds.
- `Runtime.Node.Send`: the counter is an unbounded `nat`. The `i32` overflow of `message_id` is not
  modelled; it would need more than 2^31 messages.
- Reply handlers are boxed closures in the source. Here a handler is an opaque token `Handler`, and
  `Handle` takes a function `run` that interprets it.
- `Runtime.Node.Handle`: the handler gets the service state and the reply. It does not get the
  read-only node reference the source also hands it. The state is passed by value and returned
  inside `Result`, not mutated through `&mut`. So a handler that changes the state and then fails
  keeps its partial change in the source, while the model drops the state on `Err`; nothing the
  model observes depends on that state after an error.
- `Runtime.Node.Rpc` and `Runtime.Node.Handle`: the `unwrap` of a missing `msg_id`
  (src/lib.rs:68) or `in_reply_to` (src/lib.rs:76) is a `requires` here, while the services'
  panics become `Exit.Panic`. No service calls either operation.
- The `i32` fields `message`, `msg_id` and `in_reply_to` (src/bin/broadcast.rs:15, src/lib.rs:99,
  103) are unbounded `int`s. No arithmetic is done on them, so no overflow can differ.
- The error texts of `anyhow` (`context`, `bail!`, `anyhow!`) and the `eprintln!` logging in
  `uid` and `echo`: an error is `Exit.Error` with no message.
- The `mpsc` channel created in `broadcast` (src/bin/broadcast.rs:37) is never used. No
  concurrency is modelled.
- Gossip, timers, per-neighbour knowledge and neighbour selection: none of these is in the code.
- `Rpc` and `Handle` are modelled, but no service calls them. `nodeIds` is stored and never read.
