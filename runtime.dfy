/** The node runtime (src/lib.rs): a node's identity, the cluster's member list, the counter that
    numbers outgoing messages, and the table of requests still waiting for their reply. */
module Runtime {
  import opened Protocol

  /** A reply continuation registered by `Rpc`, reduced to an opaque token naming what to do. */
  datatype Handler = Handler(kind: nat)

  /** What running a continuation over the service state gives: the new state, or an error. */
  datatype Result<+T> = Ok(value: T) | Err

  /** The outcome of the start-up handshake. */
  datatype Boot =
    | Booted(id: string, nodeIds: seq<string>, reply: Message<InitPayload>)
    | NotBooted(exit: Exit)

  type FirstInput = Option<Decoded<Message<InitPayload>>>

  /** The first unit of input is there, decodes, and is an `init`. */
  predicate IsInit(first: FirstInput)
  {
    first.Some? && first.value.Decoded? && first.value.msg.body.payload.Init?
  }

  /** The handshake: adopt the identity an `init` names and answer it with `init_ok` numbered 0.
      No input, or input that does not decode, is an error; an `init_ok` is a panic. */
  function Initialize(first: FirstInput): (b: Boot)
    ensures b.Booted? <==> IsInit(first)
    ensures b.Booted? ==>
      var init := first.value.msg;
      && b.id == init.body.payload.nodeId
      && b.nodeIds == init.body.payload.nodeIds
      && Answers(b.reply, init, b.id)
      && b.reply.body.msgId == Some(0)
      && b.reply.body.payload == InitOk
    ensures b.NotBooted? ==> b.exit != Clean
    ensures b.NotBooted? ==> (b.exit == Panic <==> first.Some? && first.value.Decoded?)
  {
    match first
    case None => NotBooted(Error)
    case Some(Malformed) => NotBooted(Error)
    case Some(Decoded(init)) =>
      match init.body.payload
      case Init(nodeId, nodeIds) => Booted(nodeId, nodeIds, ReplyTo(init, nodeId, 0, InitOk))
      case InitOk => NotBooted(Panic)
  }

  /** Removes the entry for `k` from a table of outstanding requests: the handler found, if any,
      and the rest of the table. */
  function Take(table: map<int, Handler>, k: int): (r: (Option<Handler>, map<int, Handler>))
    ensures r.0 == if k in table then Some(table[k]) else None
    ensures r.1.Keys == table.Keys - {k}
    ensures forall j :: j in r.1 ==> r.1[j] == table[j]
  {
    if k in table then (Some(table[k]), table - {k}) else (None, table)
  }

  /** A continuation is taken at most once: a second `Take` of the same key finds nothing. */
  lemma TakeAtMostOnce(table: map<int, Handler>, k: int)
    ensures Take(Take(table, k).1, k) == (None, Take(table, k).1)
  {
  }

  /** Registering `h` under `k` and then taking `k` gives back `h`, and the rest of the table is
      what it was without `k`, whatever `k` held before. */
  lemma RegisterThenTake(table: map<int, Handler>, k: int, h: Handler)
    ensures Take(table[k := h], k) == (Some(h), table - {k})
  {
    assert table[k := h] - {k} == table - {k};
  }

  class Node {
    var id: string
    var nodeIds: seq<string>
    var messageId: nat
    var rpcHandlers: map<int, Handler>

    constructor (id: string, nodeIds: seq<string>)
      ensures this.id == id && this.nodeIds == nodeIds
      ensures messageId == 0 && rpcHandlers == map[]
    {
      this.id := id;
      this.nodeIds := nodeIds;
      messageId := 0;
      rpcHandlers := map[];
    }

    /** Builds a node from the first unit of input. The `init_ok` reply is in `boot`; it is sent
        with the counter at 0, so the node starts with the counter at 1. */
    static method FromInit(first: FirstInput) returns (node: Node?, boot: Boot)
      ensures boot == Initialize(first)
      ensures node != null <==> boot.Booted?
      ensures node != null ==>
        && fresh(node)
        && node.id == boot.id && node.nodeIds == boot.nodeIds
        && node.messageId == 1 && node.rpcHandlers == map[]
    {
      match first {
        case None =>
          node, boot := null, NotBooted(Error);
        case Some(Malformed) =>
          node, boot := null, NotBooted(Error);
        case Some(Decoded(init)) =>
          match init.body.payload {
            case Init(nodeId, nodeIds) =>
              node := new Node(nodeId, nodeIds);
              boot := Booted(nodeId, nodeIds, ReplyTo(init, nodeId, node.messageId, InitOk));
              node.messageId := node.messageId + 1;
            case InitOk =>
              node, boot := null, NotBooted(Panic);
          }
      }
    }

    /** Writes one message out; the only effect on the node is the next message number. */
    method Send<P>(toSend: Message<P>)
      modifies this
      ensures messageId == old(messageId) + 1
      ensures id == old(id) && nodeIds == old(nodeIds) && rpcHandlers == old(rpcHandlers)
    {
      messageId := messageId + 1;
    }

    /** Sends a request and registers `handler` for its reply under the request's `msg_id`,
        replacing any handler registered under that id before. */
    method Rpc<P>(toSend: Message<P>, handler: Handler)
      requires toSend.body.msgId.Some?
      modifies this
      ensures rpcHandlers == old(rpcHandlers)[toSend.body.msgId.value := handler]
      ensures messageId == old(messageId) + 1
      ensures id == old(id) && nodeIds == old(nodeIds)
    {
      rpcHandlers := rpcHandlers[toSend.body.msgId.value := handler];
      Send(toSend);
    }

    /** Takes the handler registered under the reply's `in_reply_to` and runs it once over `state`
        (`run` interprets a handler token); without one, nothing happens and the state is kept. */
    method Handle<S, P>(state: S, msg: Message<P>, run: (Handler, S, Message<P>) -> Result<S>)
      returns (ran: Option<Handler>, r: Result<S>)
      requires msg.body.inReplyTo.Some?
      modifies this
      ensures (ran, rpcHandlers) == Take(old(rpcHandlers), msg.body.inReplyTo.value)
      ensures r == if ran.Some? then run(ran.value, state, msg) else Ok(state)
      ensures messageId == old(messageId) && id == old(id) && nodeIds == old(nodeIds)
    {
      var k := msg.body.inReplyTo.value;
      if k in rpcHandlers {
        var h := rpcHandlers[k];
        rpcHandlers := rpcHandlers - {k};
        ran := Some(h);
        r := run(h, state, msg);
      } else {
        ran := None;
        r := Ok(state);
      }
    }
  }
}
