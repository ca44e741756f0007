/** The broadcast service (src/bin/broadcast.rs): a node records every value broadcast to it, in
    arrival order and with repeats, stores the topology it is told, and reports the recorded values
    on `read`. */
module BroadcastService {
  import opened Protocol
  import opened Runtime

  type Topology = map<string, seq<string>>

  datatype BroadcastPayload =
    | Broadcast(message: int)
    | BroadcastOk
    | Read
    | ReadOk(messages: seq<int>)
    | Topology(topology: Topology)
    | TopologyOk

  /** The payloads the service answers; any other one ends the process with an error. */
  predicate IsRequest(p: BroadcastPayload)
  {
    p.Broadcast? || p.Read? || p.Topology?
  }

  /** The service's own state, updated in place by the request loop. */
  class BroadcastState {
    var topology: Topology
    var messages: seq<int>

    constructor ()
      ensures topology == map[] && messages == []
    {
      topology := map[];
      messages := [];
    }
  }

  /** What the request loop reads and changes: the node's counter and the service state. */
  datatype View = View(counter: nat, topology: Topology, messages: seq<int>)

  datatype Outcome = Replied(next: View, reply: Message<BroadcastPayload>) | Unknown

  /** One message handled by node `self` in view `v`. */
  function Step(self: string, v: View, msg: Message<BroadcastPayload>): (r: Outcome)
    ensures r.Replied? <==> IsRequest(msg.body.payload)
    ensures r.Replied? ==>
      && Answers(r.reply, msg, self)
      && r.reply.body.msgId == Some(v.counter)
      && r.next.counter == v.counter + 1
      && v.messages <= r.next.messages
    ensures r.Replied? && msg.body.payload.Broadcast? ==>
      && r.reply.body.payload == BroadcastOk
      && r.next.messages == v.messages + [msg.body.payload.message]
      && r.next.topology == v.topology
    ensures r.Replied? && msg.body.payload.Topology? ==>
      && r.reply.body.payload == TopologyOk
      && r.next.messages == v.messages
      && r.next.topology == msg.body.payload.topology
    ensures r.Replied? && msg.body.payload.Read? ==>
      && r.reply.body.payload == ReadOk(v.messages)
      && r.next.messages == v.messages
      && r.next.topology == v.topology
  {
    match msg.body.payload
    case Broadcast(m) =>
      Replied(View(v.counter + 1, v.topology, v.messages + [m]), ReplyTo(msg, self, v.counter, BroadcastOk))
    case Topology(t) =>
      Replied(View(v.counter + 1, t, v.messages), ReplyTo(msg, self, v.counter, TopologyOk))
    case Read =>
      Replied(View(v.counter + 1, v.topology, v.messages), ReplyTo(msg, self, v.counter, ReadOk(v.messages)))
    case _ => Unknown
  }

  /** What the request loop writes, how it ends, and the view it leaves behind. */
  datatype Trace = Trace(replies: seq<Message<BroadcastPayload>>, exit: Exit, last: View)

  /** The request loop over `input`, one message at a time, from view `v`. */
  function Run(self: string, v: View, input: seq<Decoded<Message<BroadcastPayload>>>): (t: Trace)
    ensures |t.replies| <= |input|
    ensures t.last.counter == v.counter + |t.replies|
    ensures t.exit == Clean <==> |t.replies| == |input|
    decreases |input|
  {
    if input == [] then Trace([], Clean, v)
    else match input[0]
      case Malformed => Trace([], Error, v)
      case Decoded(msg) =>
        match Step(self, v, msg)
        case Unknown => Trace([], Error, v)
        case Replied(next, reply) =>
          var rest := Run(self, next, input[1..]);
          Trace([reply] + rest.replies, rest.exit, rest.last)
  }

  /** The values broadcast by `input`, in order, repeats included. */
  function Broadcasts(input: seq<Decoded<Message<BroadcastPayload>>>): seq<int>
    decreases |input|
  {
    if input == [] then []
    else if input[0].Decoded? && input[0].msg.body.payload.Broadcast? then
      [input[0].msg.body.payload.message] + Broadcasts(input[1..])
    else Broadcasts(input[1..])
  }

  /** The topology in force after `input`: the last one it sets, or `t` if it sets none. */
  function LastTopology(t: Topology, input: seq<Decoded<Message<BroadcastPayload>>>): Topology
    decreases |input|
  {
    if input == [] then t
    else if input[0].Decoded? && input[0].msg.body.payload.Topology? then
      LastTopology(input[0].msg.body.payload.topology, input[1..])
    else LastTopology(t, input[1..])
  }

  predicate IsRead(d: Decoded<Message<BroadcastPayload>>)
  {
    d.Decoded? && d.msg.body.payload.Read?
  }

  /** Handles one decoded message; the reply and the new counter, topology and values are `Step`'s.
      A payload the service does not answer changes nothing. */
  method HandleMessage(node: Node, state: BroadcastState, msg: Message<BroadcastPayload>)
    returns (reply: Option<Message<BroadcastPayload>>)
    modifies node, state
    ensures reply.Some? <==> IsRequest(msg.body.payload)
    ensures Step(node.id, old(View(node.messageId, state.topology, state.messages)), msg) ==
      if reply.Some? then Replied(View(node.messageId, state.topology, state.messages), reply.value) else Unknown
    ensures reply.None? ==> node.messageId == old(node.messageId)
    ensures reply.None? ==> state.topology == old(state.topology) && state.messages == old(state.messages)
    ensures node.id == old(node.id) && node.nodeIds == old(node.nodeIds)
    ensures node.rpcHandlers == old(node.rpcHandlers)
  {
    match msg.body.payload {
      case Broadcast(m) =>
        state.messages := state.messages + [m];
        var r := ReplyTo(msg, node.id, node.messageId, BroadcastOk);
        node.Send(r);
        reply := Some(r);
      case Topology(t) =>
        state.topology := t;
        var r := ReplyTo(msg, node.id, node.messageId, TopologyOk);
        node.Send(r);
        reply := Some(r);
      case Read =>
        var r := ReplyTo(msg, node.id, node.messageId, ReadOk(state.messages));
        node.Send(r);
        reply := Some(r);
      case _ =>
        reply := None;
    }
  }

  /** The request loop: the replies written, how it ends and the final view are `Run`'s. */
  method Serve(node: Node, state: BroadcastState, input: seq<Decoded<Message<BroadcastPayload>>>)
    returns (replies: seq<Message<BroadcastPayload>>, exit: Exit)
    modifies node, state
    ensures var t := Run(node.id, old(View(node.messageId, state.topology, state.messages)), input);
      && replies == t.replies && exit == t.exit
      && View(node.messageId, state.topology, state.messages) == t.last
    ensures node.id == old(node.id) && node.nodeIds == old(node.nodeIds)
    ensures node.rpcHandlers == old(node.rpcHandlers)
  {
    replies, exit := [], Clean;
    var i := 0;
    while i < |input|
      invariant i <= |input|
      invariant node.id == old(node.id) && node.nodeIds == old(node.nodeIds)
      invariant node.rpcHandlers == old(node.rpcHandlers)
      invariant
        var whole := Run(node.id, old(View(node.messageId, state.topology, state.messages)), input);
        var rest := Run(node.id, View(node.messageId, state.topology, state.messages), input[i..]);
        whole == Trace(replies + rest.replies, rest.exit, rest.last)
    {
      assert input[i..][1..] == input[i + 1..];
      match input[i] {
        case Malformed =>
          exit := Error;
          return;
        case Decoded(msg) =>
          var reply := HandleMessage(node, state, msg);
          if reply.None? {
            exit := Error;
            return;
          }
          replies := replies + [reply.value];
      }
      i := i + 1;
    }
  }

  /** The whole process: the handshake, then the request loop with a fresh node and an empty
      state. Replies are numbered 1, 2, ... after the `init_ok`'s 0. */
  method Process(first: FirstInput, input: seq<Decoded<Message<BroadcastPayload>>>)
    returns (initReply: Option<Message<InitPayload>>, replies: seq<Message<BroadcastPayload>>, exit: Exit)
    ensures Initialize(first).NotBooted? ==>
      initReply == None && replies == [] && exit == Initialize(first).exit
    ensures Initialize(first).Booted? ==>
      var t := Run(Initialize(first).id, View(1, map[], []), input);
      initReply == Some(Initialize(first).reply) && replies == t.replies && exit == t.exit
    ensures forall j :: 0 <= j < |replies| ==> replies[j].body.msgId == Some(j + 1)
  {
    var node, boot := Node.FromInit(first);
    if node == null {
      return None, [], boot.exit;
    }
    initReply := Some(boot.reply);
    var state := new BroadcastState();
    replies, exit := Serve(node, state, input);
    RunAnswers(boot.id, View(1, map[], []), input);
  }

  /** Each handled message gets exactly one reply, in order: reply j answers message j and is
      numbered from the counter on. The loop stops with an error at the first message that does not
      decode or is not a request, and without one only at the end of the input. */
  lemma {:induction false} RunAnswers(self: string, v: View, input: seq<Decoded<Message<BroadcastPayload>>>)
    ensures var t := Run(self, v, input);
      && (forall j :: 0 <= j < |t.replies| ==>
            && input[j].Decoded? && IsRequest(input[j].msg.body.payload)
            && Answers(t.replies[j], input[j].msg, self)
            && t.replies[j].body.msgId == Some(v.counter + j)
            && (input[j].msg.body.payload.Broadcast? ==> t.replies[j].body.payload == BroadcastOk)
            && (input[j].msg.body.payload.Topology? ==> t.replies[j].body.payload == TopologyOk)
            && (input[j].msg.body.payload.Read? ==> t.replies[j].body.payload.ReadOk?))
      && (t.exit == Clean <==> |t.replies| == |input|)
      && (t.exit != Clean ==>
            && t.exit == Error
            && (input[|t.replies|].Malformed? || !IsRequest(input[|t.replies|].msg.body.payload)))
    decreases |input|
  {
    if input != [] && input[0].Decoded? && IsRequest(input[0].msg.body.payload) {
      var next := Step(self, v, input[0].msg).next;
      RunAnswers(self, next, input[1..]);
    }
  }

  /** After the loop, the counter has risen by one per reply, the topology is the last one set, and
      the values are the old ones followed by every value broadcast, repeats kept. */
  lemma {:induction false} RunFinalView(self: string, v: View, input: seq<Decoded<Message<BroadcastPayload>>>)
    ensures var t := Run(self, v, input);
      var handled := input[..|t.replies|];
      t.last == View(v.counter + |t.replies|, LastTopology(v.topology, handled), v.messages + Broadcasts(handled))
    decreases |input|
  {
    RunAnswers(self, v, input);
    var t := Run(self, v, input);
    if input == [] || input[0].Malformed? || !IsRequest(input[0].msg.body.payload) {
      assert input[..|t.replies|] == [];
    } else {
      var next := Step(self, v, input[0].msg).next;
      RunFinalView(self, next, input[1..]);
      RunAnswers(self, next, input[1..]);
      var n := |t.replies|;
      assert input[..n][1..] == input[1..][..n - 1];
      assert input[..n][0] == input[0];
    }
  }

  /** Every `read_ok` lists the values the node held before the loop, then every value broadcast to
      it by the messages before the `read`, in arrival order. */
  lemma {:induction false} RunReads(self: string, v: View, input: seq<Decoded<Message<BroadcastPayload>>>, j: nat)
    requires j < |input| && IsRead(input[j])
    requires j < |Run(self, v, input).replies|
    ensures Run(self, v, input).replies[j].body.payload == ReadOk(v.messages + Broadcasts(input[..j]))
    decreases |input|
  {
    if j == 0 {
      assert input[..j] == [];
    } else {
      RunAnswers(self, v, input);
      var next := Step(self, v, input[0].msg).next;
      RunReads(self, next, input[1..], j - 1);
      assert input[..j][1..] == input[1..][..j - 1];
      assert input[..j][0] == input[0];
    }
  }

  /** A value in `Broadcasts(input)` for every broadcast message in `input`. */
  lemma {:induction false} BroadcastsHas(input: seq<Decoded<Message<BroadcastPayload>>>, i: nat)
    requires i < |input| && input[i].Decoded? && input[i].msg.body.payload.Broadcast?
    ensures input[i].msg.body.payload.message in Broadcasts(input)
    decreases |input|
  {
    if i > 0 {
      BroadcastsHas(input[1..], i - 1);
    }
  }

  /** No loss: a value broadcast to the node is in every later `read_ok`, along with every value it
      held before the loop started. */
  lemma NoLoss(self: string, v: View, input: seq<Decoded<Message<BroadcastPayload>>>, i: nat, j: nat)
    requires i < j < |input|
    requires input[i].Decoded? && input[i].msg.body.payload.Broadcast?
    requires IsRead(input[j]) && j < |Run(self, v, input).replies|
    ensures var read := Run(self, v, input).replies[j].body.payload;
      && read.ReadOk?
      && input[i].msg.body.payload.message in read.messages
      && v.messages <= read.messages
  {
    RunReads(self, v, input, j);
    assert input[..j][i] == input[i];
    BroadcastsHas(input[..j], i);
  }

  /** Reply numbers strictly increase along the output, so no two replies share a `msg_id`. */
  lemma RepliesNumberedApart(self: string, v: View, input: seq<Decoded<Message<BroadcastPayload>>>, i: nat, j: nat)
    requires i < j < |Run(self, v, input).replies|
    ensures var replies := Run(self, v, input).replies;
      && replies[i].body.msgId.Some? && replies[j].body.msgId.Some?
      && replies[i].body.msgId.value < replies[j].body.msgId.value
  {
    RunAnswers(self, v, input);
  }
}
