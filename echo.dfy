/** The echo service (src/bin/echo.rs): every `echo` is answered with an `echo_ok` carrying the
    same text. */
module EchoService {
  import opened Protocol
  import opened Runtime

  datatype EchoPayload = Echo(echo: string) | EchoOk(echo: string)

  /** The reply to one message when the counter is at `counter`; `None` where the source panics. */
  function Step(self: string, counter: nat, msg: Message<EchoPayload>): (r: Option<Message<EchoPayload>>)
    ensures r.Some? <==> msg.body.payload.Echo?
    ensures r.Some? ==>
      && Answers(r.value, msg, self)
      && r.value.body.msgId == Some(counter)
      && r.value.body.payload == EchoOk(msg.body.payload.echo)
  {
    match msg.body.payload
    case Echo(echo) => Some(ReplyTo(msg, self, counter, EchoOk(echo)))
    case EchoOk(_) => None
  }

  /** What the request loop writes and how it ends, and the counter it leaves behind. */
  datatype Trace = Trace(replies: seq<Message<EchoPayload>>, exit: Exit, counter: nat)

  /** The request loop over `input`, one message at a time, from counter `counter`. */
  function Run(self: string, counter: nat, input: seq<Decoded<Message<EchoPayload>>>): (t: Trace)
    ensures |t.replies| <= |input|
    ensures t.counter == counter + |t.replies|
    ensures t.exit == Clean <==> |t.replies| == |input|
    decreases |input|
  {
    if input == [] then Trace([], Clean, counter)
    else match input[0]
      case Malformed => Trace([], Error, counter)
      case Decoded(msg) =>
        match Step(self, counter, msg)
        case None => Trace([], Panic, counter)
        case Some(reply) =>
          var rest := Run(self, counter + 1, input[1..]);
          Trace([reply] + rest.replies, rest.exit, rest.counter)
  }

  /** Handles one decoded message: answers an `echo`; an `echo_ok` leaves everything as it was. */
  method HandleMessage(node: Node, msg: Message<EchoPayload>) returns (reply: Option<Message<EchoPayload>>)
    modifies node
    ensures reply == Step(old(node.id), old(node.messageId), msg)
    ensures node.messageId == old(node.messageId) + if reply.Some? then 1 else 0
    ensures node.id == old(node.id) && node.nodeIds == old(node.nodeIds)
    ensures node.rpcHandlers == old(node.rpcHandlers)
  {
    match msg.body.payload {
      case Echo(echo) =>
        var r := ReplyTo(msg, node.id, node.messageId, EchoOk(echo));
        node.Send(r);
        reply := Some(r);
      case EchoOk(_) =>
        reply := None;
    }
  }

  /** The request loop: the replies written, how it ends and the final counter are `Run`'s. */
  method Serve(node: Node, input: seq<Decoded<Message<EchoPayload>>>)
    returns (replies: seq<Message<EchoPayload>>, exit: Exit)
    modifies node
    ensures var t := Run(node.id, old(node.messageId), input);
      replies == t.replies && exit == t.exit && node.messageId == t.counter
    ensures node.id == old(node.id) && node.nodeIds == old(node.nodeIds)
    ensures node.rpcHandlers == old(node.rpcHandlers)
  {
    replies, exit := [], Clean;
    var i := 0;
    while i < |input|
      invariant i <= |input|
      invariant node.id == old(node.id) && node.nodeIds == old(node.nodeIds)
      invariant node.rpcHandlers == old(node.rpcHandlers)
      invariant var whole, rest := Run(node.id, old(node.messageId), input), Run(node.id, node.messageId, input[i..]);
        whole == Trace(replies + rest.replies, rest.exit, rest.counter)
    {
      assert input[i..][1..] == input[i + 1..];
      match input[i] {
        case Malformed =>
          exit := Error;
          return;
        case Decoded(msg) =>
          var reply := HandleMessage(node, msg);
          if reply.None? {
            exit := Panic;
            return;
          }
          replies := replies + [reply.value];
      }
      i := i + 1;
    }
  }

  /** The whole process: the handshake, then the request loop with a fresh node. */
  method Process(first: FirstInput, input: seq<Decoded<Message<EchoPayload>>>)
    returns (initReply: Option<Message<InitPayload>>, replies: seq<Message<EchoPayload>>, exit: Exit)
    ensures Initialize(first).NotBooted? ==>
      initReply == None && replies == [] && exit == Initialize(first).exit
    ensures Initialize(first).Booted? ==>
      var t := Run(Initialize(first).id, 1, input);
      initReply == Some(Initialize(first).reply) && replies == t.replies && exit == t.exit
    ensures forall j :: 0 <= j < |replies| ==> replies[j].body.msgId == Some(j + 1)
  {
    var node, boot := Node.FromInit(first);
    if node == null {
      return None, [], boot.exit;
    }
    initReply := Some(boot.reply);
    replies, exit := Serve(node, input);
    RunEchoes(boot.id, 1, input);
  }

  /** Each reply answers the message at the same position, echoes its text exactly and is numbered
      from the counter on; the loop stops at the first message it cannot handle. */
  lemma {:induction false} RunEchoes(self: string, counter: nat, input: seq<Decoded<Message<EchoPayload>>>)
    ensures var t := Run(self, counter, input);
      && t.counter == counter + |t.replies|
      && (forall j :: 0 <= j < |t.replies| ==>
            && input[j].Decoded? && input[j].msg.body.payload.Echo?
            && Answers(t.replies[j], input[j].msg, self)
            && t.replies[j].body.msgId == Some(counter + j)
            && t.replies[j].body.payload == EchoOk(input[j].msg.body.payload.echo))
      && (t.exit == Clean <==> |t.replies| == |input|)
      && (t.exit == Error <==> |t.replies| < |input| && input[|t.replies|].Malformed?)
      && (t.exit == Panic <==> |t.replies| < |input| && input[|t.replies|].Decoded?)
      && (t.exit == Panic ==> input[|t.replies|].msg.body.payload.EchoOk?)
    decreases |input|
  {
    if input != [] && input[0].Decoded? && input[0].msg.body.payload.Echo? {
      RunEchoes(self, counter + 1, input[1..]);
    }
  }
}
