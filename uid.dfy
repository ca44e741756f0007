/** The unique-id service (src/bin/uid.rs): every `generate` is answered with the id
    "<node id>:<counter>", the counter being the reply's own message number. */
module UidService {
  import opened Protocol
  import opened Runtime
  import Decimal

  datatype UidPayload = Generate | GenerateOk(id: string)

  /** The id node `nodeId` hands out while its counter is at `counter`. */
  function GeneratedId(nodeId: string, counter: nat): (s: string)
    ensures |s| > |nodeId| + 1
    ensures s[..|nodeId|] == nodeId && s[|nodeId|] == ':'
    ensures Decimal.IsNumeral(s[|nodeId| + 1..])
  {
    nodeId + ":" + Decimal.Format(counter)
  }

  /** The position of the last occurrence of `c` in `s`, if any. */
  function LastIndexOf(s: string, c: char): (r: Option<nat>)
    ensures r.Some? ==> r.value < |s| && s[r.value] == c && c !in s[r.value + 1..]
    ensures r.None? ==> c !in s
    decreases |s|
  {
    if s == [] then None
    else if s[|s| - 1] == c then Some(|s| - 1)
    else LastIndexOf(s[..|s| - 1], c)
  }

  /** Reads an id back: what precedes its last ':' and the number after it, if that is a numeral. */
  function ParseId(s: string): Option<(string, nat)>
  {
    match LastIndexOf(s, ':')
    case None => None
    case Some(k) =>
      var suffix := s[k + 1..];
      if suffix != [] && Decimal.IsNumeral(suffix) then Some((s[..k], Decimal.Parse(suffix))) else None
  }

  /** Splitting a generated id at its last ':' recovers the node id and the counter, because the
      decimal text of the counter holds no ':'. */
  lemma ParseGenerated(nodeId: string, counter: nat)
    ensures ParseId(GeneratedId(nodeId, counter)) == Some((nodeId, counter))
  {
    var digits := Decimal.Format(counter);
    var s := GeneratedId(nodeId, counter);
    assert ':' !in digits by {
      forall i | 0 <= i < |digits| ensures digits[i] != ':' {
        assert Decimal.IsDigit(digits[i]);
      }
    }
    var k := |nodeId|;
    assert s[k] == ':';
    assert LastIndexOf(s, ':') == Some(k);
    assert s[k + 1..] == digits && s[..k] == nodeId;
    Decimal.ParseFormat(counter);
  }

  /** Ids never collide: equal ids come from the same node with the same counter, so ids of nodes
      with different names differ, and one node never issues the same id twice. */
  lemma GeneratedIdInjective(a: string, n: nat, b: string, m: nat)
    requires GeneratedId(a, n) == GeneratedId(b, m)
    ensures a == b && n == m
  {
    ParseGenerated(a, n);
    ParseGenerated(b, m);
  }

  /** The reply to one message when the counter is at `counter`; `None` where the source panics. */
  function Step(self: string, counter: nat, msg: Message<UidPayload>): (r: Option<Message<UidPayload>>)
    ensures r.Some? <==> msg.body.payload.Generate?
    ensures r.Some? ==>
      && Answers(r.value, msg, self)
      && r.value.body.msgId == Some(counter)
      && r.value.body.payload == GenerateOk(GeneratedId(self, counter))
  {
    match msg.body.payload
    case Generate => Some(ReplyTo(msg, self, counter, GenerateOk(GeneratedId(self, counter))))
    case GenerateOk(_) => None
  }

  /** What the request loop writes and how it ends, and the counter it leaves behind. */
  datatype Trace = Trace(replies: seq<Message<UidPayload>>, exit: Exit, counter: nat)

  /** The request loop over `input`, one message at a time, from counter `counter`. */
  function Run(self: string, counter: nat, input: seq<Decoded<Message<UidPayload>>>): (t: Trace)
    ensures |t.replies| <= |input|
    ensures t.counter == counter + |t.replies|
    ensures t.exit == Clean <==> |t.replies| == |input|
    decreases |input|
  {
    if input == [] then Trace([], Clean, counter)
    else match input[0]
      case Malformed => Trace([], Error, counter)
      case Decoded(msg) =>
        match Step(self, counter, msg)
        case None => Trace([], Panic, counter)
        case Some(reply) =>
          var rest := Run(self, counter + 1, input[1..]);
          Trace([reply] + rest.replies, rest.exit, rest.counter)
  }

  /** Handles one decoded message: answers a `generate`; a `generate_ok` leaves everything as it was. */
  method HandleMessage(node: Node, msg: Message<UidPayload>) returns (reply: Option<Message<UidPayload>>)
    modifies node
    ensures reply == Step(old(node.id), old(node.messageId), msg)
    ensures node.messageId == old(node.messageId) + if reply.Some? then 1 else 0
    ensures node.id == old(node.id) && node.nodeIds == old(node.nodeIds)
    ensures node.rpcHandlers == old(node.rpcHandlers)
  {
    match msg.body.payload {
      case Generate =>
        var generated := node.id + ":" + Decimal.Format(node.messageId);
        var r := ReplyTo(msg, node.id, node.messageId, GenerateOk(generated));
        node.Send(r);
        reply := Some(r);
      case GenerateOk(_) =>
        reply := None;
    }
  }

  /** The request loop: the replies written, how it ends and the final counter are `Run`'s. */
  method Serve(node: Node, input: seq<Decoded<Message<UidPayload>>>)
    returns (replies: seq<Message<UidPayload>>, exit: Exit)
    modifies node
    ensures var t := Run(node.id, old(node.messageId), input);
      replies == t.replies && exit == t.exit && node.messageId == t.counter
    ensures node.id == old(node.id) && node.nodeIds == old(node.nodeIds)
    ensures node.rpcHandlers == old(node.rpcHandlers)
  {
    replies, exit := [], Clean;
    var i := 0;
    while i < |input|
      invariant i <= |input|
      invariant node.id == old(node.id) && node.nodeIds == old(node.nodeIds)
      invariant node.rpcHandlers == old(node.rpcHandlers)
      invariant var whole, rest := Run(node.id, old(node.messageId), input), Run(node.id, node.messageId, input[i..]);
        whole == Trace(replies + rest.replies, rest.exit, rest.counter)
    {
      assert input[i..][1..] == input[i + 1..];
      match input[i] {
        case Malformed =>
          exit := Error;
          return;
        case Decoded(msg) =>
          var reply := HandleMessage(node, msg);
          if reply.None? {
            exit := Panic;
            return;
          }
          replies := replies + [reply.value];
      }
      i := i + 1;
    }
  }

  /** The whole process: the handshake, then the request loop with a fresh node. Replies are
      numbered 1, 2, ... after the `init_ok`'s 0, and no two of them carry the same id. */
  method Process(first: FirstInput, input: seq<Decoded<Message<UidPayload>>>)
    returns (initReply: Option<Message<InitPayload>>, replies: seq<Message<UidPayload>>, exit: Exit)
    ensures Initialize(first).NotBooted? ==>
      initReply == None && replies == [] && exit == Initialize(first).exit
    ensures Initialize(first).Booted? ==>
      var t := Run(Initialize(first).id, 1, input);
      initReply == Some(Initialize(first).reply) && replies == t.replies && exit == t.exit
    ensures forall j :: 0 <= j < |replies| ==> replies[j].body.msgId == Some(j + 1)
    ensures forall i, j :: 0 <= i < j < |replies| ==> replies[i].body.payload != replies[j].body.payload
  {
    var node, boot := Node.FromInit(first);
    if node == null {
      return None, [], boot.exit;
    }
    initReply := Some(boot.reply);
    replies, exit := Serve(node, input);
    RunGenerates(boot.id, 1, input);
    forall i, j | 0 <= i < j < |replies| ensures replies[i].body.payload != replies[j].body.payload {
      RunIdsDistinct(boot.id, 1, input, i, j);
    }
  }

  /** Each reply answers the message at the same position with the id built from the node's name
      and the reply's own number; the loop stops at the first message it cannot handle. */
  lemma {:induction false} RunGenerates(self: string, counter: nat, input: seq<Decoded<Message<UidPayload>>>)
    ensures var t := Run(self, counter, input);
      && t.counter == counter + |t.replies|
      && (forall j :: 0 <= j < |t.replies| ==>
            && input[j].Decoded? && input[j].msg.body.payload.Generate?
            && Answers(t.replies[j], input[j].msg, self)
            && t.replies[j].body.msgId == Some(counter + j)
            && t.replies[j].body.payload == GenerateOk(GeneratedId(self, counter + j)))
      && (t.exit == Clean <==> |t.replies| == |input|)
      && (t.exit == Error <==> |t.replies| < |input| && input[|t.replies|].Malformed?)
      && (t.exit == Panic <==> |t.replies| < |input| && input[|t.replies|].Decoded?)
      && (t.exit == Panic ==> input[|t.replies|].msg.body.payload.GenerateOk?)
    decreases |input|
  {
    if input != [] && input[0].Decoded? && input[0].msg.body.payload.Generate? {
      RunGenerates(self, counter + 1, input[1..]);
    }
  }

  /** The number in each generated id is the `msg_id` of the reply that carries it. */
  lemma IdNumberIsMsgId(self: string, counter: nat, input: seq<Decoded<Message<UidPayload>>>, j: nat)
    requires j < |Run(self, counter, input).replies|
    ensures var reply := Run(self, counter, input).replies[j];
      reply.body.payload.GenerateOk? && reply.body.msgId.Some? &&
      ParseId(reply.body.payload.id) == Some((self, reply.body.msgId.value))
  {
    RunGenerates(self, counter, input);
    ParseGenerated(self, counter + j);
  }

  /** The ids one node hands out in one run are pairwise distinct. */
  lemma RunIdsDistinct(self: string, counter: nat, input: seq<Decoded<Message<UidPayload>>>, i: nat, j: nat)
    requires i < j < |Run(self, counter, input).replies|
    ensures var replies := Run(self, counter, input).replies;
      && replies[i].body.payload.GenerateOk? && replies[j].body.payload.GenerateOk?
      && replies[i].body.payload.id != replies[j].body.payload.id
  {
    RunGenerates(self, counter, input);
    if GeneratedId(self, counter + i) == GeneratedId(self, counter + j) {
      GeneratedIdInjective(self, counter + i, self, counter + j);
    }
  }
}
