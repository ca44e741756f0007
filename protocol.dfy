/** The message envelope shared by every node (src/lib.rs, Message and Body).
    JSON decoding is reduced to a decoded-or-malformed unit of input. */
module Protocol {

  datatype Option<+T> = None | Some(value: T)

  /** One unit of the input stream after JSON decoding: a message, or bytes that did not decode. */
  datatype Decoded<+T> = Decoded(msg: T) | Malformed

  /** `msgId` and `inReplyTo` are the optional `msg_id` and `in_reply_to` of the wire format. */
  datatype Body<+P> = Body(msgId: Option<int>, inReplyTo: Option<int>, payload: P)

  datatype Message<+P> = Message(src: string, dest: string, body: Body<P>)

  /** The handshake payloads every node understands before its own service starts. */
  datatype InitPayload = Init(nodeId: string, nodeIds: seq<string>) | InitOk

  /** How a process ends: at the end of its input, with an error returned from `main`, or in a panic. */
  datatype Exit = Clean | Error | Panic

  /** The reply node `self` sends to `req`, numbered `msgId`: every service builds its replies so. */
  function ReplyTo<P, Q>(req: Message<P>, self: string, msgId: int, payload: Q): (r: Message<Q>)
    ensures Answers(r, req, self)
    ensures r.body.msgId == Some(msgId) && r.body.payload == payload
  {
    Message(self, req.src, Body(Some(msgId), req.body.msgId, payload))
  }

  /** `reply`, sent by `self`, answers `req`: it goes back to the sender and carries the request's `msg_id`. */
  predicate Answers<P, Q>(reply: Message<Q>, req: Message<P>, self: string)
  {
    reply.src == self && reply.dest == req.src && reply.body.inReplyTo == req.body.msgId
  }
}
