/** Serving one packet: decode the header, look the route up, run the handler, shape the reply.
    Handlers are user code. One connection's calls are answered by an oracle that may depend on
    the number of the call and on everything the handler is given. A second oracle says what
    comes through the connection's sender outside the call that was given it: a handler may keep
    that sender, in its state or in a task, and use it at any later time. */
module PacketService {
  import opened Wire
  import opened ServerRouter

  /** The function that takes a connection over. */
  type AcceptFn = nat

  /** A one-shot sender, named by the channel it feeds. A connection's own channel is OWN. */
  type Sender = nat

  const OWN: Sender := 0

  /** How a handler call went: what it sent through the sender it was given before it was over,
      and which sender it gave back. */
  datatype HandlerResult =
    | Finished(data: Result<Bytes, Bytes>, sent: Option<AcceptFn>, returned: Option<Sender>)
    | Panicked(sent: Option<AcceptFn>)

  type Handler = (nat, Route, SType, Bytes, Option<Sender>) -> HandlerResult

  /** What the server asks of handlers: give back the sender you got, unused, or none. */
  ghost predicate HonoursToken(h: Handler) {
    forall n, r, t, b, tx ::
      var res := h(n, r, t, b, tx);
      res.Finished? && res.returned.Some? ==> res.returned == tx && res.sent.None?
  }

  /** The committed router, the handlers behind it, what whoever keeps the connection's sender
      has sent through it by the n-th look into the channel, and how each response write turns
      out. */
  datatype Service = Service(
    codec: Codec, eq: KeyEq, routes: Table, names: map<string, U64>, handler: Handler,
    late: nat -> Option<AcceptFn>, sendOk: nat -> bool)

  datatype Call = Call(route: Route, sType: SType, payload: Bytes, given: Option<Sender>, result: HandlerResult)

  /** A reply: the bytes to send, the sender that comes back, and the handler call, if any. */
  datatype Reply = Reply(message: Bytes, returned: Option<Sender>, call: Option<Call>)

  function ErrorReply(svc: Service, e: ServerError, tx: Option<Sender>): Reply {
    Reply(svc.codec.errorToBytes(e), tx, None)
  }

  /** The reply to a request for handler `id`, when it is the n-th handler call. */
  function Dispatch(svc: Service, n: nat, id: U64, t: SType, payload: Bytes, tx: Option<Sender>): Reply {
    match Scan(svc.eq, svc.routes, TypeTuple({t}, id))
    case None => ErrorReply(svc, NoSuchHandler, tx)
    case Some(route) =>
      var res := svc.handler(n, route, t, payload, tx);
      var call := Call(route, t, payload, tx, res);
      match res
      case Finished(Ok(data), _, returned) => Reply(data, returned, Some(call))
      case Finished(Err(detail), _, returned) =>
        Reply(svc.codec.errorToBytes(InternalError(detail)), returned, Some(call))
      case Panicked(_) => Reply(svc.codec.errorToBytes(InternalError(HANDLER_DIED)), None, Some(call))
  }

  /** The reply to a name query. */
  function AnswerName(svc: Service, name: string, tx: Option<Sender>): Reply {
    if name in svc.names then Reply(svc.codec.answerToBytes(svc.names[name]), tx, None)
    else ErrorReply(svc, NoSuchHandler, tx)
  }

  function ServePacket(svc: Service, n: nat, meta: Bytes, payload: Bytes, tx: Option<Sender>): Reply {
    match svc.codec.accessMeta(meta)
    case Some(m) => Dispatch(svc, n, m.handlerId, svc.codec.numberToType(m.sTypeReq), payload, tx)
    case None =>
      match svc.codec.accessQuery(meta)
      case Some(name) => AnswerName(svc, name, tx)
      case None => ErrorReply(svc, MalformedMetaInfo, tx)
  }

  /** What reached the connection's own channel during the call. */
  function Arrived(reply: Reply): Option<AcceptFn> {
    if reply.call.Some? && reply.call.value.given == Some(OWN) then reply.call.value.result.sent else None
  }

  /** Whether, after a reply, someone but the loop may hold the connection's sender, unused. */
  predicate StillKept(kept: bool, reply: Reply) {
    match reply.call
    case None => kept
    case Some(call) => (kept || call.given == Some(OWN)) && reply.returned != Some(OWN) && Arrived(reply).None?
  }

  /** What the n-th look into the channel finds. */
  function Look(svc: Service, chan: Option<AcceptFn>, kept: bool, n: nat): Option<AcceptFn> {
    if chan.Some? then chan else if kept then svc.late(n) else None
  }

  /** The reply by itself lets the connection go on: nothing was sent through its channel during
      the call, and it has a sender again. */
  predicate GoesOn(reply: Reply) {
    Arrived(reply).None? && reply.returned.Some?
  }

  /** Which packets reach a handler: those whose header decodes and whose key some table entry
      matches, whichever entry the table's own lookup picks. The others give the sender back and
      get the error for their kind: no such handler, or malformed header. */
  lemma CalledIff(svc: Service, n: nat, meta: Bytes, payload: Bytes, tx: Option<Sender>)
    ensures var reply := ServePacket(svc, n, meta, payload, tx);
      reply.call.Some? <==>
        && svc.codec.accessMeta(meta).Some?
        && var m := svc.codec.accessMeta(meta).value;
           !IsGet(svc.eq, svc.routes, TypeTuple({svc.codec.numberToType(m.sTypeReq)}, m.handlerId), None)
    ensures var reply := ServePacket(svc, n, meta, payload, tx);
      && (reply.call.None? ==> reply.returned == tx)
      && (reply.call.None? && svc.codec.accessMeta(meta).Some? ==>
            reply.message == svc.codec.errorToBytes(NoSuchHandler))
      && (svc.codec.accessMeta(meta).None? && svc.codec.accessQuery(meta).None? ==>
            reply.message == svc.codec.errorToBytes(MalformedMetaInfo))
  {
    if svc.codec.accessMeta(meta).Some? {
      var m := svc.codec.accessMeta(meta).value;
      var key := TypeTuple({svc.codec.numberToType(m.sTypeReq)}, m.handlerId);
      var r := Scan(svc.eq, svc.routes, key);
      assert IsGet(svc.eq, svc.routes, key, r);
    }
  }

  /** What a call is and what comes of it: the handler of a matching entry is given the type and
      the payload of the packet and the loop's sender; its data goes out as it is, its error as an
      internal error, and a panic as an internal error that says so and gives no sender back. */
  lemma CallAndReply(svc: Service, n: nat, meta: Bytes, payload: Bytes, tx: Option<Sender>)
    requires ServePacket(svc, n, meta, payload, tx).call.Some?
    ensures svc.codec.accessMeta(meta).Some?
    ensures var (reply, m) := (ServePacket(svc, n, meta, payload, tx), svc.codec.accessMeta(meta).value);
      var (call, t) := (reply.call.value, svc.codec.numberToType(m.sTypeReq));
      && IsGet(svc.eq, svc.routes, TypeTuple({t}, m.handlerId), Some(call.route))
      && call == Call(call.route, t, payload, tx, svc.handler(n, call.route, t, payload, tx))
      && match call.result
         case Finished(Ok(data), _, back) => reply.message == data && reply.returned == back
         case Finished(Err(detail), _, back) =>
           reply.message == svc.codec.errorToBytes(InternalError(detail)) && reply.returned == back
         case Panicked(_) =>
           && reply.returned == None
           && exists text :: Spells(text, "handler died :(") &&
                             reply.message == svc.codec.errorToBytes(InternalError(text))
  {
    HandlerDiedText();
    var m := svc.codec.accessMeta(meta).value;
    var key := TypeTuple({svc.codec.numberToType(m.sTypeReq)}, m.handlerId);
    assert IsGet(svc.eq, svc.routes, key, Scan(svc.eq, svc.routes, key));
  }

  /** What a reply by itself does to the connection: it stops it only if a handler was called
      and panicked, gave no sender back, or sent through the connection's. Unknown routes, name
      queries and malformed headers have no such reply. What else can stop the loop after a
      reply is said in `Connection.GoesOnAfter`. */
  lemma GoesOnIff(svc: Service, n: nat, meta: Bytes, payload: Bytes, tx: Option<Sender>)
    requires tx.Some?
    ensures var reply := ServePacket(svc, n, meta, payload, tx);
      GoesOn(reply) <==>
        (reply.call.Some? ==>
           var result := reply.call.value.result;
           result.Finished? && result.returned.Some? && (tx == Some(OWN) ==> result.sent.None?))
  {
  }

  /** A name query is understood, and the client can read off the answer whether, and as what,
      the name is known. */
  lemma QueryReply(svc: Service, n: nat, meta: Bytes, payload: Bytes, tx: Option<Sender>, name: string)
    requires Lawful(svc.codec) && svc.codec.queryToBytes(name) == Some(meta)
    ensures var reply := ServePacket(svc, n, meta, payload, tx);
      && reply.call == None && reply.returned == tx
      && svc.codec.accessAnswer(reply.message) == (if name in svc.names then Some(svc.names[name]) else None)
      && (name !in svc.names ==> reply.message == svc.codec.errorToBytes(NoSuchHandler))
  {
    assert svc.codec.accessQuery(svc.codec.queryToBytes(name).value) == Some(name);
  }
}
