/** Every interleaving gives the client the same answers. The server's responses depend only on
    the frames it has read, in order, and the client's frames only on the responses it has been
    given, so what the client sees is what it would see if the server answered at once. Losing
    the connection does not change that: it only keeps some answers from coming. */
module Interleaving {
  import opened Wire
  import opened TrafficLink
  import opened Stream
  import opened PacketService
  import opened ClientTask
  import opened Session
  import Srv = Connection

  /** The server after reading some frames and finishing what they started. */
  function ServerOn(svc: Service, frames: seq<Bytes>): Srv.Server {
    if frames == [] then Srv.START
    else Hearing(svc, ServerOn(svc, frames[..|frames| - 1]), frames[|frames| - 1])
  }

  function Hearing(svc: Service, s: Srv.Server, b: Bytes): Srv.Server {
    Srv.Settle(svc, Srv.Receive(svc.codec, s, Frame(b)))
  }

  function ResponsesTo(svc: Service, frames: seq<Bytes>): seq<Bytes> {
    ServerOn(svc, frames).work.responses
  }

  lemma HearingOnlyAdds(svc: Service, s: Srv.Server, b: Bytes)
    ensures s.work.responses <= Hearing(svc, s, b).work.responses
    ensures s.phase.Ended? ==> Hearing(svc, s, b) == s
  {
  }

  /** Further frames add responses and take none back; after the end they do nothing. */
  lemma {:induction false} MoreFramesMoreResponses(svc: Service, frames: seq<Bytes>, more: seq<Bytes>)
    ensures ResponsesTo(svc, frames) <= ResponsesTo(svc, frames + more)
    ensures ServerOn(svc, frames).phase.Ended? ==> ServerOn(svc, frames + more) == ServerOn(svc, frames)
  {
    hide Hearing;
    if more == [] {
      assert frames + more == frames;
    } else {
      var front := more[..|more| - 1];
      MoreFramesMoreResponses(svc, frames, front);
      assert (frames + more)[..|frames + more| - 1] == frames + front;
      HearingOnlyAdds(svc, ServerOn(svc, frames + front), more[|more| - 1]);
    }
  }

  // ----- One request after the other -----

  /** The client between two requests: its cache, the frames emitted, how many responses it has
      been given, and the outcomes so far. */
  datatype Ledger = Ledger(cache: map<string, U64>, emitted: seq<Bytes>, given: nat, outcomes: seq<Outcome>)

  const BLANK := Ledger(map[], [], 0, [])

  datatype Asked = Silence | Answered(ledger: Ledger, response: Bytes)

  /** Emit frames, then take the next response; there is none only if the server is gone. */
  function Ask(svc: Service, l: Ledger, frames: seq<Bytes>): Asked {
    var all := l.emitted + frames;
    if l.given < |ResponsesTo(svc, all)|
    then Answered(l.(emitted := all, given := l.given + 1), ResponsesTo(svc, all)[l.given])
    else Silence
  }

  function Settled(l: Ledger, o: Outcome): Ledger {
    l.(outcomes := l.outcomes + [o])
  }

  datatype Routing = NoAnswer | Refused(ledger: Ledger) | Ready(ledger: Ledger, id: U64)

  /** Finding the handler id. */
  function Routed(svc: Service, l: Ledger, req: Request): Routing {
    if req.info.id.Some? then Ready(l, req.info.id.value)
    else
      match req.info.named
      case None => Refused(Settled(l, Dropped(Protocol)))
      case Some(name) =>
        if name in l.cache then Ready(l, l.cache[name])
        else
          match svc.codec.queryToBytes(name)
          case None => Refused(Settled(l, Dropped(Router)))
          case Some(query) =>
            match Ask(svc, l, [query])
            case Silence => NoAnswer
            case Answered(l', b) =>
              match svc.codec.accessAnswer(b)
              case None => Refused(Settled(l', Dropped(Router)))
              case Some(id) => Ready(l'.(cache := l.cache[name := id]), id)
  }

  /** The exchange once the id is known. */
  function Exchanged(svc: Service, l: Ledger, req: Request, id: U64): Option<Ledger> {
    match svc.codec.metaToBytes(MetaFor(svc.codec, req, id))
    case None => Some(Settled(l, Dropped(Protocol)))
    case Some(meta) =>
      match Ask(svc, l, [meta, req.data])
      case Silence => None
      case Answered(l', b) => Some(Settled(l', Completed(b)))
  }

  /** One request from start to finish; None if an answer never comes. */
  function Perform(svc: Service, l: Ledger, req: Request): Option<Ledger> {
    match Routed(svc, l, req)
    case NoAnswer => None
    case Refused(l') => Some(l')
    case Ready(l', id) => Exchanged(svc, l', req, id)
  }

  function PerformAll(svc: Service, reqs: seq<Request>): Option<Ledger> {
    if reqs == [] then Some(BLANK)
    else
      match PerformAll(svc, reqs[..|reqs| - 1])
      case None => None
      case Some(l) => Perform(svc, l, reqs[|reqs| - 1])
  }

  lemma RoutedSettles(svc: Service, l: Ledger, req: Request)
    ensures Routed(svc, l, req).Ready? ==> Routed(svc, l, req).ledger.outcomes == l.outcomes
    ensures Routed(svc, l, req).Refused? ==>
              exists e :: e != Io && Routed(svc, l, req).ledger.outcomes == l.outcomes + [Dropped(e)]
  {
    hide ResponsesTo;
    if Routed(svc, l, req).Refused? {
      var e := if req.info.named.None? then Protocol else Router;
      assert Routed(svc, l, req).ledger.outcomes == l.outcomes + [Dropped(e)];
    }
  }

  /** A request that is through has one outcome, and it was not lost in writing. */
  lemma PerformSettlesOne(svc: Service, l: Ledger, req: Request)
    ensures var p := Perform(svc, l, req);
      p.Some? ==>
        && |p.value.outcomes| == |l.outcomes| + 1 && p.value.outcomes[..|l.outcomes|] == l.outcomes
        && p.value.outcomes[|l.outcomes|] != Dropped(Io)
  {
    RoutedSettles(svc, l, req);
    hide ResponsesTo, Routed;
  }

  /** Requests performed stay performed: what comes later does not change their outcomes. */
  lemma {:induction false} PerformPrefix(svc: Service, reqs: seq<Request>, k: nat)
    requires k <= |reqs| && PerformAll(svc, reqs).Some?
    ensures |PerformAll(svc, reqs).value.outcomes| == |reqs|
    ensures PerformAll(svc, reqs[..k]).Some?
    ensures PerformAll(svc, reqs[..k]).value.outcomes == PerformAll(svc, reqs).value.outcomes[..k]
    ensures forall j :: 0 <= j < |reqs| ==> PerformAll(svc, reqs).value.outcomes[j] != Dropped(Io)
  {
    hide Perform;
    if reqs != [] {
      var n := |reqs| - 1;
      PerformSettlesOne(svc, PerformAll(svc, reqs[..n]).value, reqs[n]);
      PerformPrefix(svc, reqs[..n], if k < n then k else n);
      var o, o' := PerformAll(svc, reqs[..n]).value.outcomes, PerformAll(svc, reqs).value.outcomes;
      assert forall j :: 0 <= j < n ==> o'[j] == o'[..n][j];
      if k <= n {
        assert reqs[..n][..k] == reqs[..k];
        assert o'[..k] == o'[..n][..k];
      } else {
        assert reqs[..k] == reqs && o'[..k] == o';
      }
    }
  }

  // ----- The invariant of every run -----

  /** The frames the client has produced and the server not read are under way to it, or, if the
      connection was lost, the first of them may be. */
  ghost predicate FramesInStep(env: Env, s: Sys) {
    && s.consumed <= |s.client.emitted|
    && if s.lost then
         && Coming(env.up, s.serverRx, s.up, s.client.emitted, s.consumed)
         && s.consumed + |s.up| + |s.client.outbox| <= |s.client.emitted|
       else
         InFlight(env.up, s.serverRx, s.up + s.client.outbox, s.client.emitted[s.consumed..], s.client.tx)
  }

  /** The server has done, or is doing, what these frames ask for. A server that is gone has done
      it, though the frames alone may not have made it go. */
  ghost predicate HasServed(svc: Service, server: Srv.Server, frames: seq<Bytes>) {
    if server.phase.Ended? then server.work == ServerOn(svc, frames).work
    else Srv.Settle(svc, server) == ServerOn(svc, frames)
  }

  ghost predicate ServerInStep(env: Env, s: Sys) {
    FramesInStep(env, s) && HasServed(env.svc, s.server, s.client.emitted[..s.consumed])
  }

  /** The responses written and not read are under way to the client, or, if the connection was
      lost, the first of them may be. */
  ghost predicate ResponsesInStep(env: Env, s: Sys) {
    && s.delivered <= |s.server.work.responses|
    && if s.lost then Coming(env.down, s.client.rx, s.down, s.server.work.responses, s.delivered)
       else InFlight(env.down, s.client.rx, s.down, s.server.work.responses[s.delivered..], s.serverTx)
  }

  ghost predicate ClientAt(svc: Service, c: Client, given: nat, l: Ledger) {
    match c.phase
    case Idle => c.cache == l.cache && c.emitted == l.emitted && given == l.given
    case AwaitName(req, name) =>
      && req.info.id.None? && req.info.named == Some(name) && name !in l.cache
      && svc.codec.queryToBytes(name).Some?
      && c.cache == l.cache && c.emitted == l.emitted + [svc.codec.queryToBytes(name).value] && given == l.given
    case AwaitAnswer(req) =>
      var r := Routed(svc, l, req);
      && r.Ready? && svc.codec.metaToBytes(MetaFor(svc.codec, req, r.id)).Some?
      && c.cache == r.ledger.cache && given == r.ledger.given
      && c.emitted == r.ledger.emitted + [svc.codec.metaToBytes(MetaFor(svc.codec, req, r.id)).value, req.data]
  }

  /** The client is where performing the finished requests in turn, and part of the next, leads. */
  ghost predicate ClientInStep(env: Env, s: Sys) {
    && |s.client.outcomes| <= |s.accepted|
    && var p := PerformAll(env.svc, s.accepted[..|s.client.outcomes|]);
    && p.Some? && p.value.outcomes == s.client.outcomes
    && ClientAt(env.svc, s.client, s.delivered, p.value)
  }

  ghost predicate InStep(env: Env, s: Sys) {
    !s.severed ==> ServerInStep(env, s) && ResponsesInStep(env, s) && ClientInStep(env, s)
  }

  // ----- The client's steps -----

  /** Working on `req` from ledger `l`, the client is at `c`, done with it or not. */
  ghost predicate Stands(svc: Service, l: Ledger, req: Request, c: Client, given: nat) {
    if c.phase == Idle then
      var p := Perform(svc, l, req);
      p.Some? && p.value.outcomes == c.outcomes && ClientAt(svc, c, given, p.value)
    else
      c.outcomes == l.outcomes && ClientAt(svc, c, given, l) && Current(c.phase) == [req]
  }

  lemma SendRequestStands(svc: Service, ep: Endpoint, l: Ledger, req: Request, c: Client, given: nat)
    requires ep.codec == svc.codec && Routed(svc, l, req).Ready? && c.outcomes == l.outcomes
    requires var r := Routed(svc, l, req).ledger; c.cache == r.cache && c.emitted == r.emitted && given == r.given
    ensures Stands(svc, l, req, SendRequest(ep, c, req, Routed(svc, l, req).id), given)
  {
    RoutedSettles(svc, l, req);
    hide Routed, EncodeAll, TxAfter;
  }

  lemma BeginStands(svc: Service, ep: Endpoint, l: Ledger, req: Request, c: Client, given: nat)
    requires ep.codec == svc.codec && c.phase == Idle && ClientAt(svc, c, given, l) && c.outcomes == l.outcomes
    ensures Stands(svc, l, req, Begin(ep, c, req), given)
  {
    hide EncodeAll, TxAfter, ResponsesTo;
    if req.info.id.Some? || (req.info.named.Some? && req.info.named.value in c.cache) {
      SendRequestStands(svc, ep, l, req, c, given);
    }
  }

  lemma GotStands(svc: Service, ep: Endpoint, l: Ledger, c: Client, given: nat, w: Bytes)
    requires ep.codec == svc.codec && c.phase != Idle && ClientAt(svc, c, given, l) && c.outcomes == l.outcomes
    requires given < |ResponsesTo(svc, c.emitted)| && ep.pre(c.rx, w).1 == ResponsesTo(svc, c.emitted)[given]
    ensures Stands(svc, l, c.phase.req, Got(ep, c, Frame(w)), given + 1)
  {
    hide EncodeAll, TxAfter, ResponsesTo;
    var (rx, b) := ep.pre(c.rx, w);
    match c.phase
    case AwaitName(req, name) =>
      assert Ask(svc, l, [svc.codec.queryToBytes(name).value])
          == Answered(l.(emitted := c.emitted, given := given + 1), b);
      var answer := svc.codec.accessAnswer(b);
      if answer.Some? {
        var c' := c.(rx := rx, cache := c.cache[name := answer.value], fetched := c.fetched + [name]);
        SendRequestStands(svc, ep, l, req, c', given + 1);
      }
    case AwaitAnswer(req) =>
      RoutedSettles(svc, l, req);
      hide Routed;
  }

  lemma StandsInStep(env: Env, s: Sys, l: Ledger, req: Request, s': Sys)
    requires |s.client.outcomes| < |s.accepted| && s.accepted[|s.client.outcomes|] == req && s'.accepted == s.accepted
    requires PerformAll(env.svc, s.accepted[..|s.client.outcomes|]) == Some(l) && l.outcomes == s.client.outcomes
    requires Stands(env.svc, l, req, s'.client, s'.delivered)
    requires |s'.client.outcomes| == |s.client.outcomes| + if s'.client.phase == Idle then 1 else 0
    ensures ClientInStep(env, s')
  {
    hide Perform, ClientAt;
    var n := |s.client.outcomes|;
    assert s.accepted[..n + 1][..n] == s.accepted[..n];
  }

  /** From `c`, whose outbox is empty, the client has produced further frames. */
  ghost predicate Produced(ep: Endpoint, c: Client, c': Client) {
    && c.emitted <= c'.emitted
    && var more := c'.emitted[|c.emitted|..];
    && c'.outbox == EncodeAll(ep.post, c.tx, more) && c'.tx == TxAfter(ep.post, c.tx, more)
  }

  lemma SendRequestProduces(ep: Endpoint, c: Client, req: Request, id: U64)
    requires c.outbox == []
    ensures Produced(ep, c, SendRequest(ep, c, req, id))
  {
  }

  lemma BeginProduces(ep: Endpoint, c: Client, req: Request)
    requires c.outbox == []
    ensures Produced(ep, c, Begin(ep, c, req))
  {
  }

  lemma GotProduces(ep: Endpoint, c: Client, ev: Inbound)
    requires c.phase != Idle && c.outbox == []
    ensures Produced(ep, c, Got(ep, c, ev))
  {
    if c.phase.AwaitName? && ev.Frame? {
      var (rx, b) := ep.pre(c.rx, ev.bytes);
      var answer := ep.codec.accessAnswer(b);
      if answer.Some? {
        var c' := c.(rx := rx, cache := c.cache[c.phase.name := answer.value], fetched := c.fetched + [c.phase.name]);
        SendRequestProduces(ep, c', c.phase.req, answer.value);
      }
    }
  }

  lemma ProducedInStep(env: Env, s: Sys, s': Sys)
    requires Sound(env) && ServerInStep(env, s) && s.client.outbox == [] && Produced(Ep(env), s.client, s'.client)
    requires s'.up == s.up && s'.server == s.server && s'.serverRx == s.serverRx && s'.consumed == s.consumed
    requires s'.lost == s.lost
    ensures ServerInStep(env, s')
  {
    hide HasServed, EncodeAll, TxAfter, InFlight, Coming;
    var e, e' := s.client.emitted, s'.client.emitted;
    var more := e'[|e|..];
    assert s.up + s.client.outbox == s.up;
    assert e'[..s.consumed] == e[..s.consumed];
    if s.lost {
      ComingStill(env.up, s.serverRx, s.up, e, s.consumed, e');
    } else {
      SendAllKeepsStep(env.up, s.serverRx, s.up, e[s.consumed..], s.client.tx, more);
      assert e'[s.consumed..] == e[s.consumed..] + more;
    }
  }

  lemma SettleOnlyAdds(svc: Service, s: Srv.Server)
    ensures s.work.responses <= Srv.Settle(svc, s).work.responses
  {
  }

  lemma ServedResponses(svc: Service, server: Srv.Server, frames: seq<Bytes>)
    requires HasServed(svc, server, frames)
    ensures server.work.responses <= ResponsesTo(svc, frames)
  {
    SettleOnlyAdds(svc, server);
    hide Srv.Settle, ServerOn;
  }

  /** What the server has written so far is the beginning of what it will answer to all that
      the client has emitted. */
  lemma ResponsesAgree(env: Env, s: Sys)
    requires ServerInStep(env, s)
    ensures s.server.work.responses <= ResponsesTo(env.svc, s.client.emitted)
  {
    hide HasServed, ServerOn, InFlight, Coming;
    ServedResponses(env.svc, s.server, s.client.emitted[..s.consumed]);
    MoreFramesMoreResponses(env.svc, s.client.emitted[..s.consumed], s.client.emitted[s.consumed..]);
    assert s.client.emitted[..s.consumed] + s.client.emitted[s.consumed..] == s.client.emitted;
  }

  lemma TakeKeepsStep(env: Env, s: Sys)
    requires Sound(env) && QueueOk(env, s) && InStep(env, s) && !s.severed && Enabled(env, s, ClientTake)
    ensures InStep(env, Apply(env, s, ClientTake))
  {
    hide Begin, PerformAll, HasServed, EncodeAll, TxAfter, InFlight, Coming, Stands;
    var s' := Apply(env, s, ClientTake);
    var c, req := s.client.(queue := s.client.queue[1..]), s.client.queue[0];
    var l := PerformAll(env.svc, s.accepted[..|s.client.outcomes|]).value;
    assert req == s.accepted[|s.client.outcomes|..][0];
    BeginStands(env.svc, Ep(env), l, req, c, s.delivered);
    BeginMovesOn(Ep(env), c, req);
    BeginProduces(Ep(env), c, req);
    BeginKeepsRx(Ep(env), c, req);
    ProducedInStep(env, s.(client := c), s');
    StandsInStep(env, s, l, req, s');
  }

  lemma BeginKeepsRx(ep: Endpoint, c: Client, req: Request)
    ensures Begin(ep, c, req).rx == c.rx
  {
  }

  lemma GotRx(ep: Endpoint, c: Client, w: Bytes)
    requires c.phase != Idle
    ensures Got(ep, c, Frame(w)).rx == ep.pre(c.rx, w).0
  {
  }

  /** The next response, and what is left under way after it. */
  lemma NextResponse(env: Env, s: Sys)
    requires ResponsesInStep(env, s) && s.down != []
    ensures s.delivered < |s.server.work.responses|
    ensures var (rx, b) := env.down.pre(s.client.rx, s.down[0]);
      && b == s.server.work.responses[s.delivered]
      && ResponsesInStep(env, s.(client := s.client.(rx := rx), down := s.down[1..], delivered := s.delivered + 1))
  {
    hide InFlight, Coming;
    var r := s.server.work.responses;
    if s.lost {
      ReceiveComing(env.down, s.client.rx, s.down, r, s.delivered);
      ComingLength(env.down, s.client.rx, s.down, r, s.delivered);
    } else {
      ReceiveKeepsStep(env.down, s.client.rx, s.down, r[s.delivered..], s.serverTx);
      assert r[s.delivered..][1..] == r[s.delivered + 1..];
    }
  }

  lemma ComingLength(l: Lane, rx: ProcState, wire: seq<Bytes>, plain: seq<Bytes>, from: nat)
    requires Coming(l, rx, wire, plain, from)
    ensures from + |wire| <= |plain|
  {
  }

  lemma ReceiveKeepsInStep(env: Env, s: Sys)
    requires Sound(env) && QueueOk(env, s) && InStep(env, s) && !s.severed && Enabled(env, s, ClientReceive)
    ensures InStep(env, Apply(env, s, ClientReceive))
  {
    hide Got, PerformAll, HasServed, EncodeAll, TxAfter, InFlight, Coming, Stands, FramesInStep;
    var s' := Apply(env, s, ClientReceive);
    var c, w := s.client, s.down[0];
    var l := PerformAll(env.svc, s.accepted[..|c.outcomes|]).value;
    NextResponse(env, s);
    ResponsesAgree(env, s);
    assert c.phase.req == s.accepted[|c.outcomes|..][0];
    GotStands(env.svc, Ep(env), l, c, s.delivered, w);
    GotMovesOn(Ep(env), c, Frame(w));
    GotProduces(Ep(env), c, Frame(w));
    GotRx(Ep(env), c, w);
    ProducedInStep(env, s, s');
    StandsInStep(env, s, l, c.phase.req, s');
  }

  /** The next frame, and what is left under way after it. */
  lemma NextFrame(env: Env, s: Sys)
    requires FramesInStep(env, s) && s.up != []
    ensures s.consumed < |s.client.emitted|
    ensures var (rx, b) := env.up.pre(s.serverRx, s.up[0]);
      && b == s.client.emitted[s.consumed]
      && FramesInStep(env, s.(up := s.up[1..], serverRx := rx, consumed := s.consumed + 1))
  {
    hide InFlight, Coming;
    var e := s.client.emitted;
    if s.lost {
      ReceiveComing(env.up, s.serverRx, s.up, e, s.consumed);
      ComingLength(env.up, s.serverRx, s.up, e, s.consumed);
    } else {
      ReceiveKeepsStep(env.up, s.serverRx, s.up + s.client.outbox, e[s.consumed..], s.client.tx);
      assert (s.up + s.client.outbox)[1..] == s.up[1..] + s.client.outbox;
      assert e[s.consumed..][1..] == e[s.consumed + 1..];
    }
  }

  lemma ServerReceiveKeepsInStep(env: Env, s: Sys)
    requires Sound(env) && InStep(env, s) && !s.severed && Enabled(env, s, ServerReceive)
    ensures InStep(env, Apply(env, s, ServerReceive))
  {
    hide PerformAll, InFlight, Coming, ClientAt, HasServed, Srv.Receive;
    var e := s.client.emitted;
    NextFrame(env, s);
    ReadingServer(env.svc, s.server, e[s.consumed]);
    HearsNext(env.svc, s.server, e[..s.consumed], e[s.consumed]);
    assert e[..s.consumed + 1] == e[..s.consumed] + [e[s.consumed]];
  }

  lemma ReadingServer(svc: Service, s: Srv.Server, b: Bytes)
    requires s.phase.AwaitMeta? || s.phase.AwaitPayload?
    ensures Srv.Settle(svc, s) == s && Srv.Receive(svc.codec, s, Frame(b)).work == s.work
    ensures !Srv.Receive(svc.codec, s, Frame(b)).phase.Ended?
    ensures Srv.Settle(svc, Srv.Receive(svc.codec, s, Frame(b))) == Hearing(svc, s, b)
  {
  }

  lemma HearsNext(svc: Service, s: Srv.Server, frames: seq<Bytes>, b: Bytes)
    requires (s.phase.AwaitMeta? || s.phase.AwaitPayload?) && HasServed(svc, s, frames)
    ensures HasServed(svc, Srv.Receive(svc.codec, s, Frame(b)), frames + [b])
  {
    ReadingServer(svc, s, b);
    hide Srv.Receive, Srv.Settle, Hearing;
    assert (frames + [b])[..|frames|] == frames;
  }

  lemma ServeServes(svc: Service, s: Srv.Server, frames: seq<Bytes>)
    requires s.phase.Serving? && HasServed(svc, s, frames)
    ensures var s' := Srv.Serve(svc, s); HasServed(svc, s', frames) && s'.work.responses == s.work.responses
  {
    hide ServerOn, ServePacket, Srv.RespondWith;
  }

  /** Whether or not the write works, the work done is the same. */
  lemma RespondServes(svc: Service, s: Srv.Server, frames: seq<Bytes>, ok: bool)
    requires s.phase.Responding? && HasServed(svc, s, frames) && svc.sendOk(|s.work.responses|)
    ensures var s' := Srv.RespondWith(svc, s, ok);
      && HasServed(svc, s', frames)
      && s'.work.responses == s.work.responses + [s.phase.reply.message]
  {
    hide ServerOn;
    assert Srv.Settle(svc, s) == Srv.RespondWith(svc, s, true);
  }

  lemma ServeKeepsInStep(env: Env, s: Sys)
    requires InStep(env, s) && !s.severed && Enabled(env, s, ServerServe)
    ensures InStep(env, Apply(env, s, ServerServe))
  {
    hide PerformAll, ClientAt, HasServed, InFlight, Coming, Srv.Serve;
    ServeServes(env.svc, s.server, s.client.emitted[..s.consumed]);
  }

  lemma RespondKeepsInStep(env: Env, s: Sys, ok: bool)
    requires Sound(env) && InStep(env, s) && !s.severed && Enabled(env, s, ServerRespond(ok))
    ensures InStep(env, Apply(env, s, ServerRespond(ok)))
  {
    hide PerformAll, ClientAt, HasServed, InFlight, Coming, Srv.RespondWith;
    RespondServes(env.svc, s.server, s.client.emitted[..s.consumed], ok);
    var r, m := s.server.work.responses, s.server.phase.reply.message;
    if s.lost {
      ComingStill(env.down, s.client.rx, s.down, r, s.delivered, r + [m]);
    } else {
      SendKeepsStep(env.down, s.client.rx, s.down, r[s.delivered..], s.serverTx, m);
      assert (r + [m])[s.delivered..] == r[s.delivered..] + [m];
    }
  }

  /** The server hears that the connection is gone. */
  lemma ServerCutKeepsInStep(env: Env, s: Sys, ev: Inbound)
    requires InStep(env, s) && !s.severed && Enabled(env, s, ServerCut(ev))
    ensures InStep(env, Apply(env, s, ServerCut(ev)))
  {
    hide PerformAll, ClientAt, InFlight, Coming, ServerOn, Srv.Settle;
    ReadingServer(env.svc, s.server, []);
    CutServer(env.svc.codec, s.server, ev);
  }

  lemma CutServer(c: Codec, s: Srv.Server, ev: Inbound)
    requires (s.phase.AwaitMeta? || s.phase.AwaitPayload?) && EndsStream(ev)
    ensures Srv.Receive(c, s, ev).phase == Srv.Ended(Srv.Closed) && Srv.Receive(c, s, ev).work == s.work
  {
  }

  lemma LoseKeepsInStep(env: Env, s: Sys, keepUp: nat, keepDown: nat)
    requires InStep(env, s) && !s.severed && Enabled(env, s, Lose(keepUp, keepDown))
    ensures InStep(env, Apply(env, s, Lose(keepUp, keepDown)))
  {
    hide PerformAll, ClientAt, InFlight, Coming, HasServed;
    var c, r := s.client, s.server.work.responses;
    LossLeavesPrefix(env.up, s.serverRx, s.up + c.outbox, c.emitted, s.consumed, c.tx, keepUp);
    assert (s.up + c.outbox)[..keepUp] == s.up[..keepUp];
    InFlightLength(env.up, s.serverRx, s.up + c.outbox, c.emitted[s.consumed..], c.tx);
    LossLeavesPrefix(env.down, c.rx, s.down, r, s.delivered, s.serverTx, keepDown);
  }

  lemma OthersInStep(env: Env, s: Sys, step: Step)
    requires InStep(env, s) && !s.severed && Enabled(env, s, step)
    requires step.Accept? || step.ClientSend? || step.ClientCut? || step.ClientStray?
    ensures InStep(env, Apply(env, s, step))
  {
    hide PerformAll, ClientAt, HasServed, InFlight, Coming;
    match step
    case Accept(req) =>
      assert (s.accepted + [req])[..|s.client.outcomes|] == s.accepted[..|s.client.outcomes|];
      AcceptAt(env.svc, s.client, req, s.delivered, PerformAll(env.svc, s.accepted[..|s.client.outcomes|]).value);
    case ClientSend(ok) =>
      if ok {
        var c := s.client;
        assert s.up + [c.outbox[0]] + c.outbox[1..] == s.up + c.outbox;
        SentAt(env.svc, c, s.delivered, PerformAll(env.svc, s.accepted[..|c.outcomes|]).value);
      }
    case _ =>
  }

  lemma AcceptAt(svc: Service, c: Client, req: Request, given: nat, l: Ledger)
    requires ClientAt(svc, c, given, l)
    ensures ClientAt(svc, c.(queue := c.queue + [req]), given, l)
  {
  }

  lemma SentAt(svc: Service, c: Client, given: nat, l: Ledger)
    requires ClientAt(svc, c, given, l) && c.outbox != []
    ensures ClientAt(svc, c.(outbox := c.outbox[1..]), given, l)
  {
  }

  /** The invariant holds in every run. */
  lemma {:induction false} RunInStep(env: Env, steps: seq<Step>)
    requires Sound(env) && IsRun(env, steps)
    ensures InStep(env, Exec(env, steps))
  {
    if steps == [] {
      InitialInStep(env);
    } else {
      var before, step := steps[..|steps| - 1], steps[|steps| - 1];
      RunInStep(env, before);
      QueueDiscipline(env, before);
      var s := Exec(env, before);
      hide InStep, QueueOk, Exec;
      StepInStep(env, s, step);
    }
  }

  lemma InitialInStep(env: Env)
    requires Sound(env)
    ensures InStep(env, Initial(env))
  {
  }

  lemma StepInStep(env: Env, s: Sys, step: Step)
    requires Sound(env) && QueueOk(env, s) && InStep(env, s) && Enabled(env, s, step)
    ensures InStep(env, Apply(env, s, step))
  {
    hide QueueOk, ServerInStep, ResponsesInStep, ClientInStep;
    if s.severed {
    } else {
      match step
      case ClientTake => TakeKeepsStep(env, s);
      case ClientReceive => ReceiveKeepsInStep(env, s);
      case ServerReceive => ServerReceiveKeepsInStep(env, s);
      case ServerServe => ServeKeepsInStep(env, s);
      case ServerRespond(ok) => RespondKeepsInStep(env, s, ok);
      case ServerCut(ev) => ServerCutKeepsInStep(env, s, ev);
      case Lose(keepUp, keepDown) => LoseKeepsInStep(env, s, keepUp, keepDown);
      case _ => OthersInStep(env, s, step);
    }
  }

  /** In every interleaving, until the client runs into the end of the connection, the outcomes
      are those of performing the requests one after the other. */
  lemma EveryInterleavingIsSequential(env: Env, steps: seq<Step>)
    requires Sound(env) && IsRun(env, steps)
    ensures var s := Exec(env, steps);
      !s.severed ==>
        && |s.client.outcomes| <= |s.accepted|
        && var p := PerformAll(env.svc, s.accepted[..|s.client.outcomes|]);
        && p.Some? && p.value.outcomes == s.client.outcomes
        && (s.client.phase == Idle ==> p.value.cache == s.client.cache && p.value.emitted == s.client.emitted)
  {
    RunInStep(env, steps);
  }
}
