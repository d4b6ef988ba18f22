/** Which answer each consumer gets. The server reads a payload frame only when the header says
    there is one, the client writes one always; so a request without data leaves one answer
    too many behind it. `Lag` says exactly what follows from that, for all data, without
    frames; `Simple` is the specification, without frames, cache or backlog, which the
    protocol meets for a request exactly if no request sent before it was empty. */
module Pairing {
  import opened Wire
  import opened Stream
  import opened PacketService
  import opened ClientTask
  import opened Interleaving
  import Srv = Connection

  /** The server between packets: its sender, whether the connection's sender may be in other
      hands, the handler calls made, the packets answered, and whether its loop still runs. */
  datatype Desk = Desk(tx: Option<Sender>, kept: bool, calls: seq<Call>, answered: nat, live: bool)

  const OPEN := Desk(Some(OWN), false, [], 0, true)

  function Next(svc: Service, d: Desk, reply: Reply): Desk {
    var kept := StillKept(d.kept, reply);
    Desk(reply.returned, kept, d.calls + Srv.CallOf(reply), d.answered + 1,
         GoesOn(reply) && Look(svc, None, kept, d.answered) == None)
  }

  /** The reply to a request for handler `id` after some calls. */
  function RequestReply(svc: Service, calls: seq<Call>, tx: Option<Sender>, id: U64, req: Request): Reply {
    Dispatch(svc, |calls|, id, req.sType, req.data, tx)
  }

  // ----- For all data: answers queue up -----

  /** As the ledger, with the answers owed to the client in place of the frames. */
  datatype Lag = Lag(cache: map<string, U64>, desk: Desk, owed: seq<Bytes>, outcomes: seq<Outcome>)

  const NO_LAG := Lag(map[], OPEN, [], [])

  /** A packet is answered, if the loop is running. */
  function Posted(svc: Service, g: Lag, reply: Reply): Lag {
    if g.desk.live then g.(desk := Next(svc, g.desk, reply), owed := g.owed + [reply.message]) else g
  }

  function PostQuery(svc: Service, g: Lag, name: string): Lag {
    Posted(svc, g, AnswerName(svc, name, g.desk.tx))
  }

  /** An empty payload frame is read as a header, and answered as a malformed one. */
  function PostRequest(svc: Service, g: Lag, id: U64, req: Request): Lag {
    var g1 := Posted(svc, g, RequestReply(svc, g.desk.calls, g.desk.tx, id, req));
    if req.data == [] then Posted(svc, g1, ErrorReply(svc, MalformedMetaInfo, g1.desk.tx)) else g1
  }

  function LagSettled(g: Lag, o: Outcome): Lag {
    g.(outcomes := g.outcomes + [o])
  }

  datatype LagRouting = LagNoAnswer | LagRefused(lag: Lag) | LagReady(lag: Lag, id: U64)

  function LagRouted(svc: Service, g: Lag, req: Request): LagRouting {
    if req.info.id.Some? then LagReady(g, req.info.id.value)
    else
      match req.info.named
      case None => LagRefused(LagSettled(g, Dropped(Protocol)))
      case Some(name) =>
        if name in g.cache then LagReady(g, g.cache[name])
        else if svc.codec.queryToBytes(name).None? then LagRefused(LagSettled(g, Dropped(Router)))
        else
          var g1 := PostQuery(svc, g, name);
          if g1.owed == [] then LagNoAnswer
          else
            var g2 := g1.(owed := g1.owed[1..]);
            match svc.codec.accessAnswer(g1.owed[0])
            case None => LagRefused(LagSettled(g2, Dropped(Router)))
            case Some(id) => LagReady(g2.(cache := g.cache[name := id]), id)
  }

  function LagExchanged(svc: Service, g: Lag, req: Request, id: U64): Option<Lag> {
    if svc.codec.metaToBytes(MetaFor(svc.codec, req, id)).None? then Some(LagSettled(g, Dropped(Protocol)))
    else
      var g1 := PostRequest(svc, g, id, req);
      if g1.owed == [] then None
      else Some(LagSettled(g1.(owed := g1.owed[1..]), Completed(g1.owed[0])))
  }

  function LagPerform(svc: Service, g: Lag, req: Request): Option<Lag> {
    match LagRouted(svc, g, req)
    case LagNoAnswer => None
    case LagRefused(g') => Some(g')
    case LagReady(g', id) => LagExchanged(svc, g', req, id)
  }

  function LagAll(svc: Service, reqs: seq<Request>): Option<Lag> {
    if reqs == [] then Some(NO_LAG)
    else
      match LagAll(svc, reqs[..|reqs| - 1])
      case None => None
      case Some(g) => LagPerform(svc, g, reqs[|reqs| - 1])
  }

  // ----- Frames and backlog agree -----

  ghost predicate Usable(svc: Service) {
    Lawful(svc.codec) && forall n :: svc.sendOk(n)
  }

  ghost predicate Mirrors(s: Srv.Server, d: Desk) {
    && s.work.calls == d.calls
    && (d.live ==>
          && s.phase == Srv.AwaitMeta && s.work.tx == d.tx && d.tx.Some? && s.work.chan == None
          && s.work.kept == d.kept && |s.work.responses| == d.answered)
    && (!d.live ==> s.phase.Ended?)
  }

  /** The server answers a whole packet. */
  lemma SettleMirrors(svc: Service, s: Srv.Server, d: Desk, reply: Reply)
    requires Usable(svc) && s.phase.Serving? && s.work.chan == None && s.work.tx == d.tx && s.work.calls == d.calls
    requires s.work.kept == d.kept && |s.work.responses| == d.answered
    requires reply == Srv.ReplyTo(svc, s.work, s.phase.packet)
    ensures var s' := Srv.Settle(svc, s);
      Mirrors(s', Next(svc, d, reply)) && s'.work.responses == s.work.responses + [reply.message]
  {
    hide ServePacket;
  }

  /** A frame that announces no payload is a packet by itself. */
  lemma HearAlone(svc: Service, s: Srv.Server, d: Desk, frame: Bytes)
    requires Usable(svc) && Mirrors(s, d) && d.live && !Srv.WantsPayload(svc.codec, frame)
    ensures var reply := ServePacket(svc, |d.calls|, frame, [], d.tx);
      var s' := Hearing(svc, s, frame);
      Mirrors(s', Next(svc, d, reply)) && s'.work.responses == s.work.responses + [reply.message]
  {
    hide ServePacket, Srv.Settle;
    SettleMirrors(svc, Srv.Receive(svc.codec, s, Frame(frame)), d, ServePacket(svc, |d.calls|, frame, [], d.tx));
  }

  /** A frame that announces a payload takes the next frame with it, whatever that looks like. */
  lemma HearPair(svc: Service, s: Srv.Server, d: Desk, meta: Bytes, payload: Bytes)
    requires Usable(svc) && Mirrors(s, d) && d.live && Srv.WantsPayload(svc.codec, meta)
    ensures var reply := ServePacket(svc, |d.calls|, meta, payload, d.tx);
      var s' := Hearing(svc, Hearing(svc, s, meta), payload);
      Mirrors(s', Next(svc, d, reply)) && s'.work.responses == s.work.responses + [reply.message]
  {
    hide ServePacket;
    var s1 := Hearing(svc, s, meta);
    assert s1 == Srv.Receive(svc.codec, s, Frame(meta)) && s1.phase == Srv.AwaitPayload(meta);
    hide Srv.Settle;
    SettleMirrors(svc, Srv.Receive(svc.codec, s1, Frame(payload)), d,
                  ServePacket(svc, |d.calls|, meta, payload, d.tx));
  }

  /** The ledger of frames and the backlog tell the same. */
  ghost predicate Agree(svc: Service, l: Ledger, g: Lag) {
    var s := ServerOn(svc, l.emitted);
    && l.cache == g.cache && l.outcomes == g.outcomes
    && Mirrors(s, g.desk)
    && l.given <= |s.work.responses| && s.work.responses[l.given..] == g.owed
  }

  lemma ServerOnOne(svc: Service, e: seq<Bytes>, b: Bytes)
    ensures ServerOn(svc, e + [b]) == Hearing(svc, ServerOn(svc, e), b)
  {
    assert (e + [b])[..|e|] == e;
  }

  lemma QueryPosted(svc: Service, l: Ledger, g: Lag, name: string)
    requires Usable(svc) && Agree(svc, l, g) && svc.codec.queryToBytes(name).Some?
    ensures Agree(svc, l.(emitted := l.emitted + [svc.codec.queryToBytes(name).value]), PostQuery(svc, g, name))
  {
    var q := svc.codec.queryToBytes(name).value;
    var s := ServerOn(svc, l.emitted);
    hide ServerOn, Hearing;
    ServerOnOne(svc, l.emitted, q);
    HearingOnlyAdds(svc, s, q);
    if g.desk.live {
      HearAlone(svc, s, g.desk, q);
      Suffix(s.work.responses, l.given, AnswerName(svc, name, g.desk.tx).message);
    }
  }

  lemma Suffix(r: seq<Bytes>, k: nat, m: Bytes)
    requires k <= |r|
    ensures (r + [m])[k..] == r[k..] + [m]
  {
  }

  lemma RequestPosted(svc: Service, l: Ledger, g: Lag, id: U64, req: Request)
    requires Usable(svc) && Agree(svc, l, g) && svc.codec.metaToBytes(MetaFor(svc.codec, req, id)).Some?
    ensures Agree(svc, l.(emitted := l.emitted + [svc.codec.metaToBytes(MetaFor(svc.codec, req, id)).value, req.data]),
                  PostRequest(svc, g, id, req))
  {
    var m := svc.codec.metaToBytes(MetaFor(svc.codec, req, id)).value;
    var s := ServerOn(svc, l.emitted);
    hide ServerOn, Hearing, Dispatch;
    assert svc.codec.accessMeta(m) == Some(MetaFor(svc.codec, req, id));
    assert l.emitted + [m, req.data] == l.emitted + [m] + [req.data];
    ServerOnOne(svc, l.emitted, m);
    ServerOnOne(svc, l.emitted + [m], req.data);
    if !g.desk.live {
      HearingOnlyAdds(svc, s, m);
      HearingOnlyAdds(svc, s, req.data);
    } else {
      var reply := RequestReply(svc, g.desk.calls, g.desk.tx, id, req);
      assert reply == ServePacket(svc, |g.desk.calls|, m, req.data, g.desk.tx);
      Suffix(s.work.responses, l.given, reply.message);
      if req.data != [] {
        HearPair(svc, s, g.desk, m, req.data);
      } else {
        HearAlone(svc, s, g.desk, m);
        StrayPosted(svc, Hearing(svc, s, m), Next(svc, g.desk, reply), l.given);
      }
    }
  }

  /** The empty frame left behind by an empty request. */
  lemma StrayPosted(svc: Service, s: Srv.Server, d: Desk, given: nat)
    requires Usable(svc) && Mirrors(s, d) && given <= |s.work.responses|
    ensures var reply := ErrorReply(svc, MalformedMetaInfo, d.tx);
      var s' := Hearing(svc, s, []);
      && Mirrors(s', if d.live then Next(svc, d, reply) else d)
      && s'.work.responses == (if d.live then s.work.responses + [reply.message] else s.work.responses)
      && s'.work.responses[given..]
         == (if d.live then s.work.responses[given..] + [reply.message] else s.work.responses[given..])
  {
    hide Hearing;
    HearingOnlyAdds(svc, s, []);
    if d.live { HearAlone(svc, s, d, []); }
  }

  /** Taking the next answer. */
  lemma AnswerTaken(svc: Service, l: Ledger, frames: seq<Bytes>, g1: Lag)
    requires Agree(svc, l.(emitted := l.emitted + frames), g1)
    ensures var a := Ask(svc, l, frames);
      && (a.Silence? <==> g1.owed == [])
      && (a.Answered? ==> a.response == g1.owed[0] && Agree(svc, a.ledger, g1.(owed := g1.owed[1..])))
  {
    hide ServerOn;
  }

  lemma RoutedAgrees(svc: Service, l: Ledger, g: Lag, req: Request)
    requires Usable(svc) && Agree(svc, l, g)
    ensures match Routed(svc, l, req)
            case NoAnswer => LagRouted(svc, g, req).LagNoAnswer?
            case Refused(l') => LagRouted(svc, g, req).LagRefused? && Agree(svc, l', LagRouted(svc, g, req).lag)
            case Ready(l', id) =>
              && LagRouted(svc, g, req).LagReady? && LagRouted(svc, g, req).id == id
              && Agree(svc, l', LagRouted(svc, g, req).lag)
  {
    hide ServerOn, Mirrors, Ask, PostQuery;
    if req.info.id.None? && req.info.named.Some? {
      var name := req.info.named.value;
      if name !in l.cache && svc.codec.queryToBytes(name).Some? {
        QueryPosted(svc, l, g, name);
        AnswerTaken(svc, l, [svc.codec.queryToBytes(name).value], PostQuery(svc, g, name));
        PostKeepsRest(svc, g, name);
      }
    }
  }

  lemma PostKeepsRest(svc: Service, g: Lag, name: string)
    ensures PostQuery(svc, g, name).cache == g.cache && PostQuery(svc, g, name).outcomes == g.outcomes
  {
  }

  lemma ExchangedAgrees(svc: Service, l: Ledger, g: Lag, req: Request, id: U64)
    requires Usable(svc) && Agree(svc, l, g)
    ensures var x, y := Exchanged(svc, l, req, id), LagExchanged(svc, g, req, id);
      x.Some? == y.Some? && (x.Some? ==> Agree(svc, x.value, y.value))
  {
    hide ServerOn, Mirrors, Ask, PostRequest;
    var meta := svc.codec.metaToBytes(MetaFor(svc.codec, req, id));
    if meta.Some? {
      RequestPosted(svc, l, g, id, req);
      AnswerTaken(svc, l, [meta.value, req.data], PostRequest(svc, g, id, req));
    }
  }

  /** For all requests, with whatever data: performing them with frames is performing them with
      a backlog. */
  lemma {:induction false} BacklogIsExact(svc: Service, reqs: seq<Request>)
    requires Usable(svc)
    ensures PerformAll(svc, reqs).Some? == LagAll(svc, reqs).Some?
    ensures PerformAll(svc, reqs).Some? ==> Agree(svc, PerformAll(svc, reqs).value, LagAll(svc, reqs).value)
  {
    if reqs != [] {
      var front, req := reqs[..|reqs| - 1], reqs[|reqs| - 1];
      BacklogIsExact(svc, front);
      if PerformAll(svc, front).Some? {
        hide Agree, Routed, LagRouted, Exchanged, LagExchanged;
        var l, g := PerformAll(svc, front).value, LagAll(svc, front).value;
        RoutedAgrees(svc, l, g, req);
        match Routed(svc, l, req)
        case Ready(l', id) => ExchangedAgrees(svc, l', LagRouted(svc, g, req).lag, req, id);
        case _ =>
      }
    }
  }

  // ----- How far answers drift -----

  /** The requests without data that were completed. */
  function EmptySent(reqs: seq<Request>, outcomes: seq<Outcome>): nat
    requires |reqs| == |outcomes|
  {
    if reqs == [] then 0
    else
      var n := |reqs| - 1;
      EmptySent(reqs[..n], outcomes[..n]) + if reqs[n].data == [] && outcomes[n].Completed? then 1 else 0
  }

  lemma RoutedDrift(svc: Service, g: Lag, req: Request)
    ensures match LagRouted(svc, g, req)
            case LagNoAnswer => true
            case LagRefused(g') =>
              && (g'.desk.live ==> g.desk.live && |g'.owed| == |g.owed|) && (g.owed == [] ==> g'.owed == [])
              && |g'.outcomes| == |g.outcomes| + 1 && g'.outcomes[..|g.outcomes|] == g.outcomes
              && g'.outcomes[|g.outcomes|].Dropped?
            case LagReady(g', _) =>
              && (g'.desk.live ==> g.desk.live && |g'.owed| == |g.owed|) && (g.owed == [] ==> g'.owed == [])
              && g'.outcomes == g.outcomes
  {
    hide AnswerName;
  }

  lemma ExchangedDrift(svc: Service, g: Lag, req: Request, id: U64)
    ensures var x := LagExchanged(svc, g, req, id);
      x.Some? ==>
        var extra := if req.data == [] && x.value.outcomes[|g.outcomes|].Completed? then 1 else 0;
        && |x.value.outcomes| == |g.outcomes| + 1 && x.value.outcomes[..|g.outcomes|] == g.outcomes
        && (x.value.desk.live ==> g.desk.live && |x.value.owed| == |g.owed| + extra)
        && (g.owed == [] && extra == 0 ==> x.value.owed == [])
  {
    hide Dispatch;
  }

  /** As long as the server's loop runs, the answers owed are as many as the completed requests
      without data; and if there were none, then none is owed, whether it runs or not. */
  lemma {:induction false} Drift(svc: Service, reqs: seq<Request>)
    ensures var g := LagAll(svc, reqs);
      g.Some? ==>
        && |g.value.outcomes| == |reqs|
        && (g.value.desk.live ==> |g.value.owed| == EmptySent(reqs, g.value.outcomes))
        && (EmptySent(reqs, g.value.outcomes) == 0 ==> g.value.owed == [])
  {
    if reqs != [] {
      var front, req := reqs[..|reqs| - 1], reqs[|reqs| - 1];
      Drift(svc, front);
      hide LagRouted, LagExchanged;
      if LagAll(svc, front).Some? {
        var g := LagAll(svc, front).value;
        RoutedDrift(svc, g, req);
        match LagRouted(svc, g, req)
        case LagReady(g', id) => ExchangedDrift(svc, g', req, id);
        case _ =>
      }
    }
  }

  /** A request's frames went out, as far as anyone can tell: it was completed, or a write of one
      of its frames failed. */
  predicate WasSent(o: Outcome) {
    o.Completed? || o == Dropped(Io)
  }

  /** Of the first k requests, none without data was sent. */
  ghost predicate Clean(reqs: seq<Request>, outcomes: seq<Outcome>, k: nat) {
    forall j :: 0 <= j < k && j < |reqs| && j < |outcomes| && WasSent(outcomes[j]) ==> reqs[j].data != []
  }

  lemma {:induction false} NoneEmptyIff(reqs: seq<Request>, outcomes: seq<Outcome>)
    requires |reqs| == |outcomes| && forall j :: 0 <= j < |outcomes| ==> outcomes[j] != Dropped(Io)
    ensures EmptySent(reqs, outcomes) == 0 <==> Clean(reqs, outcomes, |reqs|)
  {
    if reqs != [] {
      var n := |reqs| - 1;
      NoneEmptyIff(reqs[..n], outcomes[..n]);
      if Clean(reqs, outcomes, |reqs|) {
        assert Clean(reqs[..n], outcomes[..n], n);
      } else {
        var j :| 0 <= j <= n && WasSent(outcomes[j]) && reqs[j].data == [];
        assert j < n ==> WasSent(outcomes[..n][j]) && reqs[..n][j].data == [];
      }
    }
  }

  /** The exact condition: a request that is completed was answered while nothing else was owed
      if and only if no request completed before it was empty. */
  lemma NothingOwedIff(svc: Service, reqs: seq<Request>, req: Request)
    requires Usable(svc) && LagAll(svc, reqs).Some? && LagRouted(svc, LagAll(svc, reqs).value, req).LagReady?
    requires var r := LagRouted(svc, LagAll(svc, reqs).value, req);
      LagExchanged(svc, r.lag, req, r.id).Some? && svc.codec.metaToBytes(MetaFor(svc.codec, req, r.id)).Some?
    ensures var g := LagAll(svc, reqs).value;
      LagRouted(svc, g, req).lag.owed == [] <==> Clean(reqs, g.outcomes, |reqs|)
  {
    var g := LagAll(svc, reqs).value;
    Drift(svc, reqs);
    RoutedDrift(svc, g, req);
    BacklogIsExact(svc, reqs);
    PerformPrefix(svc, reqs, 0);
    NoneEmptyIff(reqs, g.outcomes);
    hide LagRouted, LagAll, PerformAll, Dispatch;
  }

  /** The request makes the client ask the server for a name. */
  predicate Queries(svc: Service, cache: map<string, U64>, req: Request, name: string) {
    req.info.id.None? && req.info.named == Some(name) && name !in cache && svc.codec.queryToBytes(name).Some?
  }

  /** The same condition for name queries: one that is answered is answered while nothing else was
      owed if and only if no request completed before was empty. */
  lemma NothingOwedAtQueryIff(svc: Service, reqs: seq<Request>, req: Request, name: string)
    requires Usable(svc) && LagAll(svc, reqs).Some? && Queries(svc, LagAll(svc, reqs).value.cache, req, name)
    requires !LagRouted(svc, LagAll(svc, reqs).value, req).LagNoAnswer?
    ensures var g := LagAll(svc, reqs).value;
      && (g.owed == [] <==> Clean(reqs, g.outcomes, |reqs|))
      && (g.owed == [] ==> g.desk.live)
  {
    var g := LagAll(svc, reqs).value;
    Drift(svc, reqs);
    BacklogIsExact(svc, reqs);
    PerformPrefix(svc, reqs, 0);
    NoneEmptyIff(reqs, g.outcomes);
    hide LagAll, PerformAll, AnswerName;
  }

  // ----- The specification -----

  /** Where a request goes, by the server's own name table. */
  function Target(svc: Service, info: HandlerInfo): Result<U64, ClientError> {
    if info.id.Some? then Ok(info.id.value)
    else
      match info.named
      case None => Err(Protocol)
      case Some(name) =>
        if svc.codec.queryToBytes(name).Some? && name in svc.names then Ok(svc.names[name]) else Err(Router)
  }

  /** The sender that handlers are given next, the handler calls made, and the outcomes. */
  datatype Record = Record(tx: Option<Sender>, calls: seq<Call>, outcomes: seq<Outcome>)

  /** A request is answered by its own handler, called once, or by an error, or dropped. */
  function Simple(svc: Service, r: Record, req: Request): Record {
    match Target(svc, req.info)
    case Err(e) => r.(outcomes := r.outcomes + [Dropped(e)])
    case Ok(id) =>
      if svc.codec.metaToBytes(MetaFor(svc.codec, req, id)).None?
      then r.(outcomes := r.outcomes + [Dropped(Protocol)])
      else
        var reply := RequestReply(svc, r.calls, r.tx, id, req);
        Record(reply.returned, r.calls + Srv.CallOf(reply), r.outcomes + [Completed(reply.message)])
  }

  function SimpleAll(svc: Service, reqs: seq<Request>): (r: Record)
    ensures |r.outcomes| == |reqs|
  {
    if reqs == [] then Record(Some(OWN), [], [])
    else Simple(svc, SimpleAll(svc, reqs[..|reqs| - 1]), reqs[|reqs| - 1])
  }

  /** The cache says what the server's table says. */
  ghost predicate Coherent(svc: Service, cache: map<string, U64>) {
    forall n :: n in cache ==> n in svc.names && cache[n] == svc.names[n] && svc.codec.queryToBytes(n).Some?
  }

  ghost predicate Exact(svc: Service, g: Lag, r: Record) {
    && g.owed == [] && g.desk.tx == r.tx && g.desk.calls == r.calls && g.outcomes == r.outcomes
    && Coherent(svc, g.cache)
  }

  lemma RoutedExact(svc: Service, g: Lag, r: Record, req: Request)
    requires Lawful(svc.codec) && Exact(svc, g, r)
    ensures match LagRouted(svc, g, req)
            case LagNoAnswer => true
            case LagRefused(g') => Target(svc, req.info).Err? && Exact(svc, g', Simple(svc, r, req))
            case LagReady(g', id) => Target(svc, req.info) == Ok(id) && Exact(svc, g', r)
  {
    if req.info.id.None? && req.info.named.Some? {
      var name := req.info.named.value;
      if name !in g.cache && svc.codec.queryToBytes(name).Some? && g.desk.live {
        var reply := AnswerName(svc, name, g.desk.tx);
        assert ([] + [reply.message])[1..] == [];
      }
    }
  }

  lemma ExchangedExact(svc: Service, g: Lag, r: Record, req: Request, id: U64)
    requires Exact(svc, g, r) && Target(svc, req.info) == Ok(id) && LagExchanged(svc, g, req, id).Some?
    ensures var x := LagExchanged(svc, g, req, id).value;
      && x.outcomes == Simple(svc, r, req).outcomes && Coherent(svc, x.cache)
      && (req.data != [] || x.outcomes[|g.outcomes|].Dropped? ==> Exact(svc, x, Simple(svc, r, req)))
  {
    hide Target, Dispatch;
    var reply := RequestReply(svc, g.desk.calls, g.desk.tx, id, req);
    assert ([] + [reply.message])[1..] == [];
  }

  lemma PerformExact(svc: Service, g: Lag, r: Record, req: Request)
    requires Lawful(svc.codec) && Exact(svc, g, r) && LagPerform(svc, g, req).Some?
    ensures var x := LagPerform(svc, g, req).value;
      && x.outcomes == Simple(svc, r, req).outcomes && Coherent(svc, x.cache)
      && |x.outcomes| == |g.outcomes| + 1
      && (req.data != [] || x.outcomes[|g.outcomes|].Dropped? ==> Exact(svc, x, Simple(svc, r, req)))
  {
    RoutedExact(svc, g, r, req);
    SimpleSettlesOne(svc, r, req);
    hide LagRouted, LagExchanged, Simple;
    match LagRouted(svc, g, req)
    case LagReady(g', id) => ExchangedExact(svc, g', r, req, id);
    case _ =>
  }

  lemma SimpleSettlesOne(svc: Service, r: Record, req: Request)
    ensures |Simple(svc, r, req).outcomes| == |r.outcomes| + 1
  {
  }

  /** As long as no request without data is sent there is never a backlog, and the outcomes and
      handler calls are the specified ones. */
  lemma {:induction false} NoBacklog(svc: Service, reqs: seq<Request>)
    requires Lawful(svc.codec) && LagAll(svc, reqs).Some?
    requires Clean(reqs, LagAll(svc, reqs).value.outcomes, |reqs|)
    ensures Exact(svc, LagAll(svc, reqs).value, SimpleAll(svc, reqs))
  {
    if reqs != [] {
      var n := |reqs| - 1;
      var g, x := LagAll(svc, reqs[..n]).value, LagAll(svc, reqs).value;
      Drift(svc, reqs[..n]);
      Drift(svc, reqs);
      LagSettlesOne(svc, g, reqs[n]);
      hide LagPerform, Simple, Exact;
      assert Clean(reqs[..n], g.outcomes, n) by {
        assert forall j :: 0 <= j < n ==> x.outcomes[j] == g.outcomes[j];
      }
      NoBacklog(svc, reqs[..n]);
      PerformExact(svc, g, SimpleAll(svc, reqs[..n]), reqs[n]);
      assert x.outcomes[n].Completed? ==> WasSent(x.outcomes[n]);
    }
  }

  lemma LagSettlesOne(svc: Service, g: Lag, req: Request)
    ensures LagPerform(svc, g, req).Some? ==>
              var o := LagPerform(svc, g, req).value.outcomes;
              |o| == |g.outcomes| + 1 && o[..|g.outcomes|] == g.outcomes
  {
    RoutedDrift(svc, g, req);
    hide LagRouted, LagExchanged;
    match LagRouted(svc, g, req)
    case LagReady(g', id) => ExchangedDrift(svc, g', req, id);
    case _ =>
  }

  /** The request after them, empty or not, has the specified outcome too. */
  lemma NextIsSpecified(svc: Service, reqs: seq<Request>, k: nat)
    requires Usable(svc) && PerformAll(svc, reqs).Some? && k < |reqs|
    requires Clean(reqs, PerformAll(svc, reqs).value.outcomes, k)
    ensures |PerformAll(svc, reqs).value.outcomes| == |reqs|
    ensures PerformAll(svc, reqs).value.outcomes[k] == SimpleAll(svc, reqs[..k + 1]).outcomes[k]
  {
    hide LagPerform, Agree, Exact;
    PerformPrefix(svc, reqs, k);
    PerformPrefix(svc, reqs, k + 1);
    BacklogIsExact(svc, reqs[..k]);
    BacklogIsExact(svc, reqs[..k + 1]);
    assert reqs[..k + 1][..k] == reqs[..k];
    var o := PerformAll(svc, reqs).value.outcomes;
    AgreeOutcomes(svc, reqs[..k]);
    AgreeOutcomes(svc, reqs[..k + 1]);
    assert Clean(reqs[..k], o[..k], k);
    NoBacklog(svc, reqs[..k]);
    PerformExact(svc, LagAll(svc, reqs[..k]).value, SimpleAll(svc, reqs[..k]), reqs[k]);
  }

  lemma AgreeOutcomes(svc: Service, reqs: seq<Request>)
    requires Usable(svc) && PerformAll(svc, reqs).Some?
    ensures LagAll(svc, reqs).Some? && LagAll(svc, reqs).value.outcomes == PerformAll(svc, reqs).value.outcomes
  {
    hide Perform, LagPerform;
    BacklogIsExact(svc, reqs);
  }

  // ----- One empty request is enough -----

  lemma EmptyFirst(svc: Service, req: Request, id: U64)
    requires req.data == [] && req.info.id == Some(id)
    requires Next(svc, OPEN, RequestReply(svc, [], Some(OWN), id, req)).live
    requires svc.codec.metaToBytes(MetaFor(svc.codec, req, id)).Some?
    ensures var p := LagPerform(svc, NO_LAG, req);
      && p.Some? && p.value.owed == [svc.codec.errorToBytes(MalformedMetaInfo)]
      && p.value.outcomes == [Completed(RequestReply(svc, [], Some(OWN), id, req).message)]
  {
    hide Dispatch;
  }

  /** With answers owed, a request gets the oldest of them, whatever it asks for. */
  lemma StaleAnswer(svc: Service, g: Lag, req: Request, id: U64)
    requires g.owed != [] && req.info.id == Some(id) && svc.codec.metaToBytes(MetaFor(svc.codec, req, id)).Some?
    ensures var p := LagPerform(svc, g, req);
      p.Some? && p.value.outcomes == g.outcomes + [Completed(g.owed[0])]
  {
    hide Dispatch;
  }

  /** The consumer after an empty request gets the error meant for the stray frame. */
  lemma EmptyDataShiftsAnswers(svc: Service, first: Request, second: Request, id1: U64, id2: U64)
    requires Usable(svc) && first.data == [] && first.info.id == Some(id1) && second.info.id == Some(id2)
    requires svc.codec.metaToBytes(MetaFor(svc.codec, first, id1)).Some?
    requires svc.codec.metaToBytes(MetaFor(svc.codec, second, id2)).Some?
    requires Next(svc, OPEN, RequestReply(svc, [], Some(OWN), id1, first)).live
    ensures var p := PerformAll(svc, [first, second]);
      p.Some? && p.value.outcomes == [Completed(RequestReply(svc, [], Some(OWN), id1, first).message),
                                      Completed(svc.codec.errorToBytes(MalformedMetaInfo))]
  {
    hide Dispatch;
    BacklogIsExact(svc, [first, second]);
    assert [first, second][..1] == [first] && [first][..0] == [];
    EmptyFirst(svc, first, id1);
    hide Perform, LagPerform, Agree;
    var g1 := LagPerform(svc, NO_LAG, first).value;
    assert LagAll(svc, [first]) == Some(g1);
    StaleAnswer(svc, g1, second, id2);
    AgreeOutcomes(svc, [first, second]);
  }
}
