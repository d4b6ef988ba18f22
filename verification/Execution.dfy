/** How often handlers run. In every run, also one in which the connection is lost, closed or
    handed off and the client goes on with requests that fail, the server has done just what the
    frames it has read ask for, and each handler call is that of a different request. */
module Execution {
  import opened Wire
  import opened TrafficLink
  import opened Stream
  import opened PacketService
  import opened ClientTask
  import opened Session
  import opened Interleaving
  import opened Pairing
  import opened Guarantees
  import Framing
  import Srv = Connection

  // ----- The server and the frames it has read -----

  /** On a connection that is down the server, if it still runs, is reading the first of the
      frames that the client had produced. */
  ghost predicate DownServes(env: Env, s: Sys) {
    && s.consumed <= |s.client.emitted|
    && HasServed(env.svc, s.server, s.client.emitted[..s.consumed])
    && (!s.server.phase.Ended? ==> s.lost && Coming(env.up, s.serverRx, s.up, s.client.emitted, s.consumed))
  }

  lemma EmittedGrows(env: Env, s: Sys, step: Step)
    requires Enabled(env, s, step)
    ensures s.client.emitted <= Apply(env, s, step).client.emitted
  {
    hide Begin, Got, Srv.Receive, Srv.Serve, Srv.RespondWith;
    match step
    case ClientTake => BeginGrows(Ep(env), s.client.(queue := s.client.queue[1..]), s.client.queue[0]);
    case ClientReceive => GotGrows(Ep(env), s.client, Frame(s.down[0]));
    case ClientCut(ev) => GotGrows(Ep(env), s.client, ev);
    case ClientStray(w) => GotGrows(Ep(env), s.client, Frame(w));
    case _ =>
  }

  lemma BeginGrows(ep: Endpoint, c: Client, req: Request)
    ensures c.emitted <= Begin(ep, c, req).emitted
  {
    hide EncodeAll, TxAfter;
  }

  lemma GotGrows(ep: Endpoint, c: Client, ev: Inbound)
    requires c.phase != Idle
    ensures c.emitted <= Got(ep, c, ev).emitted
  {
    hide EncodeAll, TxAfter;
  }

  /** What the client does changes nothing for the server. */
  lemma ClientStepServes(env: Env, s: Sys, step: Step)
    requires Enabled(env, s, step) && Down(s) && DownServes(env, s)
    requires step.Accept? || step.ClientTake? || step.ClientSend? || step.ClientReceive? || step.ClientCut? ||
             step.ClientStray?
    ensures DownServes(env, Apply(env, s, step))
  {
    EmittedGrows(env, s, step);
    hide HasServed, Coming, Take, Got, Sent;
    var s' := Apply(env, s, step);
    assert s'.client.emitted[..s.consumed] == s.client.emitted[..s.consumed];
    if !s.server.phase.Ended? {
      ComingStill(env.up, s.serverRx, s.up, s.client.emitted, s.consumed, s'.client.emitted);
    }
  }

  lemma ServerReadServes(env: Env, s: Sys)
    requires Enabled(env, s, ServerReceive) && DownServes(env, s)
    ensures DownServes(env, Apply(env, s, ServerReceive))
  {
    hide HasServed, Coming, Srv.Receive;
    var e := s.client.emitted;
    ReceiveComing(env.up, s.serverRx, s.up, e, s.consumed);
    ComingLength(env.up, s.serverRx, s.up, e, s.consumed);
    HearsNext(env.svc, s.server, e[..s.consumed], e[s.consumed]);
    assert e[..s.consumed + 1] == e[..s.consumed] + [e[s.consumed]];
  }

  lemma ServerStepServes(env: Env, s: Sys, step: Step)
    requires Good(env) && Enabled(env, s, step) && Down(s) && DownServes(env, s)
    requires step.ServerServe? || step.ServerRespond? || step.ServerCut? || step.Lose?
    ensures DownServes(env, Apply(env, s, step))
  {
    hide Coming, Srv.Serve, Srv.RespondWith, Srv.Settle, ServerOn;
    var frames := s.client.emitted[..s.consumed];
    match step
    case ServerServe => ServeServes(env.svc, s.server, frames);
    case ServerRespond(ok) => RespondServes(env.svc, s.server, frames, ok);
    case ServerCut(ev) =>
      CutServer(env.svc.codec, s.server, ev);
      ReadingServer(env.svc, s.server, []);
    case Lose(_, _) =>
  }

  lemma DownStepServes(env: Env, s: Sys, step: Step)
    requires Good(env) && Enabled(env, s, step) && Down(s) && DownServes(env, s)
    ensures DownServes(env, Apply(env, s, step))
  {
    hide DownServes;
    match step
    case ServerReceive => ServerReadServes(env, s);
    case ServerServe => ServerStepServes(env, s, step);
    case ServerRespond(_) => ServerStepServes(env, s, step);
    case ServerCut(_) => ServerStepServes(env, s, step);
    case Lose(_, _) => ServerStepServes(env, s, step);
    case _ => ClientStepServes(env, s, step);
  }

  lemma InStepServes(env: Env, s: Sys)
    requires InStep(env, s) && !s.severed
    ensures s.consumed <= |s.client.emitted| && HasServed(env.svc, s.server, s.client.emitted[..s.consumed])
    ensures Down(s) ==> DownServes(env, s)
  {
    hide HasServed, Coming, InFlight, ClientInStep, ResponsesInStep;
  }

  /** In every run, severed or not, the server has done, or is doing, what the frames it has read
      ask for, and these are the first that the client produced. */
  lemma {:induction false} ServerDoesWhatItRead(env: Env, steps: seq<Step>)
    requires Good(env) && IsRun(env, steps)
    ensures var s := Exec(env, steps);
      && s.consumed <= |s.client.emitted|
      && HasServed(env.svc, s.server, s.client.emitted[..s.consumed])
      && (s.severed ==> DownServes(env, s))
  {
    if !Exec(env, steps).severed {
      RunInStep(env, steps);
      hide InStep;
      InStepServes(env, Exec(env, steps));
    } else {
      var before, step := steps[..|steps| - 1], steps[|steps| - 1];
      ServerDoesWhatItRead(env, before);
      QueueDiscipline(env, before);
      RunInStep(env, before);
      var s := Exec(env, before);
      DownStaysDown(env, s, step);
      hide DownServes, InStep, HasServed, Apply;
      if !s.severed { InStepServes(env, s); }
      DownStepServes(env, s, step);
      ServesMore(env, Exec(env, steps));
    }
  }

  lemma ServesMore(env: Env, s: Sys)
    requires DownServes(env, s)
    ensures s.consumed <= |s.client.emitted| && HasServed(env.svc, s.server, s.client.emitted[..s.consumed])
  {
  }

  // ----- The requests behind the frames -----

  ghost predicate Increasing(idx: seq<nat>) {
    forall i, j :: 0 <= i < j < |idx| ==> idx[i] < idx[j]
  }

  lemma IncreasingMore(idx: seq<nat>, k: nat)
    requires Increasing(idx) && forall i :: 0 <= i < |idx| ==> idx[i] < k
    ensures Increasing(idx + [k])
  {
  }

  /** The orders are requests number `idx[0]`, `idx[1]`, and so on, each one once. */
  ghost predicate Picked(orders: seq<Request>, reqs: seq<Request>, idx: seq<nat>, bound: nat) {
    && |idx| == |orders| && Increasing(idx)
    && forall i :: 0 <= i < |idx| ==> idx[i] < bound && idx[i] < |reqs| && orders[i] == reqs[idx[i]]
  }

  /** The requests whose frames have been produced, if they ever are. */
  function Begun(c: Client): nat {
    |c.outcomes| + if c.phase.AwaitAnswer? then 1 else 0
  }

  /** From `c` to `c'` the client said `it`; if that is an order, it is of the request whose turn
      it is among `reqs`. */
  ghost predicate Says(codec: Codec, c: Client, reqs: seq<Request>, c': Client, it: Option<Framing.Item>) {
    && (it.None? ==> c'.emitted == c.emitted)
    && (it.Some? ==> Framing.Encodable(codec, it.value) && c'.emitted == c.emitted + Framing.FramesOf(codec, it.value))
    && Begun(c) <= Begun(c')
    && (it.Some? && it.value.Order? ==>
          && |c.outcomes| < |reqs| && it.value.req == reqs[|c.outcomes|]
          && Begun(c) == |c.outcomes| && Begun(c') == |c.outcomes| + 1)
  }

  /** It is the turn of `req`. */
  ghost predicate Turn(c: Client, reqs: seq<Request>, req: Request) {
    |c.outcomes| < |reqs| && reqs[|c.outcomes|] == req
  }

  lemma SendRequestSays(ep: Endpoint, c: Client, reqs: seq<Request>, req: Request, id: U64)
    returns (it: Option<Framing.Item>)
    requires !c.phase.AwaitAnswer? && Turn(c, reqs, req)
    ensures Says(ep.codec, c, reqs, SendRequest(ep, c, req, id), it)
  {
    hide EncodeAll, TxAfter;
    it := if ep.codec.metaToBytes(MetaFor(ep.codec, req, id)).Some? then Some(Framing.Order(req, id)) else None;
  }

  lemma BeginSays(ep: Endpoint, c: Client, reqs: seq<Request>, req: Request) returns (it: Option<Framing.Item>)
    requires c.phase == Idle && Turn(c, reqs, req)
    ensures Says(ep.codec, c, reqs, Begin(ep, c, req), it)
  {
    hide EncodeAll, TxAfter, SendRequest;
    if req.info.id.Some? {
      it := SendRequestSays(ep, c, reqs, req, req.info.id.value);
    } else if req.info.named.None? {
      it := None;
    } else {
      var name := req.info.named.value;
      if name in c.cache {
        it := SendRequestSays(ep, c, reqs, req, c.cache[name]);
      } else {
        it := if ep.codec.queryToBytes(name).Some? then Some(Framing.Query(name)) else None;
      }
    }
  }

  lemma GotSays(ep: Endpoint, c: Client, reqs: seq<Request>, ev: Inbound) returns (it: Option<Framing.Item>)
    requires c.phase != Idle && Turn(c, reqs, c.phase.req)
    ensures Says(ep.codec, c, reqs, Got(ep, c, ev), it)
  {
    hide EncodeAll, TxAfter, SendRequest;
    it := None;
    if c.phase.AwaitName? && ev.Frame? {
      var (rx, b) := ep.pre(c.rx, ev.bytes);
      var answer := ep.codec.accessAnswer(b);
      if answer.Some? {
        var c' := c.(rx := rx, cache := c.cache[c.phase.name := answer.value], fetched := c.fetched + [c.phase.name]);
        it := SendRequestSays(ep, c', reqs, c.phase.req, answer.value);
      }
    }
  }

  /** What the client says in a step is about the request it works on. */
  lemma StepSays(env: Env, s: Sys, step: Step) returns (it: Option<Framing.Item>)
    requires QueueOk(env, s) && Enabled(env, s, step)
    ensures s.accepted <= Apply(env, s, step).accepted
    ensures Says(env.svc.codec, s.client, s.accepted, Apply(env, s, step).client, it)
  {
    hide Begin, Got, FetchedOnce, Srv.Receive, Srv.Serve, Srv.RespondWith;
    var c := s.client;
    assert c.phase != Idle ==> s.accepted[|c.outcomes|..][0] == c.phase.req;
    match step
    case ClientTake =>
      assert s.accepted[|c.outcomes|..][0] == c.queue[0];
      it := BeginSays(Ep(env), c.(queue := c.queue[1..]), s.accepted, c.queue[0]);
    case ClientReceive => it := GotSays(Ep(env), c, s.accepted, Frame(s.down[0]));
    case ClientCut(ev) => it := GotSays(Ep(env), c, s.accepted, ev);
    case ClientStray(w) => it := GotSays(Ep(env), c, s.accepted, Frame(w));
    case _ => it := None;
  }

  lemma PickMore(orders: seq<Request>, reqs: seq<Request>, idx: seq<nat>, bound: nat, reqs': seq<Request>, k: nat)
    requires Picked(orders, reqs, idx, bound) && reqs <= reqs' && bound <= k < |reqs'|
    ensures Picked(orders + [reqs'[k]], reqs', idx + [k], k + 1)
  {
    IncreasingMore(idx, k);
    hide Increasing;
  }

  lemma PickStill(orders: seq<Request>, reqs: seq<Request>, idx: seq<nat>, bound: nat, reqs': seq<Request>, bound': nat)
    requires Picked(orders, reqs, idx, bound) && reqs <= reqs' && bound <= bound'
    ensures Picked(orders, reqs', idx, bound')
  {
  }

  /** The frames produced are those of `items`, whose orders are requests number `idx`. */
  ghost predicate MadeOf(codec: Codec, c: Client, reqs: seq<Request>, items: seq<Framing.Item>, idx: seq<nat>) {
    Framing.Framed(codec, c.emitted, items) && Picked(Framing.Orders(items), reqs, idx, Begun(c))
  }

  lemma SaidIsMade(codec: Codec, c: Client, reqs: seq<Request>, items: seq<Framing.Item>, idx: seq<nat>,
                       c': Client, reqs': seq<Request>, it: Option<Framing.Item>)
    returns (items': seq<Framing.Item>, idx': seq<nat>)
    requires MadeOf(codec, c, reqs, items, idx) && Says(codec, c, reqs, c', it) && reqs <= reqs'
    ensures MadeOf(codec, c', reqs', items', idx')
  {
    hide Framing.Framed, Framing.Orders, Picked;
    items', idx' := items, idx;
    if it.Some? {
      Framing.FramedMore(codec, c.emitted, items, it.value);
      Framing.OrdersSnoc(items, it.value);
      items' := items + [it.value];
    }
    if it.Some? && it.value.Order? {
      PickMore(Framing.Orders(items), reqs, idx, Begun(c), reqs', |c.outcomes|);
      idx' := idx + [|c.outcomes|];
    } else {
      PickStill(Framing.Orders(items), reqs, idx, Begun(c), reqs', Begun(c'));
      assert Framing.Orders(items) + [] == Framing.Orders(items);
    }
  }

  /** In every run, severed or not, the frames produced are those of name queries and of accepted
      requests, each request's once and in the order accepted. */
  lemma {:induction false} ProducedOnce(env: Env, steps: seq<Step>) returns (items: seq<Framing.Item>, idx: seq<nat>)
    requires IsRun(env, steps)
    ensures MadeOf(env.svc.codec, Exec(env, steps).client, Exec(env, steps).accepted, items, idx)
  {
    items, idx := [], [];
    if steps != [] {
      var before, step := steps[..|steps| - 1], steps[|steps| - 1];
      hide MadeOf, Apply, QueueOk, Says;
      items, idx := ProducedOnce(env, before);
      QueueDiscipline(env, before);
      var s := Exec(env, before);
      var s' := Apply(env, s, step);
      var it := StepSays(env, s, step);
      items, idx := SaidIsMade(env.svc.codec, s.client, s.accepted, items, idx, s'.client, s'.accepted, it);
    }
  }

  // ----- The calls behind the frames -----

  /** The calls are those of requests number `idx[0]`, `idx[1]`, and so on, each one once. */
  ghost predicate Ran(calls: seq<Call>, reqs: seq<Request>, idx: seq<nat>) {
    && |idx| == |calls| && Increasing(idx)
    && forall i :: 0 <= i < |idx| ==>
                     && idx[i] < |reqs|
                     && calls[i].sType == reqs[idx[i]].sType && calls[i].payload == reqs[idx[i]].data
  }

  /** The server is between packets, or gone. */
  predicate Between(s: Srv.Server) {
    s.phase.AwaitMeta? || s.phase.Ended?
  }

  /** A handler call is made for a header, with its type and the payload. */
  lemma CallOfPacket(svc: Service, n: nat, meta: Bytes, payload: Bytes, tx: Option<Sender>)
    ensures var reply := ServePacket(svc, n, meta, payload, tx);
      reply.call.Some? ==>
        && svc.codec.accessMeta(meta).Some? && reply.call.value.payload == payload
        && reply.call.value.sType == svc.codec.numberToType(svc.codec.accessMeta(meta).value.sTypeReq)
  {
    CalledIff(svc, n, meta, payload, tx);
  }

  lemma SettleCalls(svc: Service, s: Srv.Server)
    requires s.phase.Serving?
    ensures Between(Srv.Settle(svc, s))
    ensures Srv.Settle(svc, s).work.calls == s.work.calls + Srv.CallOf(Srv.ReplyTo(svc, s.work, s.phase.packet))
  {
    hide ServePacket;
  }

  /** What a packet adds to the calls: nothing, or one call of the request it carries. */
  ghost predicate AddsOne(calls: seq<Call>, calls': seq<Call>, sType: SType, payload: Bytes) {
    || calls' == calls
    || (|calls'| == |calls| + 1 && calls'[..|calls|] == calls
        && calls'[|calls|].sType == sType && calls'[|calls|].payload == payload)
  }

  lemma AloneCalls(svc: Service, s: Srv.Server, b: Bytes)
    requires Between(s) && !Srv.WantsPayload(svc.codec, b)
    ensures var s' := Hearing(svc, s, b);
      && Between(s')
      && (svc.codec.accessMeta(b).None? ==> s'.work.calls == s.work.calls)
      && (svc.codec.accessMeta(b).Some? ==>
            AddsOne(s.work.calls, s'.work.calls, svc.codec.numberToType(svc.codec.accessMeta(b).value.sTypeReq), []))
  {
    hide ServePacket, Srv.Settle;
    if s.phase.AwaitMeta? {
      CallOfPacket(svc, |s.work.calls|, b, [], s.work.tx);
      SettleCalls(svc, Srv.Receive(svc.codec, s, Frame(b)));
    } else {
      HearingOnlyAdds(svc, s, b);
    }
  }

  lemma PairCalls(svc: Service, s: Srv.Server, meta: Bytes, payload: Bytes)
    requires Between(s) && Srv.WantsPayload(svc.codec, meta)
    ensures var (s1, s2) := (Hearing(svc, s, meta), Hearing(svc, Hearing(svc, s, meta), payload));
      && s1.work.calls == s.work.calls && Between(s2)
      && AddsOne(s.work.calls, s2.work.calls,
                 svc.codec.numberToType(svc.codec.accessMeta(meta).value.sTypeReq), payload)
  {
    hide ServePacket;
    if s.phase.AwaitMeta? {
      var s1 := Hearing(svc, s, meta);
      assert s1 == Srv.Receive(svc.codec, s, Frame(meta)) && s1.phase == Srv.AwaitPayload(meta);
      hide Srv.Settle;
      CallOfPacket(svc, |s.work.calls|, meta, payload, s.work.tx);
      SettleCalls(svc, Srv.Receive(svc.codec, s1, Frame(payload)));
    } else {
      HearingOnlyAdds(svc, s, meta);
      HearingOnlyAdds(svc, s, payload);
    }
  }

  /** The frames of one item, or the first of them, run at most one handler, for that item. */
  lemma ItemCalls(svc: Service, e: seq<Bytes>, it: Framing.Item, n: nat)
    requires Lawful(svc.codec) && Framing.Encodable(svc.codec, it) && Between(ServerOn(svc, e))
    requires 0 < n <= |Framing.FramesOf(svc.codec, it)|
    ensures var frames := Framing.FramesOf(svc.codec, it);
      var (s, s') := (ServerOn(svc, e), ServerOn(svc, e + frames[..n]));
      && (n == |frames| ==> Between(s'))
      && (it.Query? ==> s'.work.calls == s.work.calls)
      && (it.Order? ==> AddsOne(s.work.calls, s'.work.calls, it.req.sType, it.req.data))
  {
    hide ServerOn, Hearing, AddsOne;
    var (c, s, frames) := (svc.codec, ServerOn(svc, e), Framing.FramesOf(svc.codec, it));
    assert frames[..1] == [frames[0]];
    ServerOnOne(svc, e, frames[0]);
    if it.Query? {
      AloneCalls(svc, s, frames[0]);
    } else {
      assert c.accessMeta(frames[0]) == Some(MetaFor(c, it.req, it.id));
      assert frames[..2] == [frames[0]] + [it.req.data] && e + frames[..2] == e + [frames[0]] + [it.req.data];
      ServerOnOne(svc, e + [frames[0]], it.req.data);
      if it.req.data == [] {
        AloneCalls(svc, s, frames[0]);
        AloneCalls(svc, ServerOn(svc, e + [frames[0]]), []);
      } else {
        PairCalls(svc, s, frames[0], it.req.data);
        AddsNothing(s.work.calls, it.req.sType, it.req.data);
      }
    }
  }

  lemma AddsNothing(calls: seq<Call>, sType: SType, payload: Bytes)
    ensures AddsOne(calls, calls, sType, payload)
  {
  }

  lemma RanMore(calls: seq<Call>, reqs: seq<Request>, idx: seq<nat>, req: Request, calls': seq<Call>)
    returns (idx': seq<nat>)
    requires Ran(calls, reqs, idx) && AddsOne(calls, calls', req.sType, req.data)
    ensures Ran(calls', reqs + [req], idx')
  {
    if calls' == calls {
      idx' := idx;
      RanStill(calls, reqs, idx, [req]);
    } else {
      idx' := idx + [|reqs|];
      IncreasingMore(idx, |reqs|);
      hide Increasing;
      forall i | 0 <= i < |idx'|
        ensures var all := reqs + [req];
          && idx'[i] < |all|
          && calls'[i].sType == all[idx'[i]].sType && calls'[i].payload == all[idx'[i]].data
      {
        assert i < |calls| ==> calls'[..|calls|][i] == calls'[i];
      }
    }
  }

  lemma RanStill(calls: seq<Call>, reqs: seq<Request>, idx: seq<nat>, more: seq<Request>)
    requires Ran(calls, reqs, idx)
    ensures Ran(calls, reqs + more, idx)
  {
  }

  lemma FramedFront(c: Codec, emitted: seq<Bytes>, items: seq<Framing.Item>)
    requires Framing.Framed(c, emitted, items) && items != []
    ensures Framing.Encodable(c, items[|items| - 1])
    ensures var (front, frames) := (items[..|items| - 1], Framing.FramesOf(c, items[|items| - 1]));
      var k := |emitted| - |frames|;
      k >= 0 && emitted == emitted[..k] + frames && Framing.Framed(c, emitted[..k], front)
  {
    var front, last := items[..|items| - 1], items[|items| - 1];
    assert items == front + [last];
    Framing.EmissionSnoc(c, front, last);
    FramesSplit(emitted, Framing.Emission(c, front), Framing.FramesOf(c, last));
  }

  lemma FramesSplit(e: seq<Bytes>, a: seq<Inbound>, frames: seq<Bytes>)
    requires Framing.Frames(e) == a + Framing.Frames(frames)
    ensures var k := |e| - |frames|; k >= 0 && e == e[..k] + frames && Framing.Frames(e[..k]) == a
  {
    assert |e| == |Framing.Frames(e)| == |a| + |frames|;
    forall i | 0 <= i < |e| ensures Frame(e[i]) == if i < |a| then a[i] else Frame(frames[i - |a|]) {
      assert Framing.Frames(e)[i] == Frame(e[i]);
    }
  }

  /** Reading the frames of some items, or the first of those frames, runs handlers for the orders
      among them, in order, at most once for each. */
  lemma {:induction false} ItemsRun(svc: Service, e: seq<Bytes>, items: seq<Framing.Item>, n: nat)
    returns (idx: seq<nat>)
    requires Lawful(svc.codec) && Framing.Framed(svc.codec, e, items) && n <= |e|
    ensures Ran(ServerOn(svc, e[..n]).work.calls, Framing.Orders(items), idx)
    ensures n == |e| ==> Between(ServerOn(svc, e[..n]))
    decreases |items|
  {
    if items == [] {
      assert |Framing.Frames(e)| == 0;
      idx := [];
    } else {
      var front, it := items[..|items| - 1], items[|items| - 1];
      FramedFront(svc.codec, e, items);
      var frames := Framing.FramesOf(svc.codec, it);
      var k := |e| - |frames|;
      assert Framing.Orders(items) == Framing.Orders(front) + if it.Order? then [it.req] else [];
      hide Framing.Framed, Framing.Orders, ServerOn, Ran, AddsOne, Framing.FramesOf;
      if n <= k {
        idx := ItemsRun(svc, e[..k], front, n);
        assert e[..k][..n] == e[..n];
        RanStill(ServerOn(svc, e[..n]).work.calls, Framing.Orders(front), idx, if it.Order? then [it.req] else []);
        NonEmptyFrames(svc.codec, it);
      } else {
        idx := ItemsRun(svc, e[..k], front, k);
        assert e[..k][..k] == e[..k] && e[..n] == e[..k] + frames[..n - k];
        ItemCalls(svc, e[..k], it, n - k);
        if it.Order? {
          idx := RanMore(ServerOn(svc, e[..k]).work.calls, Framing.Orders(front), idx, it.req,
                         ServerOn(svc, e[..n]).work.calls);
        } else {
          RanStill(ServerOn(svc, e[..k]).work.calls, Framing.Orders(front), idx, []);
        }
      }
    }
  }

  lemma NonEmptyFrames(c: Codec, it: Framing.Item)
    requires Framing.Encodable(c, it)
    ensures |Framing.FramesOf(c, it)| > 0
  {
  }

  lemma ServedCalls(svc: Service, server: Srv.Server, frames: seq<Bytes>)
    requires HasServed(svc, server, frames)
    ensures server.work.calls <= ServerOn(svc, frames).work.calls
  {
    hide ServerOn, ServePacket;
  }

  /** The first of the calls, when the orders are themselves picked from the requests. */
  lemma RanPicked(calls: seq<Call>, all: seq<Call>, orders: seq<Request>, jdx: seq<nat>, reqs: seq<Request>,
                  idx: seq<nat>, bound: nat) returns (r: seq<nat>)
    requires calls <= all && Ran(all, orders, jdx) && Picked(orders, reqs, idx, bound)
    ensures Ran(calls, reqs, r) && forall i :: 0 <= i < |r| ==> r[i] < bound
  {
    r := seq(|calls|, i requires 0 <= i < |calls| => idx[jdx[i]]);
    forall i, j | 0 <= i < j < |r| ensures r[i] < r[j] {
      assert jdx[i] < jdx[j];
    }
  }

  /** At most once. In every run, whatever is lost, closed or handed off and whatever the data, the
      handler calls made are those of different requests, in the order accepted, each with its
      request's type and data, and all of requests that the client has begun to send. */
  lemma AtMostOnce(env: Env, steps: seq<Step>) returns (idx: seq<nat>)
    requires Good(env) && IsRun(env, steps)
    ensures var s := Exec(env, steps);
      Ran(s.server.work.calls, s.accepted, idx) && forall i :: 0 <= i < |idx| ==> idx[i] < Begun(s.client)
  {
    hide Exec, IsRun, HasServed, DownServes, Framing.Framed, ServerOn, Picked, Ran;
    var s := Exec(env, steps);
    ServerDoesWhatItRead(env, steps);
    var items, picks := ProducedOnce(env, steps);
    var runs := ItemsRun(env.svc, s.client.emitted, items, s.consumed);
    var frames := s.client.emitted[..s.consumed];
    ServedCalls(env.svc, s.server, frames);
    idx := RanPicked(s.server.work.calls, ServerOn(env.svc, frames).work.calls, Framing.Orders(items), runs,
                     s.accepted, picks, Begun(s.client));
  }
}
