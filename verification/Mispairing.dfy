/** Runs in which a request without data costs later ones their answers, and the service that
    shows the assumptions can be met. */
module Mispairing {
  import opened Wire
  import opened TrafficLink
  import opened PacketService
  import opened ClientTask
  import opened Session
  import opened Interleaving
  import opened Pairing
  import opened Guarantees
  import opened Progress
  import Srv = Connection
  import ServerRouter

  // ----- The assumptions can be met -----

  /** Handlers that always give the sender back, unused. */
  ghost predicate AlwaysReturns(h: Handler) {
    forall n, r, t, b, tx :: var res := h(n, r, t, b, tx);
      res.Finished? && res.returned == tx && res.sent.None?
  }

  const TOY_CALLS :=
    [ServerRouter.Add(7, "echo", {0}), ServerRouter.Add(8, "log", {0}), ServerRouter.Commit]

  const ECHO := ServerRouter.TypeTuple({0}, 0)

  const LOG := ServerRouter.TypeTuple({0}, 1)

  /** A server with two routes, both of which send the data back. */
  function ToyService(): Service {
    Service(ToyCodec(), ServerRouter.Overlap, [ServerRouter.Entry(ECHO, 7), ServerRouter.Entry(LOG, 8)],
            map["echo" := 0, "log" := 1],
            (n: nat, r: ServerRouter.Route, t: SType, b: Bytes, tx: Option<Sender>) => Finished(Ok(b), None, tx),
            (n: nat) => None, (n: nat) => true)
  }

  function ToyEnv(): Env {
    Env(ToyService(), StampingLane(), StampingLane(), 0, 0, 0, 0, 3)
  }

  /** All that is assumed anywhere can be met together, by a committed router with routes. */
  lemma AssumptionsAreMet()
    ensures var svc := ToyService();
      && Good(ToyEnv()) && HonoursToken(svc.handler) && AlwaysReturns(svc.handler)
      && ServerRouter.IdRespecting(svc.eq) && ServerRouter.MatchesByMembership(svc.eq)
      && ServerRouter.Frozen(TOY_CALLS) && StandsOn(svc, TOY_CALLS)
      && |ServerRouter.Registered(TOY_CALLS)| == 2
      && ServerRouter.IsLastNamed(ServerRouter.Registered(TOY_CALLS), "log", 1)
  {
    CodecLawsAreMet();
    LaneLawsAreMet();
    ServerRouter.OverlapIsNotTransitive();
    ToyRouter();
  }

  lemma ToyRegistered()
    ensures ServerRouter.Frozen(TOY_CALLS)
    ensures ServerRouter.Registered(TOY_CALLS)
         == [ServerRouter.Registration(ECHO, 7, "echo"), ServerRouter.Registration(LOG, 8, "log")]
  {
    var one, two := TOY_CALLS[..1], TOY_CALLS[..2];
    assert two[..1] == one && one[..0] == [];
    assert TOY_CALLS[0].Add? && TOY_CALLS[2].Commit?;
    assert ServerRouter.Registered(one) == [] + [ServerRouter.Registration(ECHO, 7, "echo")];
    assert ServerRouter.Registered(two)
        == ServerRouter.Registered(one) + [ServerRouter.Registration(LOG, 8, "log")];
  }

  lemma ToyRouter()
    ensures ServerRouter.Frozen(TOY_CALLS) && StandsOn(ToyService(), TOY_CALLS)
    ensures ServerRouter.Registered(TOY_CALLS)
         == [ServerRouter.Registration(ECHO, 7, "echo"), ServerRouter.Registration(LOG, 8, "log")]
  {
    ToyRegistered();
    ServerRouter.OverlapIsNotTransitive();
    ServerRouter.CommittedTables(ServerRouter.Overlap, TOY_CALLS);
    var regs := ServerRouter.Registered(TOY_CALLS);
    hide ServerRouter.AfterCalls, ServerRouter.Registered;
    assert regs[..1] == [regs[0]] && [regs[0]][..0] == [];
    assert ServerRouter.NamesOf([regs[0]]) == map["echo" := 0];
    assert ServerRouter.NamesOf(regs) == map["echo" := 0, "log" := 1];
  }

  // ----- A run in which a consumer is given another's answer -----

  /** The loop runs and nobody else holds its sender. */
  ghost predicate Healthy(s: Srv.Server) {
    !s.phase.Ended? && s.work.tx == Some(OWN) && s.work.chan == None && !s.work.kept
  }

  lemma StepKeepsHealth(env: Env, s: Sys, step: Step)
    requires AlwaysReturns(env.svc.handler) && Enabled(env, s, step) && Healthy(s.server) && !s.lost && !step.Lose?
    ensures Healthy(Apply(env, s, step).server)
  {
    hide Take, Got, Sent;
    if step == ServerServe { ServeKeepsHealth(env.svc, s.server); }
    hide Srv.Serve;
  }

  lemma ServeKeepsHealth(svc: Service, s: Srv.Server)
    requires AlwaysReturns(svc.handler) && Healthy(s) && s.phase.Serving?
    ensures Healthy(Srv.Serve(svc, s))
  {
  }

  /** With handlers that give the sender back, a connection that is not lost stays up. */
  lemma {:induction false} StaysUp(env: Env, steps: seq<Step>)
    requires IsRun(env, steps) && AlwaysReturns(env.svc.handler) && LosesNone(steps)
    ensures var s := Exec(env, steps); !s.lost && !s.severed && Healthy(s.server)
  {
    if steps != [] {
      var before := steps[..|steps| - 1];
      StaysUp(env, before);
      assert !steps[|steps| - 1].Lose?;
      StepKeepsHealth(env, Exec(env, before), steps[|steps| - 1]);
      hide Healthy, Take, Got, Sent;
    }
  }

  lemma TwoAccepted(env: Env, first: Request, second: Request)
    requires env.capacity >= 2
    ensures var steps := [Accept(first), Accept(second)];
      IsRun(env, steps) && Exec(env, steps).accepted == Exec(env, steps).client.queue == [first, second]
  {
    assert [] + [Accept(first)] == [Accept(first)];
    OneMore(env, [], Accept(first));
    assert [Accept(first)] + [Accept(second)] == [Accept(first), Accept(second)];
    OneMore(env, [Accept(first)], Accept(second));
  }

  /** On any server with well-behaved handlers a request without data costs the next consumer its
      answer: there is a run, with nothing lost and every request settled, in which that
      consumer is given the error meant for the stray frame. What the specification has for it
      is its own handler's reply, so it is served rightly only if that is this very error. */
  lemma EmptyRequestMispairs(env: Env, first: Request, second: Request, id1: U64, id2: U64) returns (steps: seq<Step>)
    requires Good(env) && AlwaysReturns(env.svc.handler) && env.capacity >= 2
    requires first.data == [] && first.info.id == Some(id1) && second.info.id == Some(id2)
    requires env.svc.codec.metaToBytes(MetaFor(env.svc.codec, first, id1)).Some?
    requires env.svc.codec.metaToBytes(MetaFor(env.svc.codec, second, id2)).Some?
    ensures IsRun(env, steps)
    ensures var s := Exec(env, steps);
      var svc := env.svc;
      var reply1 := RequestReply(svc, [], Some(OWN), id1, first);
      var reply2 := RequestReply(svc, Srv.CallOf(reply1), Some(OWN), id2, second);
      var stray := svc.codec.errorToBytes(MalformedMetaInfo);
      && !s.severed && s.accepted == [first, second]
      && s.client.outcomes == [Completed(reply1.message), Completed(stray)]
      && SimpleAll(svc, s.accepted).outcomes == [Completed(reply1.message), Completed(reply2.message)]
      && (s.client.outcomes == SimpleAll(svc, s.accepted).outcomes <==> reply2.message == stray)
  {
    hide Exec, IsRun, PerformAll, Dispatch, SimpleAll, Left;
    var begin := [Accept(first), Accept(second)];
    TwoAccepted(env, first, second);
    var more := RunCompletes(env, begin);
    steps := begin + more;
    AcceptedStays(env, begin, more);
    StaysUp(env, steps);
    EveryInterleavingIsSequential(env, steps);
    var s := Exec(env, steps);
    assert s.accepted[..|s.client.outcomes|] == [first, second];
    RepliesReturn(env.svc, [], id1, first);
    EmptyDataShiftsAnswers(env.svc, first, second, id1, id2);
    TwoSpecified(env.svc, first, second, id1, id2);
  }

  lemma RepliesReturn(svc: Service, calls: seq<Call>, id: U64, req: Request)
    requires AlwaysReturns(svc.handler)
    ensures var reply := RequestReply(svc, calls, Some(OWN), id, req);
      reply.returned == Some(OWN) && Next(svc, OPEN, reply).live
  {
    hide ServerRouter.Scan;
  }

  lemma TwoSpecified(svc: Service, first: Request, second: Request, id1: U64, id2: U64)
    requires AlwaysReturns(svc.handler) && first.info.id == Some(id1) && second.info.id == Some(id2)
    requires svc.codec.metaToBytes(MetaFor(svc.codec, first, id1)).Some?
    requires svc.codec.metaToBytes(MetaFor(svc.codec, second, id2)).Some?
    ensures var reply1 := RequestReply(svc, [], Some(OWN), id1, first);
      SimpleAll(svc, [first, second]).outcomes
      == [Completed(reply1.message), Completed(RequestReply(svc, Srv.CallOf(reply1), Some(OWN), id2, second).message)]
  {
    RepliesReturn(svc, [], id1, first);
    hide Dispatch;
    assert [first, second][..1] == [first] && [first][..0] == [];
    assert SimpleAll(svc, [first]) == Simple(svc, Record(Some(OWN), [], []), first);
  }

  /** And it happens: a server that sends data back is asked first with no data, then with some,
      and the second consumer does not get its data. */
  lemma MispairingHappens() returns (steps: seq<Step>)
    ensures IsRun(ToyEnv(), steps)
    ensures var s := Exec(ToyEnv(), steps);
      && !s.severed && |s.accepted| == |s.client.outcomes| == 2 && s.accepted[0].data == [] != s.accepted[1].data
      && SimpleAll(ToyService(), s.accepted).outcomes[1] == Completed(s.accepted[1].data)
      && s.client.outcomes[1] != Completed(s.accepted[1].data)
  {
    AssumptionsAreMet();
    var info := HandlerInfo(Some(0), None);
    var first, second := Request(info, [], 0), Request(info, [9], 0);
    steps := EmptyRequestMispairs(ToyEnv(), first, second, 0, 0);
    hide Exec, IsRun, Good, SimpleAll;
    EchoFound();
  }

  lemma EchoFound()
    ensures ServerRouter.Scan(ToyService().eq, ToyService().routes, ServerRouter.TypeTuple({0}, 0)) == Some(7)
  {
    assert 0 in {0 as SType} * {0 as SType};
    assert ServerRouter.Overlap(ServerRouter.TypeTuple({0}, 0), ToyService().routes[0].key);
  }

  // ----- A run in which a request reaches another's handler -----

  /** The desk of a server that is well and stays so. */
  predicate Well(d: Desk) {
    d.live && d.tx == Some(OWN) && !d.kept
  }

  lemma NextWell(svc: Service, d: Desk, reply: Reply)
    requires Well(d) && reply.returned == Some(OWN) && Arrived(reply).None?
    ensures Well(Next(svc, d, reply))
  {
  }

  /** A backlog with an empty cache, on a server that is well. */
  ghost predicate Stale(g: Option<Lag>, calls: seq<Call>, owed: Bytes, outcomes: seq<Outcome>) {
    && g.Some? && g.value.cache == map[] && Well(g.value.desk) && g.value.desk.calls == calls
    && g.value.owed == [owed] && g.value.outcomes == outcomes
  }

  /** After an empty request by id: its handler's reply is given, the error for the stray frame is
      owed. */
  lemma AfterEmpty(svc: Service, e: Request, id: U64)
    requires AlwaysReturns(svc.handler) && e.data == [] && e.info.id == Some(id)
    requires svc.codec.metaToBytes(MetaFor(svc.codec, e, id)).Some?
    ensures var reply := RequestReply(svc, [], Some(OWN), id, e);
      Stale(LagPerform(svc, NO_LAG, e), Srv.CallOf(reply), svc.codec.errorToBytes(MalformedMetaInfo),
            [Completed(reply.message)])
  {
    var reply := RequestReply(svc, [], Some(OWN), id, e);
    RepliesReturn(svc, [], id, e);
    hide Dispatch;
    NextWell(svc, OPEN, reply);
    NextWell(svc, Next(svc, OPEN, reply), ErrorReply(svc, MalformedMetaInfo, Some(OWN)));
    EmptyFirst(svc, e, id);
  }

  /** A request by a known name then reads that error, is dropped, and leaves its name's answer. */
  lemma AfterFirstName(svc: Service, g: Lag, calls: seq<Call>, outcomes: seq<Outcome>, a: Request, name: string)
    requires Lawful(svc.codec) && Stale(Some(g), calls, svc.codec.errorToBytes(MalformedMetaInfo), outcomes)
    requires Queries(svc, map[], a, name) && name in svc.names
    ensures Stale(LagPerform(svc, g, a), calls, svc.codec.answerToBytes(svc.names[name]),
                  outcomes + [Dropped(Router)])
  {
    var reply := AnswerName(svc, name, Some(OWN));
    NextWell(svc, g.desk, reply);
    assert (g.owed + [reply.message])[1..] == [reply.message];
  }

  /** And a request by another name reads that answer: it is sent to the wrong handler, the wrong
      id is kept, and its consumer is given the answer to its name. */
  lemma AfterSecondName(svc: Service, g: Lag, calls: seq<Call>, outcomes: seq<Outcome>, b: Request, name: string,
                        wrong: U64)
    requires Lawful(svc.codec) && Stale(Some(g), calls, svc.codec.answerToBytes(wrong), outcomes)
    requires Queries(svc, map[], b, name) && name in svc.names
    requires svc.codec.metaToBytes(MetaFor(svc.codec, b, wrong)).Some?
    ensures var p := LagPerform(svc, g, b);
      && p.Some? && p.value.cache == map[name := wrong]
      && p.value.desk.calls == calls + Srv.CallOf(RequestReply(svc, calls, Some(OWN), wrong, b))
      && p.value.outcomes == outcomes + [Completed(svc.codec.answerToBytes(svc.names[name]))]
  {
    hide Dispatch;
    var reply := AnswerName(svc, name, Some(OWN));
    NextWell(svc, g.desk, reply);
    var g1 := g.(desk := Next(svc, g.desk, reply), owed := [reply.message], cache := map[name := wrong]);
    assert (g.owed + [reply.message])[1..] == [reply.message];
    assert svc.codec.accessAnswer(svc.codec.answerToBytes(wrong)) == Some(wrong);
    assert LagRouted(svc, g, b) == LagReady(g1, wrong);
    hide LagRouted;
  }

  /** An empty request `e` by id, then requests `a` and `b` by names with different ids. */
  ghost predicate Unlucky(svc: Service, e: Request, a: Request, b: Request, id: U64, na: string, nb: string) {
    && e.data == [] && e.info.id == Some(id)
    && a.info == HandlerInfo(None, Some(na)) && b.info == HandlerInfo(None, Some(nb))
    && svc.codec.queryToBytes(na).Some? && svc.codec.queryToBytes(nb).Some?
    && na in svc.names && nb in svc.names && svc.names[na] != svc.names[nb]
    && svc.codec.metaToBytes(MetaFor(svc.codec, e, id)).Some?
    && svc.codec.metaToBytes(MetaFor(svc.codec, b, svc.names[na])).Some?
  }

  lemma NamesShift(svc: Service, e: Request, a: Request, b: Request, id: U64, na: string, nb: string)
    requires Usable(svc) && AlwaysReturns(svc.handler) && Unlucky(svc, e, a, b, id, na, nb)
    ensures var g := LagAll(svc, [e, a, b]);
      var first := RequestReply(svc, [], Some(OWN), id, e);
      && g.Some? && g.value.cache == map[nb := svc.names[na]]
      && g.value.desk.calls
         == Srv.CallOf(first) + Srv.CallOf(RequestReply(svc, Srv.CallOf(first), Some(OWN), svc.names[na], b))
      && g.value.outcomes == [Completed(first.message), Dropped(Router),
                              Completed(svc.codec.answerToBytes(svc.names[nb]))]
  {
    hide LagPerform, Dispatch, RequestReply, LagAll, Well;
    var first := RequestReply(svc, [], Some(OWN), id, e);
    AfterEmpty(svc, e, id);
    var g1 := LagPerform(svc, NO_LAG, e).value;
    var o1 := [Completed(first.message)];
    AfterFirstName(svc, g1, Srv.CallOf(first), o1, a, na);
    var g2 := LagPerform(svc, g1, a).value;
    var o2 := o1 + [Dropped(Router)];
    AfterSecondName(svc, g2, Srv.CallOf(first), o2, b, nb, svc.names[na]);
    ThreePerformed(svc, e, a, b, g1, g2);
  }

  lemma ThreePerformed(svc: Service, e: Request, a: Request, b: Request, g1: Lag, g2: Lag)
    requires LagPerform(svc, NO_LAG, e) == Some(g1) && LagPerform(svc, g1, a) == Some(g2)
    ensures LagAll(svc, [e, a, b]) == LagPerform(svc, g2, b)
  {
    hide LagPerform;
    assert [e, a, b][..2] == [e, a] && [e, a][..1] == [e] && [e][..0] == [];
    assert LagAll(svc, [e]) == Some(g1);
    assert LagAll(svc, [e, a]) == Some(g2);
  }

  lemma ThreeAccepted(env: Env, e: Request, a: Request, b: Request)
    requires env.capacity >= 3
    ensures var steps := [Accept(e), Accept(a), Accept(b)];
      IsRun(env, steps) && Exec(env, steps).accepted == [e, a, b]
  {
    TwoAccepted(env, e, a);
    var two := [Accept(e), Accept(a)];
    hide Exec, IsRun;
    OneMore(env, two, Accept(b));
    assert two + [Accept(b)] == [Accept(e), Accept(a), Accept(b)];
  }

  /** A server that is up can always finish what it was sent, the client doing nothing. */
  lemma {:induction false} ServerFinishes(env: Env, steps: seq<Step>) returns (more: seq<Step>)
    requires IsRun(env, steps) && AlwaysReturns(env.svc.handler) && LosesNone(steps)
    ensures IsRun(env, steps + more) && LosesNone(steps + more)
    ensures var (s, s') := (Exec(env, steps), Exec(env, steps + more));
      s'.client == s.client && s'.accepted == s.accepted && s'.up == [] && ServerReading(s')
    decreases Left(Exec(env, steps))
  {
    hide Exec, IsRun, Left, QueueOk;
    var s := Exec(env, steps);
    StaysUp(env, steps);
    QueueDiscipline(env, steps);
    if s.up == [] && ServerReading(s) {
      more := [];
      assert steps + more == steps;
    } else {
      var step := if s.server.phase.Serving? then ServerServe
                  else if s.server.phase.Responding? then ServerRespond(true) else ServerReceive;
      OneMore(env, steps, step);
      StepUses(env, s, step);
      hide Srv.Serve, Srv.RespondWith, Srv.Receive;
      var rest := ServerFinishes(env, steps + [step]);
      more := [step] + rest;
      assert steps + more == steps + [step] + rest;
    }
  }

  /** On any server with well-behaved handlers one empty request can make a wrong handler run:
      there is a run, with nothing lost, every request settled and the server at rest, in which
      the request by `na` is dropped, the id of `na` is cached for `nb`, the data of the request
      by `nb` has gone to the handler of `na`, and its consumer was given the answer to a name
      query. */
  lemma EmptyRequestMisroutes(env: Env, e: Request, a: Request, b: Request, id: U64, na: string, nb: string)
    returns (steps: seq<Step>)
    requires Good(env) && AlwaysReturns(env.svc.handler) && env.capacity >= 3
    requires Unlucky(env.svc, e, a, b, id, na, nb)
    ensures IsRun(env, steps)
    ensures var (s, svc) := (Exec(env, steps), env.svc);
      var first := RequestReply(svc, [], Some(OWN), id, e);
      && !s.severed && s.accepted == [e, a, b] && Quiet(s)
      && s.client.cache == map[nb := svc.names[na]] && svc.names[na] != svc.names[nb]
      && s.server.work.calls
         == Srv.CallOf(first) + Srv.CallOf(RequestReply(svc, Srv.CallOf(first), Some(OWN), svc.names[na], b))
      && s.client.outcomes == [Completed(first.message), Dropped(Router),
                               Completed(svc.codec.answerToBytes(svc.names[nb]))]
  {
    hide Exec, IsRun, PerformAll, LagAll, Dispatch, Left;
    var begin := [Accept(e), Accept(a), Accept(b)];
    ThreeAccepted(env, e, a, b);
    var more := RunCompletes(env, begin);
    AcceptedStays(env, begin, more);
    assert LosesNone(begin + more);
    StaysUp(env, begin + more);
    var rest := ServerFinishes(env, begin + more);
    steps := begin + more + rest;
    StaysUp(env, steps);
    var s := Exec(env, steps);
    var l, g := LedgerOf(env, steps);
    assert Done(s) == [e, a, b];
    NamesShift(env.svc, e, a, b, id, na, nb);
    assert s.accepted[|s.client.outcomes|..] == [];
    RestingState(env, s, l, g);
  }

  lemma RestingState(env: Env, s: Sys, l: Ledger, g: Lag)
    requires ServerInStep(env, s) && s.up == [] && s.client.phase == Idle && s.client.outbox == [] && !s.lost
    requires ServerReading(s) && Agree(env.svc, l, g) && ClientAt(env.svc, s.client, s.delivered, l)
    requires !s.server.phase.Ended?
    ensures s.server.work.calls == g.desk.calls && s.server.phase == Srv.AwaitMeta && s.client.cache == g.cache
  {
    hide ServerOn, ServerInStep;
    CaughtUp(env, s);
  }

  /** And it happens: the data of a request by the name "log" goes to the route of "echo". */
  lemma MisroutingHappens() returns (steps: seq<Step>)
    ensures IsRun(ToyEnv(), steps)
    ensures var s := Exec(ToyEnv(), steps);
      && !s.severed && |s.accepted| == 3 && s.accepted[2].info.named == Some("log") && s.accepted[2].data == [9]
      && |s.server.work.calls| == 2 && s.server.work.calls[1].payload == [9]
      && s.server.work.calls[1].route == 7 && s.client.cache == map["log" := 0]
  {
    hide Exec, IsRun, Good, Unlucky, ToyService, RequestReply, AlwaysReturns;
    AssumptionsAreMet();
    var e, a, b := Request(HandlerInfo(Some(0), None), [], 0), Request(HandlerInfo(None, Some("echo")), [9], 0),
                   Request(HandlerInfo(None, Some("log")), [9], 0);
    ToyIsUnlucky(e, a, b);
    steps := EmptyRequestMisroutes(ToyEnv(), e, a, b, 0, "echo", "log");
    ToyEchoes([], e);
    ToyEchoes(Srv.CallOf(RequestReply(ToyService(), [], Some(OWN), 0, e)), b);
  }

  lemma ToyIsUnlucky(e: Request, a: Request, b: Request)
    requires e == Request(HandlerInfo(Some(0), None), [], 0) && a.info == HandlerInfo(None, Some("echo"))
    requires b.info == HandlerInfo(None, Some("log")) && b.sType == 0
    ensures Unlucky(ToyService(), e, a, b, 0, "echo", "log")
    ensures ToyService().names["echo"] == 0
  {
  }

  lemma ToyEchoes(calls: seq<Call>, req: Request)
    requires req.sType == 0
    ensures var reply := RequestReply(ToyService(), calls, Some(OWN), 0, req);
      && reply.message == req.data
      && reply.call.Some? && reply.call.value.route == 7 && reply.call.value.payload == req.data
  {
    EchoFound();
    hide ServerRouter.Scan;
  }
}
