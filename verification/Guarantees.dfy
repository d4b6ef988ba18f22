/** What a client can rely on, in every run of client, lanes and server. */
module Guarantees {
  import opened Wire
  import opened TrafficLink
  import opened Stream
  import opened PacketService
  import opened ClientTask
  import opened Session
  import opened Interleaving
  import opened Pairing
  import Srv = Connection
  import ServerRouter

  /** A lawful serializer and processors that invert each other. */
  ghost predicate Good(env: Env) {
    Sound(env) && Lawful(env.svc.codec)
  }

  predicate HandedOver(s: Sys) {
    s.server.phase.Ended? && s.server.phase.how.HandedOff?
  }

  /** The requests finished in a state. */
  function Done(s: Sys): seq<Request>
    requires |s.client.outcomes| <= |s.accepted|
  {
    s.accepted[..|s.client.outcomes|]
  }

  /** The ledger and the backlog behind a state. */
  lemma LedgerOf(env: Env, steps: seq<Step>) returns (l: Ledger, g: Lag)
    requires Good(env) && IsRun(env, steps) && !Exec(env, steps).severed
    ensures var s := Exec(env, steps);
      && QueueOk(env, s) && ServerInStep(env, s) && ResponsesInStep(env, s)
      && PerformAll(env.svc, Done(s)) == Some(l) && LagAll(env.svc, Done(s)) == Some(g)
      && l.outcomes == s.client.outcomes && ClientAt(env.svc, s.client, s.delivered, l) && Agree(env.svc, l, g)
  {
    QueueDiscipline(env, steps);
    RunInStep(env, steps);
    var s := Exec(env, steps);
    BacklogIsExact(env.svc, Done(s));
    l, g := PerformAll(env.svc, Done(s)).value, LagAll(env.svc, Done(s)).value;
  }

  // ----- Consumer k and the answer to request k -----

  /** RPC refinement. In every interleaving, until the client runs into the end of the connection,
      each consumer before which no request without data was sent gets what the specification
      says of its request; and as long as none was sent at all, the cache says what the server's
      table says. */
  lemma RpcRefinement(env: Env, steps: seq<Step>)
    requires Good(env) && IsRun(env, steps) && !Exec(env, steps).severed
    ensures var s := Exec(env, steps);
      var o := s.client.outcomes;
      && |o| <= |s.accepted|
      && (forall k :: 0 <= k < |o| && Clean(s.accepted, o, k) ==>
                        o[k] == SimpleAll(env.svc, s.accepted[..k + 1]).outcomes[k])
      && (Clean(s.accepted, o, |o|) ==> Coherent(env.svc, s.client.cache))
  {
    hide Exec, IsRun, LagAll, PerformAll, SimpleAll, ServerInStep, ResponsesInStep, Agree;
    var l, g := LedgerOf(env, steps);
    var s := Exec(env, steps);
    var o := s.client.outcomes;
    forall k | 0 <= k < |o| && Clean(s.accepted, o, k)
      ensures o[k] == SimpleAll(env.svc, s.accepted[..k + 1]).outcomes[k]
    {
      CleanDone(s.accepted, o, k);
      NextIsSpecified(env.svc, Done(s), k);
      assert Done(s)[..k + 1] == s.accepted[..k + 1];
    }
    if Clean(s.accepted, o, |o|) {
      CleanDone(s.accepted, o, |o|);
      CacheIsCoherent(env, s, l, g);
    }
  }

  lemma CleanDone(reqs: seq<Request>, outcomes: seq<Outcome>, k: nat)
    requires |outcomes| <= |reqs|
    ensures Clean(reqs, outcomes, k) <==> Clean(reqs[..|outcomes|], outcomes, k)
  {
    assert forall j :: 0 <= j < |outcomes| ==> reqs[j] == reqs[..|outcomes|][j];
  }

  lemma CacheIsCoherent(env: Env, s: Sys, l: Ledger, g: Lag)
    requires Good(env) && |s.client.outcomes| <= |s.accepted| && Clean(Done(s), s.client.outcomes, |s.client.outcomes|)
    requires LagAll(env.svc, Done(s)) == Some(g) && Agree(env.svc, l, g) && l.outcomes == s.client.outcomes
    requires ClientAt(env.svc, s.client, s.delivered, l)
    ensures Coherent(env.svc, s.client.cache)
  {
    hide LagAll, SimpleAll, ServerOn, Simple, Mirrors;
    NoBacklog(env.svc, Done(s));
    if s.client.phase.AwaitAnswer? {
      RoutedAgrees(env.svc, l, g, s.client.phase.req);
      RoutedExact(env.svc, g, SimpleAll(env.svc, Done(s)), s.client.phase.req);
      hide Routed, LagRouted;
    }
  }

  /** Where the client stood in the answers when it sent request k: it had been given
      `l.given` of them, the server was to give `|ResponsesTo(svc, l.emitted)|` to all that had
      been emitted before the request's own frames, so it is handed the answer to its own packet
      if these are the same, and one to something earlier otherwise. */
  ghost predicate HandedOwnAnswer(svc: Service, l: Ledger) {
    l.given == |ResponsesTo(svc, l.emitted)|
  }

  /** Exact pairing, for all data. In every interleaving, until the client runs into the end of
      the connection, a consumer that is handed something is handed the answer to its own packet
      if and only if every request completed before its own had data; otherwise it is handed an
      answer to something sent earlier. */
  lemma OwnAnswerIff(env: Env, steps: seq<Step>, k: nat) returns (l: Ledger, id: U64)
    requires Good(env) && IsRun(env, steps) && !Exec(env, steps).severed
    requires k < |Exec(env, steps).client.outcomes| && Exec(env, steps).client.outcomes[k].Completed?
    ensures var s := Exec(env, steps);
      && k < |s.accepted|
      && PerformAll(env.svc, s.accepted[..k]).Some?
      && Routed(env.svc, PerformAll(env.svc, s.accepted[..k]).value, s.accepted[k]) == Ready(l, id)
      && env.svc.codec.metaToBytes(MetaFor(env.svc.codec, s.accepted[k], id)).Some?
    ensures var s := Exec(env, steps);
      var meta := env.svc.codec.metaToBytes(MetaFor(env.svc.codec, s.accepted[k], id)).value;
      var answers := ResponsesTo(env.svc, l.emitted + [meta, s.accepted[k].data]);
      && l.given < |answers| && s.client.outcomes[k] == Completed(answers[l.given])
      && l.given <= |ResponsesTo(env.svc, l.emitted)|
      && (HandedOwnAnswer(env.svc, l) <==> Clean(s.accepted, s.client.outcomes, k))
      && (!Clean(s.accepted, s.client.outcomes, k) ==>
            s.client.outcomes[k] == Completed(ResponsesTo(env.svc, l.emitted)[l.given]))
  {
    hide Exec, IsRun, ServerInStep, ResponsesInStep, ClientAt, ServerOn, PerformAll, Agree, Routed, Clean;
    var s := Exec(env, steps);
    var _, _ := LedgerOf(env, steps);
    var reqs := Done(s);
    assert reqs[..k] == s.accepted[..k] && reqs[k] == s.accepted[k];
    l, id := CompletedWith(env.svc, reqs, k);
    CleanDone(s.accepted, s.client.outcomes, k);
  }

  /** The same of requests performed one after the other. */
  lemma CompletedWith(svc: Service, reqs: seq<Request>, k: nat) returns (l: Ledger, id: U64)
    requires Usable(svc) && PerformAll(svc, reqs).Some? && k < |reqs|
    requires k < |PerformAll(svc, reqs).value.outcomes| && PerformAll(svc, reqs).value.outcomes[k].Completed?
    ensures PerformAll(svc, reqs[..k]).Some?
    ensures Routed(svc, PerformAll(svc, reqs[..k]).value, reqs[k]) == Ready(l, id)
    ensures svc.codec.metaToBytes(MetaFor(svc.codec, reqs[k], id)).Some?
    ensures var o := PerformAll(svc, reqs).value.outcomes;
      var meta := svc.codec.metaToBytes(MetaFor(svc.codec, reqs[k], id)).value;
      var answers := ResponsesTo(svc, l.emitted + [meta, reqs[k].data]);
      && l.given < |answers| && o[k] == Completed(answers[l.given])
      && l.given <= |ResponsesTo(svc, l.emitted)|
      && (HandedOwnAnswer(svc, l) <==> Clean(reqs, o, k))
      && (!Clean(reqs, o, k) ==> o[k] == Completed(ResponsesTo(svc, l.emitted)[l.given]))
  {
    hide ServerOn;
    PerformPrefix(svc, reqs, k);
    PerformPrefix(svc, reqs, k + 1);
    assert reqs[..k + 1][..k] == reqs[..k];
    var before := PerformAll(svc, reqs[..k]).value;
    PerformedAsReady(svc, before, reqs[k]);
    var r := Routed(svc, before, reqs[k]);
    l, id := r.ledger, r.id;
    AnsweredIff(svc, reqs[..k], reqs[k]);
    hide PerformAll, Routed, Exchanged, Clean;
    CleanPrefix(reqs, PerformAll(svc, reqs).value.outcomes, k);
    var meta := svc.codec.metaToBytes(MetaFor(svc.codec, reqs[k], id)).value;
    MoreFramesMoreResponses(svc, l.emitted, [meta, reqs[k].data]);
  }

  lemma CleanPrefix(reqs: seq<Request>, outcomes: seq<Outcome>, k: nat)
    requires k <= |outcomes| == |reqs|
    ensures Clean(reqs, outcomes, k) <==> Clean(reqs[..k], outcomes[..k], k)
  {
    assert forall j :: 0 <= j < k ==> reqs[j] == reqs[..k][j] && outcomes[j] == outcomes[..k][j];
  }

  /** A completed request was routed and sent, and was handed the next response. */
  lemma PerformedAsReady(svc: Service, l: Ledger, req: Request)
    requires var p := Perform(svc, l, req);
      p.Some? && |p.value.outcomes| == |l.outcomes| + 1 && p.value.outcomes[|l.outcomes|].Completed?
    ensures var r := Routed(svc, l, req);
      && r.Ready? && svc.codec.metaToBytes(MetaFor(svc.codec, req, r.id)).Some?
      && var meta := svc.codec.metaToBytes(MetaFor(svc.codec, req, r.id)).value;
      var answers := ResponsesTo(svc, r.ledger.emitted + [meta, req.data]);
      && r.ledger.given < |answers|
      && Perform(svc, l, req).value.outcomes[|l.outcomes|] == Completed(answers[r.ledger.given])
  {
    RoutedSettles(svc, l, req);
    hide Routed, ResponsesTo;
  }

  lemma AnsweredIff(svc: Service, reqs: seq<Request>, req: Request)
    requires Usable(svc) && PerformAll(svc, reqs).Some?
    requires var r := Routed(svc, PerformAll(svc, reqs).value, req);
      && r.Ready? && Exchanged(svc, r.ledger, req, r.id).Some?
      && svc.codec.metaToBytes(MetaFor(svc.codec, req, r.id)).Some?
    ensures var l := PerformAll(svc, reqs).value;
      var l' := Routed(svc, l, req).ledger;
      && l'.given <= |ResponsesTo(svc, l'.emitted)|
      && (HandedOwnAnswer(svc, l') <==> Clean(reqs, l.outcomes, |reqs|))
  {
    BacklogIsExact(svc, reqs);
    var l, g := PerformAll(svc, reqs).value, LagAll(svc, reqs).value;
    var r := Routed(svc, l, req);
    RoutedAgrees(svc, l, g, req);
    var r' := LagRouted(svc, g, req);
    ExchangedAgrees(svc, r.ledger, r'.lag, req, r.id);
    NothingOwedIff(svc, reqs, req);
    hide PerformAll, LagAll, Routed, LagRouted, Exchanged, LagExchanged, ServerOn, Mirrors;
    assert |ResponsesTo(svc, r.ledger.emitted)[r.ledger.given..]| == |r'.lag.owed|;
  }

  // ----- Names and the answers to them -----

  ghost predicate Keeps(cache: map<string, U64>, cache': map<string, U64>) {
    forall n :: n in cache ==> n in cache' && cache'[n] == cache[n]
  }

  lemma RoutedKeepsCache(svc: Service, l: Ledger, req: Request)
    ensures !Routed(svc, l, req).NoAnswer? ==> Keeps(l.cache, Routed(svc, l, req).ledger.cache)
  {
    hide ResponsesTo;
  }

  lemma PerformKeepsCache(svc: Service, l: Ledger, req: Request)
    ensures Perform(svc, l, req).Some? ==>
              && !Routed(svc, l, req).NoAnswer?
              && Perform(svc, l, req).value.cache == Routed(svc, l, req).ledger.cache
  {
    hide Routed, ResponsesTo;
  }

  /** What is in the cache stays there, unchanged. */
  lemma {:induction false} CacheStays(svc: Service, reqs: seq<Request>, k: nat)
    requires k <= |reqs| && PerformAll(svc, reqs).Some?
    ensures PerformAll(svc, reqs[..k]).Some?
    ensures Keeps(PerformAll(svc, reqs[..k]).value.cache, PerformAll(svc, reqs).value.cache)
  {
    if k == |reqs| {
      assert reqs[..k] == reqs;
    } else {
      var n := |reqs| - 1;
      hide Perform, Routed;
      CacheStays(svc, reqs[..n], k);
      assert reqs[..n][..k] == reqs[..k];
      RoutedKeepsCache(svc, PerformAll(svc, reqs[..n]).value, reqs[n]);
      PerformKeepsCache(svc, PerformAll(svc, reqs[..n]).value, reqs[n]);
    }
  }

  /** What the server answers to all that was emitted and a query for `name` besides. */
  function AnswersTo(svc: Service, l: Ledger, name: string): seq<Bytes>
    requires svc.codec.queryToBytes(name).Some?
  {
    ResponsesTo(svc, l.emitted + [svc.codec.queryToBytes(name).value])
  }

  /** The response that the client reads after a query for `name`; [] if there is none. */
  function Pending(svc: Service, l: Ledger, name: string): Bytes
    requires svc.codec.queryToBytes(name).Some?
  {
    if l.given < |AnswersTo(svc, l, name)| then AnswersTo(svc, l, name)[l.given] else []
  }

  /** An answered query makes the client read the next response, whatever it is. */
  lemma QueryReads(svc: Service, l: Ledger, req: Request, name: string)
    requires Queries(svc, l.cache, req, name) && !Routed(svc, l, req).NoAnswer?
    ensures l.given < |AnswersTo(svc, l, name)|
    ensures var (r, id) := (Routed(svc, l, req), svc.codec.accessAnswer(AnswersTo(svc, l, name)[l.given]));
      && (id.None? ==> r.Refused? && r.ledger.outcomes == l.outcomes + [Dropped(Router)])
      && (id.Some? ==> r.Ready? && r.id == id.value && r.ledger.cache == l.cache[name := id.value])
  {
    hide ResponsesTo;
  }

  lemma QueryAnswered(svc: Service, l: Ledger, g: Lag, name: string)
    requires Usable(svc) && Agree(svc, l, g) && svc.codec.queryToBytes(name).Some? && g.owed == [] && g.desk.live
    ensures l.given == |ResponsesTo(svc, l.emitted)|
    ensures var q := svc.codec.queryToBytes(name).value;
      AnswersTo(svc, l, name)
      == ResponsesTo(svc, l.emitted) + [ServePacket(svc, |g.desk.calls|, q, [], g.desk.tx).message]
  {
    var q := svc.codec.queryToBytes(name).value;
    var s := ServerOn(svc, l.emitted);
    hide ServerOn, Hearing, ServePacket;
    assert |s.work.responses[l.given..]| == 0;
    assert !Srv.WantsPayload(svc.codec, q);
    hide Lawful, Mirrors;
    ServerOnOne(svc, l.emitted, q);
    HearAlone(svc, s, g.desk, q);
  }

  /** If nothing was owed, that is the answer to the query. */
  lemma QueryReadsOwn(svc: Service, l: Ledger, g: Lag, name: string)
    requires Usable(svc) && Agree(svc, l, g) && svc.codec.queryToBytes(name).Some? && g.owed == [] && g.desk.live
    ensures l.given < |AnswersTo(svc, l, name)|
    ensures svc.codec.accessAnswer(AnswersTo(svc, l, name)[l.given])
         == if name in svc.names then Some(svc.names[name]) else None
  {
    hide ServePacket, Agree, AnswersTo, ResponsesTo, Lawful;
    QueryAnswered(svc, l, g, name);
    QueryReply(svc, |g.desk.calls|, svc.codec.queryToBytes(name).value, [], g.desk.tx, name);
  }

  lemma QueryOwnIff(svc: Service, reqs: seq<Request>, req: Request, name: string)
    requires Usable(svc) && PerformAll(svc, reqs).Some?
    requires var l := PerformAll(svc, reqs).value;
      Queries(svc, l.cache, req, name) && !Routed(svc, l, req).NoAnswer?
    ensures var l := PerformAll(svc, reqs).value;
      var read := Pending(svc, l, name);
      && l.given <= |ResponsesTo(svc, l.emitted)|
      && (HandedOwnAnswer(svc, l) <==> Clean(reqs, l.outcomes, |reqs|))
      && (HandedOwnAnswer(svc, l) ==>
            svc.codec.accessAnswer(read) == if name in svc.names then Some(svc.names[name]) else None)
      && (!HandedOwnAnswer(svc, l) ==> read == ResponsesTo(svc, l.emitted)[l.given])
  {
    BacklogIsExact(svc, reqs);
    var l, g := PerformAll(svc, reqs).value, LagAll(svc, reqs).value;
    RoutedAgrees(svc, l, g, req);
    NothingOwedAtQueryIff(svc, reqs, req, name);
    QueryReads(svc, l, req, name);
    hide PerformAll, LagAll, Routed, LagRouted, ServerOn, Mirrors, Clean;
    assert |ResponsesTo(svc, l.emitted)[l.given..]| == |g.owed|;
    if g.owed == [] { QueryReadsOwn(svc, l, g, name); }
    MoreFramesMoreResponses(svc, l.emitted, [svc.codec.queryToBytes(name).value]);
  }

  /** Exact pairing of names, for all data. In every interleaving, until the client runs into the
      end of the connection: a query that request k gave rise to and that was answered was
      answered by the server's answer to it if and only if every request completed before had
      data, and then says what the server's table says; otherwise the client took an answer to
      something sent earlier for it. Whatever it took, if it decodes as an id, is in the cache
      for good, and if not, the request was dropped. */
  lemma OwnNameAnswerIff(env: Env, steps: seq<Step>, k: nat, name: string) returns (l: Ledger)
    requires Good(env) && IsRun(env, steps) && !Exec(env, steps).severed
    requires var c := Exec(env, steps).client; k < |c.outcomes| || (k == |c.outcomes| && c.phase.AwaitAnswer?)
    ensures k < |Exec(env, steps).accepted|
    ensures PerformAll(env.svc, Exec(env, steps).accepted[..k]) == Some(l)
    ensures var (s, svc) := (Exec(env, steps), env.svc);
      Queries(svc, l.cache, s.accepted[k], name) ==>
        var (read, own) := (Pending(svc, l, name), HandedOwnAnswer(svc, l));
        && l.given < |AnswersTo(svc, l, name)| && l.given <= |ResponsesTo(svc, l.emitted)|
        && (own <==> Clean(s.accepted, s.client.outcomes, k))
        && (own ==> svc.codec.accessAnswer(read) == if name in svc.names then Some(svc.names[name]) else None)
        && (!own ==> read == ResponsesTo(svc, l.emitted)[l.given])
        && (match svc.codec.accessAnswer(read)
            case Some(id) => name in s.client.cache && s.client.cache[name] == id
            case None => k < |s.client.outcomes| && s.client.outcomes[k] == Dropped(Router))
  {
    hide Exec, IsRun, ServerInStep, ResponsesInStep, PerformAll, Agree, Routed, ResponsesTo, Pending;
    var (s, svc) := (Exec(env, steps), env.svc);
    var now, _ := LedgerOf(env, steps);
    var (reqs, o) := (Done(s), s.client.outcomes);
    assert s.accepted[|o|..] == Current(s.client.phase) + s.client.queue;
    PerformPrefix(svc, reqs, k);
    assert reqs[..k] == s.accepted[..k];
    l := PerformAll(svc, s.accepted[..k]).value;
    if Queries(svc, l.cache, s.accepted[k], name) {
      TakenIsRouted(env, s, now, k);
      QueryOwnIff(svc, s.accepted[..k], s.accepted[k], name);
      QueryReads(svc, l, s.accepted[k], name);
      CleanDone(s.accepted, o, k);
      CleanPrefix(reqs, o, k);
      PendingIsNext(svc, l, name);
    }
  }

  lemma PendingIsNext(svc: Service, l: Ledger, name: string)
    requires svc.codec.queryToBytes(name).Some? && l.given < |AnswersTo(svc, l, name)|
    ensures Pending(svc, l, name) == AnswersTo(svc, l, name)[l.given]
  {
  }

  /** A request that is settled, or whose frames are out, was routed; what routing put in the
      cache is there, and what it refused is settled as it said. */
  lemma TakenIsRouted(env: Env, s: Sys, now: Ledger, k: nat)
    requires |s.client.outcomes| <= |s.accepted| && k < |s.accepted|
    requires k < |s.client.outcomes| || (k == |s.client.outcomes| && s.client.phase.AwaitAnswer?)
    requires k == |s.client.outcomes| ==> s.client.phase.req == s.accepted[k]
    requires PerformAll(env.svc, Done(s)) == Some(now) && now.outcomes == s.client.outcomes
    requires ClientAt(env.svc, s.client, s.delivered, now)
    ensures PerformAll(env.svc, s.accepted[..k]).Some?
    ensures var r := Routed(env.svc, PerformAll(env.svc, s.accepted[..k]).value, s.accepted[k]);
      && !r.NoAnswer?
      && (r.Ready? ==> Keeps(r.ledger.cache, s.client.cache))
      && (r.Refused? ==> k < |s.client.outcomes| && |r.ledger.outcomes| == k + 1
                         && r.ledger.outcomes[k] == s.client.outcomes[k])
  {
    var reqs := Done(s);
    assert reqs[..k] == s.accepted[..k];
    NowKeeps(env.svc, s.client, s.delivered, now);
    if k < |reqs| {
      hide Routed, ClientAt, PerformAll;
      SettledIsRouted(env.svc, reqs, k);
    } else {
      assert reqs[..k] == reqs;
      hide Routed, PerformAll;
    }
  }

  lemma SettledIsRouted(svc: Service, reqs: seq<Request>, k: nat)
    requires PerformAll(svc, reqs).Some? && k < |reqs|
    ensures PerformAll(svc, reqs[..k]).Some? && |PerformAll(svc, reqs).value.outcomes| == |reqs|
    ensures var (r, all) := (Routed(svc, PerformAll(svc, reqs[..k]).value, reqs[k]), PerformAll(svc, reqs).value);
      && !r.NoAnswer?
      && (r.Ready? ==> Keeps(r.ledger.cache, all.cache))
      && (r.Refused? ==> |r.ledger.outcomes| == k + 1 && r.ledger.outcomes[k] == all.outcomes[k])
  {
    hide Routed, Exchanged;
    PerformPrefix(svc, reqs, k);
    PerformPrefix(svc, reqs, k + 1);
    CacheStays(svc, reqs, k + 1);
    assert reqs[..k + 1][..k] == reqs[..k];
    PerformKeepsCache(svc, PerformAll(svc, reqs[..k]).value, reqs[k]);
  }

  lemma NowKeeps(svc: Service, c: Client, given: nat, l: Ledger)
    requires ClientAt(svc, c, given, l)
    ensures Keeps(l.cache, c.cache)
  {
    if c.phase.AwaitAnswer? { RoutedKeepsCache(svc, l, c.phase.req); }
    hide Routed;
  }

  // ----- Handler calls and the specification -----

  lemma {:induction false} NoResponseNoCall(svc: Service, frames: seq<Bytes>, more: seq<Bytes>)
    requires ResponsesTo(svc, frames + more) == ResponsesTo(svc, frames)
    ensures ServerOn(svc, frames + more).work.calls == ServerOn(svc, frames).work.calls
  {
    if more == [] {
      assert frames + more == frames;
    } else {
      var front, last := more[..|more| - 1], more[|more| - 1];
      assert frames + more == frames + front + [last];
      hide Hearing;
      ServerOnOne(svc, frames + front, last);
      MoreFramesMoreResponses(svc, frames, front);
      HearingOnlyAdds(svc, ServerOn(svc, frames + front), last);
      HearingCalls(svc, ServerOn(svc, frames + front), last);
      NoResponseNoCall(svc, frames, front);
    }
  }

  lemma HearingCalls(svc: Service, s: Srv.Server, b: Bytes)
    ensures Hearing(svc, s, b).work.responses == s.work.responses ==> Hearing(svc, s, b).work.calls == s.work.calls
  {
  }

  /** The server has written all it will write, so it has made all the calls. */
  lemma AllCallsMade(env: Env, s: Sys)
    requires ServerInStep(env, s) && s.server.work.responses == ResponsesTo(env.svc, s.client.emitted)
    ensures s.server.work.calls == ServerOn(env.svc, s.client.emitted).work.calls
  {
    hide Srv.Settle, ServerOn, FramesInStep;
    assert s.consumed <= |s.client.emitted| by { FramesInRange(env, s); }
    var e, n := s.client.emitted, s.consumed;
    assert e[..n] + e[n..] == e;
    MoreFramesMoreResponses(env.svc, e[..n], e[n..]);
    ServedResponses(env.svc, s.server, e[..n]);
    Unsettled(env.svc, s.server);
    NoResponseNoCall(env.svc, e[..n], e[n..]);
  }

  lemma FramesInRange(env: Env, s: Sys)
    requires FramesInStep(env, s)
    ensures s.consumed + |s.up| + |s.client.outbox| <= |s.client.emitted|
  {
    if !s.lost {
      InFlightLength(env.up, s.serverRx, s.up + s.client.outbox, s.client.emitted[s.consumed..], s.client.tx);
    }
  }

  lemma ResponsesInRange(env: Env, s: Sys)
    requires ResponsesInStep(env, s)
    ensures s.delivered + |s.down| <= |s.server.work.responses|
    ensures !s.lost ==> s.delivered + |s.down| == |s.server.work.responses|
  {
    if !s.lost {
      InFlightLength(env.down, s.client.rx, s.down, s.server.work.responses[s.delivered..], s.serverTx);
    }
  }

  lemma Unsettled(svc: Service, s: Srv.Server)
    ensures Srv.Settle(svc, s).work.responses == s.work.responses ==> Srv.Settle(svc, s) == s
  {
  }

  /** Between requests, if none without data was sent, the handler calls made are those of the
      specification: one for each routed request, in order. */
  lemma HandlersCalledOnce(env: Env, steps: seq<Step>)
    requires Good(env) && IsRun(env, steps) && !Exec(env, steps).severed && Exec(env, steps).client.phase == Idle
    requires var s := Exec(env, steps); Clean(s.accepted, s.client.outcomes, |s.client.outcomes|)
    ensures var s := Exec(env, steps);
      && |s.client.outcomes| <= |s.accepted|
      && s.server.work.calls == SimpleAll(env.svc, Done(s)).calls
  {
    hide Exec, IsRun, LagAll, PerformAll, SimpleAll, ServerOn, ServerInStep, InFlight, Coming;
    var l, g := LedgerOf(env, steps);
    var s := Exec(env, steps);
    CleanDone(s.accepted, s.client.outcomes, |s.client.outcomes|);
    NoBacklog(env.svc, Done(s));
    ResponsesAgree(env, s);
    var r := ResponsesTo(env.svc, s.client.emitted);
    assert |r[l.given..]| == 0;
    assert s.server.work.responses == r;
    AllCallsMade(env, s);
  }

  /** Both actors are idle and the server has read everything, on a connection that is up. */
  predicate Quiet(s: Sys) {
    s.client.phase == Idle && s.up == [] && s.server.phase == Srv.AwaitMeta && !s.lost
  }

  /** A server that is reading and has nothing to read has done all that was asked. */
  lemma CaughtUp(env: Env, s: Sys)
    requires ServerInStep(env, s) && s.up == [] && s.client.outbox == [] && !s.lost && ServerReading(s)
    ensures s.server == ServerOn(env.svc, s.client.emitted)
  {
    hide ServerOn, InFlight, Srv.Settle;
    ReadingServer(env.svc, s.server, []);
    InFlightLength(env.up, s.serverRx, s.up + s.client.outbox, s.client.emitted[s.consumed..], s.client.tx);
    assert s.client.emitted[..s.consumed] == s.client.emitted;
  }

  /** Exact drift. Whatever the data, when both sides are quiet the responses the client has not
      read are as many as the requests completed without data. */
  lemma ExactDrift(env: Env, steps: seq<Step>)
    requires Good(env) && IsRun(env, steps) && Quiet(Exec(env, steps))
    ensures var s := Exec(env, steps);
      && |s.client.outcomes| <= |s.accepted|
      && |s.down| == EmptySent(Done(s), s.client.outcomes)
      && (s.down == [] <==> Clean(s.accepted, s.client.outcomes, |s.client.outcomes|))
  {
    hide Exec, IsRun, LagAll, PerformAll, ServerOn, FramesInStep, InFlight, Coming;
    QueueDiscipline(env, steps);
    var l, g := LedgerOf(env, steps);
    var s := Exec(env, steps);
    CaughtUp(env, s);
    Drift(env.svc, Done(s));
    PerformPrefix(env.svc, Done(s), 0);
    NoneEmptyIff(Done(s), s.client.outcomes);
    CleanDone(s.accepted, s.client.outcomes, |s.client.outcomes|);
    ResponsesInRange(env, s);
  }

  // ----- No consumer is ever given another's answer -----

  /** The server cannot have answered more than the frames it may have read. */
  lemma FewResponses(env: Env, s: Sys, base: seq<Bytes>)
    requires ServerInStep(env, s) && base <= s.client.emitted && s.consumed <= |base|
    ensures |s.server.work.responses| <= |ResponsesTo(env.svc, base)|
  {
    hide HasServed, ServerOn, InFlight, Coming;
    ServedResponses(env.svc, s.server, s.client.emitted[..s.consumed]);
    assert s.client.emitted[..s.consumed] == base[..s.consumed];
    MoreFramesMoreResponses(env.svc, base[..s.consumed], base[s.consumed..]);
    assert base[..s.consumed] + base[s.consumed..] == base;
  }

  /** A header that announces a payload is not answered by itself. */
  lemma HeaderAlone(svc: Service, s: Srv.Server, meta: Bytes)
    requires (s.phase.AwaitMeta? || s.phase.Ended?) && Srv.WantsPayload(svc.codec, meta)
    ensures Hearing(svc, s, meta).work.responses == s.work.responses
  {
  }

  /** While the client still has frames to write, nothing is on its way to it, if nothing was owed
      when it took the request and the request has data or is still being routed. */
  lemma UnsentMeansUnanswered(env: Env, s: Sys, l: Ledger, g: Lag)
    requires Good(env) && ServerInStep(env, s) && ResponsesInStep(env, s)
    requires Agree(env.svc, l, g) && Coherent(env.svc, g.cache) && g.owed == []
    requires ClientAt(env.svc, s.client, s.delivered, l)
    requires s.client.outbox != [] && s.client.phase != Idle
    requires s.client.phase.AwaitAnswer? ==> s.client.phase.req.data != []
    ensures s.down == []
  {
    hide ServerOn, InFlight, Coming, HasServed;
    var svc, c := env.svc, s.client;
    FramesInRange(env, s);
    ResponsesInRange(env, s);
    match c.phase
    case AwaitName(req, name) =>
      assert |ResponsesTo(svc, l.emitted)[l.given..]| == 0;
      hide ResponsesTo;
      FewResponses(env, s, l.emitted);
    case AwaitAnswer(req) =>
      var r := Routed(svc, l, req);
      var base := r.ledger;
      RoutedAgrees(svc, l, g, req);
      RoutedExact(svc, g, Record(g.desk.tx, g.desk.calls, g.outcomes), req);
      hide Routed, LagRouted;
      var m := svc.codec.metaToBytes(MetaFor(svc.codec, req, r.id)).value;
      assert svc.codec.accessMeta(m) == Some(MetaFor(svc.codec, req, r.id));
      assert |ResponsesTo(svc, base.emitted)[base.given..]| == 0;
      ServerOnOne(svc, base.emitted, m);
      HeaderAlone(svc, ServerOn(svc, base.emitted), m);
      hide ResponsesTo, Hearing;
      assert base.emitted + [m] <= c.emitted;
      FewResponses(env, s, base.emitted + [m]);
  }

  /** Every consumer that was given something, with no request without data sent before its own,
      was given the specified answer to its own request. */
  ghost predicate Rightly(svc: Service, reqs: seq<Request>, outcomes: seq<Outcome>) {
    && |outcomes| <= |reqs|
    && forall k :: 0 <= k < |outcomes| && outcomes[k].Completed? && Clean(reqs, outcomes, k) ==>
                     outcomes[k] == SimpleAll(svc, reqs[..k + 1]).outcomes[k]
  }

  /** No request without data has been sent. */
  ghost predicate AllClean(s: Sys) {
    Clean(s.accepted, s.client.outcomes, |s.client.outcomes|)
  }

  /** What is kept past the end of the connection. */
  ghost predicate Trusty(env: Env, s: Sys) {
    && Rightly(env.svc, s.accepted, s.client.outcomes)
    && (AllClean(s) ==> Coherent(env.svc, s.client.cache) && (s.severed ==> s.down == []))
  }

  /** One outcome more, a drop or one that nothing is said of, or none. */
  ghost predicate Extends(o: seq<Outcome>, o': seq<Outcome>) {
    o' == o || (|o'| == |o| + 1 && o'[..|o|] == o)
  }

  /** Outcomes and cache after a step. Only a frame read settles a request other than by dropping
      it, or changes the cache. */
  ghost predicate StepsTo(c: Client, c': Client, read: bool) {
    && Extends(c.outcomes, c'.outcomes)
    && (!read ==> c'.cache == c.cache && (c'.outcomes != c.outcomes ==> c'.outcomes[|c.outcomes|].Dropped?))
  }

  lemma StepSettles(env: Env, s: Sys, step: Step)
    requires Enabled(env, s, step)
    ensures var s' := Apply(env, s, step);
      StepsTo(s.client, s'.client, step.ClientReceive? || step.ClientStray?) && s.accepted <= s'.accepted
  {
    hide Take, Got, Srv.Receive, Srv.Serve, Srv.RespondWith;
    match step
    case ClientTake => TakeSettles(Ep(env), s.client);
    case ClientReceive => GotSettles(Ep(env), s.client, Frame(s.down[0]));
    case ClientCut(ev) => GotSettles(Ep(env), s.client, ev);
    case ClientStray(w) => GotSettles(Ep(env), s.client, Frame(w));
    case _ =>
  }

  lemma TakeSettles(ep: Endpoint, c: Client)
    requires c.phase == Idle && c.queue != []
    ensures StepsTo(c, Take(ep, c), false)
  {
    hide EncodeAll, TxAfter;
  }

  lemma GotSettles(ep: Endpoint, c: Client, ev: Inbound)
    requires c.phase != Idle
    ensures StepsTo(c, Got(ep, c, ev), ev.Frame?)
  {
    hide EncodeAll, TxAfter;
  }

  lemma CleanBefore(reqs: seq<Request>, o: seq<Outcome>, reqs': seq<Request>, o': seq<Outcome>, k: nat)
    requires reqs <= reqs' && Extends(o, o') && k <= |o| <= |reqs|
    ensures Clean(reqs', o', k) <==> Clean(reqs, o, k)
    ensures forall n: nat :: k <= n && Clean(reqs', o', n) ==> Clean(reqs, o, k)
  {
    assert forall j :: 0 <= j < k ==> o'[j] == o[j] && reqs'[j] == reqs[j];
  }

  /** A drop keeps what was rightly given, and so does anything once an empty request was sent. */
  lemma ExtendsRightly(svc: Service, reqs: seq<Request>, o: seq<Outcome>, reqs': seq<Request>, o': seq<Outcome>)
    requires Rightly(svc, reqs, o) && Extends(o, o') && reqs <= reqs' && |o'| <= |reqs'|
    requires o' != o ==> o'[|o|].Dropped? || !Clean(reqs, o, |o|)
    ensures Rightly(svc, reqs', o')
  {
    forall k | 0 <= k < |o'| && o'[k].Completed? && Clean(reqs', o', k)
      ensures o'[k] == SimpleAll(svc, reqs'[..k + 1]).outcomes[k]
    {
      CleanBefore(reqs, o, reqs', o', if k < |o| then k else |o|);
      assert o'[k] == o[k];
      assert reqs'[..k + 1] == reqs[..k + 1];
    }
  }

  /** Once the connection is down it stays down and brings nothing new; and the client finds out
      only by a failed write, an end of the stream, or a stray frame. */
  lemma DownStaysDown(env: Env, s: Sys, step: Step)
    requires Enabled(env, s, step)
    ensures var s' := Apply(env, s, step);
      && (Down(s) ==> Down(s') && |s'.down| <= |s.down|)
      && (HandedOver(s) ==> HandedOver(s'))
      && (s'.severed && !s.severed ==> step.ClientCut? || step.ClientStray? || step == ClientSend(false))
      && ((step == ClientSend(false) || step.ClientCut?) ==> s'.down == s.down && s'.accepted == s.accepted)
  {
    hide Take, Got, Sent, Srv.Serve, Srv.RespondWith;
  }

  /** No wrong answers. In every run in which the connection is not handed off, also after it was
      lost or closed and the client has run into its end: a consumer before which no request
      without data was sent gets the specified answer to its own request or none, and as long as
      none was sent at all the cache is coherent and nothing is left that a later consumer could
      be given. */
  lemma {:induction false} NoWrongAnswers(env: Env, steps: seq<Step>)
    requires Good(env) && IsRun(env, steps) && !HandedOver(Exec(env, steps))
    ensures Trusty(env, Exec(env, steps))
  {
    if !Exec(env, steps).severed {
      var s := Exec(env, steps);
      RpcRefinement(env, steps);
    } else {
      var before, step := steps[..|steps| - 1], steps[|steps| - 1];
      QueueDiscipline(env, steps);
      hide Trusty, Apply, QueueOk, HandedOver;
      DownStaysDown(env, Exec(env, before), step);
      NoWrongAnswers(env, before);
      InRange(env, Exec(env, steps));
      SeveredStep(env, before, step);
    }
  }

  lemma SeveredStep(env: Env, steps: seq<Step>, step: Step)
    requires Good(env) && IsRun(env, steps) && Enabled(env, Exec(env, steps), step) && Trusty(env, Exec(env, steps))
    requires var s' := Apply(env, Exec(env, steps), step);
      s'.severed && !HandedOver(s') && |s'.client.outcomes| <= |s'.accepted|
    ensures Trusty(env, Apply(env, Exec(env, steps), step))
  {
    var s := Exec(env, steps);
    var s' := Apply(env, s, step);
    QueueDiscipline(env, steps);
    DownStaysDown(env, s, step);
    StepSettles(env, s, step);
    var o := s.client.outcomes;
    CleanBefore(s.accepted, o, s'.accepted, s'.client.outcomes, |o|);
    if !s.severed && step == ClientSend(false) && AllClean(s') {
      DryWhileUnsent(env, steps);
    }
    hide Rightly, Clean, Apply, Exec, IsRun, InOrder, FetchedOnce;
    ExtendsRightly(env.svc, s.accepted, o, s'.accepted, s'.client.outcomes);
  }

  lemma DryWhileUnsent(env: Env, steps: seq<Step>)
    requires Good(env) && IsRun(env, steps)
    requires var s := Exec(env, steps);
      !s.severed && Enabled(env, s, ClientSend(false)) && AllClean(Apply(env, s, ClientSend(false)))
    ensures Exec(env, steps).down == []
  {
    hide Exec, IsRun;
    var l, g := LedgerOf(env, steps);
    var s := Exec(env, steps);
    var o, o' := s.client.outcomes, Apply(env, s, ClientSend(false)).client.outcomes;
    CleanBefore(s.accepted, o, s.accepted, o', |o|);
    CleanDone(s.accepted, o, |o|);
    NoBacklog(env.svc, Done(s));
    assert s.client.phase.req == s.accepted[|o|..][0];
    assert s.client.phase.AwaitAnswer? ==> WasSent(o'[|o|]) && s.accepted[|o|].data != [];
    hide LagAll, PerformAll, SimpleAll, ServerInStep, ResponsesInStep, ClientAt;
    UnsentMeansUnanswered(env, s, l, g);
  }

  // ----- From name to handler -----

  /** The service stands on a router after some calls. */
  ghost predicate StandsOn(svc: Service, calls: seq<ServerRouter.RouterCall>) {
    var router := ServerRouter.AfterCalls(svc.eq, calls);
    svc.routes == router.routes && svc.names == router.names
  }

  /** A request by name that the specification sends is served by one call of the handler last
      registered under that name, with the request's own type and data. */
  lemma NamedRequestIsServed(svc: Service, calls: seq<ServerRouter.RouterCall>, k: nat, r: Record, req: Request)
    requires ServerRouter.IdRespecting(svc.eq) && ServerRouter.MatchesByMembership(svc.eq)
    requires ServerRouter.Frozen(calls) && |ServerRouter.Registered(calls)| <= U64_SIZE && StandsOn(svc, calls)
    requires req.info.id.None? && req.info.named.Some?
    requires ServerRouter.IsLastNamed(ServerRouter.Registered(calls), req.info.named.value, k)
    requires req.sType in ServerRouter.Registered(calls)[k].key.sTypes
    requires svc.codec.queryToBytes(req.info.named.value).Some?
    requires k < U64_SIZE && svc.codec.metaToBytes(MetaFor(svc.codec, req, k)).Some?
    ensures var reg := ServerRouter.Registered(calls)[k];
      var result := svc.handler(|r.calls|, reg.route, req.sType, req.data, r.tx);
      var r' := Simple(svc, r, req);
      && r'.calls == r.calls + [Call(reg.route, req.sType, req.data, r.tx, result)]
      && |r'.outcomes| == |r.outcomes| + 1
      && r'.outcomes[|r.outcomes|] == Completed(
           match result
           case Finished(Ok(data), _, _) => data
           case Finished(Err(detail), _, _) => svc.codec.errorToBytes(InternalError(detail))
           case Panicked(_) => svc.codec.errorToBytes(InternalError(HANDLER_DIED)))
  {
    hide ServerRouter.AfterCalls, ServerRouter.Registered, ServerRouter.Frozen, ServerRouter.Scan;
    var name := req.info.named.value;
    ServerRouter.NameAnswersLastId(svc.eq, calls, name, k);
    var found := ServerRouter.Scan(svc.eq, svc.routes, ServerRouter.TypeTuple({req.sType}, k));
    ServerRouter.HandlerReachable(svc.eq, calls, k, req.sType, found);
  }

  /** What a consumer is given when this is what its request's handler call came to. */
  ghost predicate Tells(codec: Codec, result: HandlerResult, message: Bytes) {
    match result
    case Finished(Ok(data), _, _) => message == data
    case Finished(Err(detail), _, _) => message == codec.errorToBytes(InternalError(detail))
    case Panicked(_) =>
      exists text :: Spells(text, "handler died :(") && message == codec.errorToBytes(InternalError(text))
  }

  /** A request says where it goes by a handler's number, or by a name, which stands for the number
      of the last registration under it. */
  ghost predicate GoesTo(codec: Codec, regs: seq<ServerRouter.Registration>, info: HandlerInfo, id: U64) {
    || info.id == Some(id)
    || (info.id.None? && info.named.Some? && codec.queryToBytes(info.named.value).Some?
        && ServerRouter.IsLastNamed(regs, info.named.value, id))
  }

  /** The specification, said by the registrations. A request that goes to a handler which was
      registered for its type makes one call of it, with its type and data, and its consumer is
      told what came of it; if there is no such handler it makes none and the consumer gets the
      error that says so; a request that cannot be sent is dropped. */
  ghost predicate ServedByRegistration(svc: Service, regs: seq<ServerRouter.Registration>, r: Record, req: Request,
                                       r': Record) {
    && |r'.outcomes| == |r.outcomes| + 1 && r'.outcomes[..|r.outcomes|] == r.outcomes
    && var o := r'.outcomes[|r.outcomes|];
    && (req.info.id.None? && req.info.named.None? ==> o == Dropped(Protocol) && r'.calls == r.calls)
    && (req.info.id.None? && req.info.named.Some? && (forall k: U64 :: !GoesTo(svc.codec, regs, req.info, k)) ==>
          o == Dropped(Router) && r'.calls == r.calls)
    && (forall id: U64 :: GoesTo(svc.codec, regs, req.info, id) ==>
          var header := PacketMeta(svc.codec.typeToNumber(req.sType), id, req.data != []);
          if svc.codec.metaToBytes(header).None? then
            o == Dropped(Protocol) && r'.calls == r.calls
          else if id < |regs| && req.sType in regs[id].key.sTypes then
            var result := svc.handler(|r.calls|, regs[id].route, req.sType, req.data, r.tx);
            && r'.calls == r.calls + [Call(regs[id].route, req.sType, req.data, r.tx, result)]
            && o.Completed? && Tells(svc.codec, result, o.response)
          else
            o == Completed(svc.codec.errorToBytes(NoSuchHandler)) && r'.calls == r.calls)
  }

  /** The server stands on a committed router, with numbers that have not run out. */
  ghost predicate Standing(svc: Service, calls: seq<ServerRouter.RouterCall>) {
    && ServerRouter.IdRespecting(svc.eq) && ServerRouter.MatchesByMembership(svc.eq)
    && ServerRouter.Frozen(calls) && |ServerRouter.Registered(calls)| <= U64_SIZE && StandsOn(svc, calls)
  }

  /** Where the specification sends a request. */
  lemma TargetIs(svc: Service, calls: seq<ServerRouter.RouterCall>, info: HandlerInfo)
    requires Standing(svc, calls)
    ensures var regs := ServerRouter.Registered(calls);
      && (forall id: U64 :: GoesTo(svc.codec, regs, info, id) ==> Target(svc, info) == Ok(id))
      && (info.id.None? && info.named.None? ==> Target(svc, info) == Err(Protocol))
      && (info.id.None? && info.named.Some? && (forall k: U64 :: !GoesTo(svc.codec, regs, info, k)) ==>
            Target(svc, info) == Err(Router))
  {
    hide ServerRouter.AfterCalls, ServerRouter.Registered, ServerRouter.Frozen;
    var regs := ServerRouter.Registered(calls);
    if info.id.None? && info.named.Some? {
      var name := info.named.value;
      ServerRouter.NameAnswered(svc.eq, calls, name);
      forall id: U64 | GoesTo(svc.codec, regs, info, id) ensures Target(svc, info) == Ok(id) {
        ServerRouter.NameAnswersLastId(svc.eq, calls, name, id);
      }
      if Target(svc, info).Ok? {
        var last := ServerRouter.FindLastNamed(regs, name);
        var id: U64 := last;
        assert GoesTo(svc.codec, regs, info, id);
      }
    }
  }

  lemma DispatchedTo(svc: Service, calls: seq<ServerRouter.RouterCall>, n: nat, id: U64, t: SType, data: Bytes,
                     tx: Option<Sender>)
    requires Standing(svc, calls)
    ensures var (regs, reply) := (ServerRouter.Registered(calls), Dispatch(svc, n, id, t, data, tx));
      if id < |regs| && t in regs[id].key.sTypes then
        var result := svc.handler(n, regs[id].route, t, data, tx);
        && reply.call == Some(Call(regs[id].route, t, data, tx, result))
        && Tells(svc.codec, result, reply.message)
      else
        reply.call == None && reply.message == svc.codec.errorToBytes(NoSuchHandler)
  {
    hide ServerRouter.AfterCalls, ServerRouter.Registered, ServerRouter.Frozen, ServerRouter.Scan;
    HandlerDiedText();
    var found := ServerRouter.Scan(svc.eq, svc.routes, ServerRouter.TypeTuple({t}, id));
    assert ServerRouter.IsGet(svc.eq, svc.routes, ServerRouter.TypeTuple({t}, id), found);
    if id < |ServerRouter.Registered(calls)| {
      ServerRouter.HandlerReachable(svc.eq, calls, id, t, found);
    } else {
      ServerRouter.UnregisteredIsUnrouted(svc.eq, calls, id, t, found);
    }
  }

  lemma SimpleServes(svc: Service, calls: seq<ServerRouter.RouterCall>, r: Record, req: Request)
    requires Standing(svc, calls)
    ensures ServedByRegistration(svc, ServerRouter.Registered(calls), r, req, Simple(svc, r, req))
  {
    hide Standing, GoesTo, Target, Dispatch, Tells, StandsOn;
    hide ServerRouter.AfterCalls, ServerRouter.Registered, ServerRouter.Frozen;
    TargetIs(svc, calls, req.info);
    match Target(svc, req.info)
    case Err(_) =>
    case Ok(id) => DispatchedTo(svc, calls, |r.calls|, id, req.sType, req.data, r.tx);
  }

  /** From registrations to consumers. In every interleaving, until the client runs into the end of
      the connection: each consumer before which no request without data was sent gets what its
      request's registration calls for, and so on from the calls made for the requests before. */
  lemma ConsumerIsGiven(env: Env, steps: seq<Step>, calls: seq<ServerRouter.RouterCall>, k: nat)
    requires Good(env) && IsRun(env, steps) && !Exec(env, steps).severed && Standing(env.svc, calls)
    requires k < |Exec(env, steps).client.outcomes|
    requires Clean(Exec(env, steps).accepted, Exec(env, steps).client.outcomes, k)
    ensures k < |Exec(env, steps).accepted|
    ensures var (s, svc) := (Exec(env, steps), env.svc);
      var (r, r') := (SimpleAll(svc, s.accepted[..k]), SimpleAll(svc, s.accepted[..k + 1]));
      && ServedByRegistration(svc, ServerRouter.Registered(calls), r, s.accepted[k], r')
      && s.client.outcomes[k] == r'.outcomes[k]
  {
    hide Exec, IsRun, Standing, ServedByRegistration, Simple, Clean;
    RpcRefinement(env, steps);
    var s := Exec(env, steps);
    var reqs := s.accepted[..k + 1];
    assert reqs[..k] == s.accepted[..k] && reqs[k] == s.accepted[k];
    SimpleServes(env.svc, calls, SimpleAll(env.svc, reqs[..k]), reqs[k]);
  }

  /** The client's cache and the server's registrations: as long as no request without data was
      sent, also on a connection since lost or closed, a cached id is the number of the last
      registration under its name, and is what the client reads off the server's answer. */
  lemma CachedIdIsLastRegistration(env: Env, steps: seq<Step>, calls: seq<ServerRouter.RouterCall>, name: string,
                                   tx: Option<Sender>)
    requires Good(env) && IsRun(env, steps) && !HandedOver(Exec(env, steps)) && AllClean(Exec(env, steps))
    requires ServerRouter.IdRespecting(env.svc.eq) && StandsOn(env.svc, calls)
    requires ServerRouter.Frozen(calls) && |ServerRouter.Registered(calls)| <= U64_SIZE
    requires name in Exec(env, steps).client.cache
    ensures var id := Exec(env, steps).client.cache[name];
      && ServerRouter.IsLastNamed(ServerRouter.Registered(calls), name, id)
      && env.svc.codec.accessAnswer(AnswerName(env.svc, name, tx).message) == Some(id)
  {
    NoWrongAnswers(env, steps);
    hide Exec, IsRun, Rightly, Clean, ServerRouter.AfterCalls, ServerRouter.Registered, ServerRouter.Frozen;
    ServerRouter.NameAnswered(env.svc.eq, calls, name);
    var k := ServerRouter.FindLastNamed(ServerRouter.Registered(calls), name);
    ServerRouter.NameAnswersLastId(env.svc.eq, calls, name, k);
  }

  lemma InRange(env: Env, s: Sys)
    requires QueueOk(env, s)
    ensures |s.client.outcomes| <= |s.accepted|
  {
  }
}
