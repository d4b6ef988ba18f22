/** Progress: in every run each request is settled within a bound fixed when it is in the queue,
    no run deadlocks, and every run can be carried on until all requests are settled. */
module Progress {
  import opened TrafficLink
  import opened Stream
  import opened PacketService
  import opened ClientTask
  import opened Session
  import opened Interleaving
  import opened Pairing
  import opened Guarantees
  import Srv = Connection

  /** What may still happen outside the client. */
  function Traffic(s: Sys): nat {
    4 * |s.up| + |s.down| + (if s.lost then 0 else 1)
    + match s.server.phase
      case Ended(_) => 0
      case Serving(_) => 4
      case Responding(_) => 3
      case _ => 1
  }

  /** An upper bound on the steps left, as long as nothing new is accepted. */
  function Left(s: Sys): nat {
    18 * |s.client.queue| + Weight(s.client) + Traffic(s)
  }

  lemma TakeWeight(ep: Endpoint, c: Client)
    requires c.phase == Idle && c.outbox == [] && c.queue != []
    ensures 18 * |Take(ep, c).queue| + Weight(Take(ep, c)) < 18 * |c.queue|
  {
  }

  lemma GotWeight(ep: Endpoint, c: Client, ev: Inbound)
    requires Reading(c)
    ensures Got(ep, c, ev).queue == c.queue && Weight(Got(ep, c, ev)) < Weight(c)
  {
  }

  lemma ServerWeight(svc: Service, s: Srv.Server, ev: Inbound, ok: bool)
    ensures s.phase.AwaitMeta? || s.phase.AwaitPayload? ==>
              && !Srv.Receive(svc.codec, s, ev).phase.Responding?
              && (EndsStream(ev) ==> Srv.Receive(svc.codec, s, ev).phase.Ended?)
    ensures s.phase.Responding? ==>
              !Srv.RespondWith(svc, s, ok).phase.Serving? && !Srv.RespondWith(svc, s, ok).phase.Responding?
  {
  }

  /** Every step but the acceptance of a request leaves fewer to take. */
  lemma StepUses(env: Env, s: Sys, step: Step)
    requires QueueOk(env, s) && Enabled(env, s, step) && !step.Accept?
    ensures Left(Apply(env, s, step)) < Left(s)
  {
    hide Take, Got, Weight, Srv.Receive, Srv.RespondWith, FetchedOnce;
    match step
    case ClientTake => TakeWeight(Ep(env), s.client);
    case ClientSend(ok) => SentWeight(s.client, ok);
    case ClientReceive => GotWeight(Ep(env), s.client, Frame(s.down[0]));
    case ClientCut(ev) => GotWeight(Ep(env), s.client, ev);
    case ClientStray(w) => GotWeight(Ep(env), s.client, Frame(w));
    case ServerReceive => ServerWeight(env.svc, s.server, Frame(env.up.pre(s.serverRx, s.up[0]).1), true);
    case ServerServe =>
    case ServerRespond(ok) => ServerWeight(env.svc, s.server, EndOfStream, ok);
    case ServerCut(ev) => ServerWeight(env.svc, s.server, ev, true);
    case Lose(_, _) =>
  }

  lemma SentWeight(c: Client, ok: bool)
    requires c.outbox != []
    ensures Sent(c, ok).queue == c.queue && Weight(Sent(c, ok)) + 5 <= Weight(c)
  {
  }

  // ----- Every request is settled in time -----

  /** As `Left`, counting only the requests up to number k: what may still happen before request
      k is settled. */
  function LeftFor(s: Sys, k: nat): int {
    18 * (k + 1 - |s.client.outcomes| - |Current(s.client.phase)|) + Weight(s.client) + Traffic(s)
  }

  /** The steps other than accepting a request. */
  function Others(steps: seq<Step>): (n: nat)
    ensures n <= |steps|
  {
    if steps == [] then 0
    else Others(steps[..|steps| - 1]) + if steps[|steps| - 1].Accept? then 0 else 1
  }

  lemma LeftForLeft(env: Env, s: Sys, k: nat)
    requires QueueOk(env, s)
    ensures LeftFor(s, k) + 18 * (|s.accepted| - 1 - k) == Left(s)
    ensures |s.client.outcomes| <= k ==> LeftFor(s, k) >= 0
  {
    assert |s.accepted[|s.client.outcomes|..]| == |Current(s.client.phase)| + |s.client.queue|;
  }

  /** Accepting a request leaves what is left for the earlier ones as it is; any other step uses
      some of it up, and takes at most one request off the queue. */
  lemma StepUsesFor(env: Env, s: Sys, step: Step, k: nat)
    requires QueueOk(env, s) && Enabled(env, s, step)
    ensures var s' := Apply(env, s, step);
      && LeftFor(s', k) + (if step.Accept? then 0 else 1) <= LeftFor(s, k)
      && |s.client.queue| + (if step.Accept? then 1 else -1) <= |s'.client.queue|
  {
    var s' := Apply(env, s, step);
    QueueStep(env, s, step);
    LeftForLeft(env, s, k);
    LeftForLeft(env, s', k);
    StepAccepts(env, s, step);
    if !step.Accept? { StepUses(env, s, step); }
    hide *;
  }

  lemma StepAccepts(env: Env, s: Sys, step: Step)
    requires QueueOk(env, s) && Enabled(env, s, step)
    ensures var s' := Apply(env, s, step);
      && (step.Accept? ==> Left(s') == Left(s) + 18)
      && |s'.accepted| == |s.accepted| + (if step.Accept? then 1 else 0)
      && |s.client.queue| + (if step.Accept? then 1 else -1) <= |s'.client.queue|
  {
    hide Begin, Got, FetchedOnce, InOrder, Srv.Receive, Srv.Serve, Srv.RespondWith;
    match step
    case ClientTake => BeginKeepsQueue(Ep(env), s.client.(queue := s.client.queue[1..]), s.client.queue[0]);
    case ClientReceive => GotWeight(Ep(env), s.client, Frame(s.down[0]));
    case ClientCut(ev) => GotWeight(Ep(env), s.client, ev);
    case ClientStray(w) => GotWeight(Ep(env), s.client, Frame(w));
    case _ =>
  }

  /** The account of a whole continuation. */
  lemma {:induction false} RunUsesFor(env: Env, steps: seq<Step>, more: seq<Step>, k: nat)
    requires IsRun(env, steps) && IsRun(env, steps + more)
    ensures var (s, s') := (Exec(env, steps), Exec(env, steps + more));
      && Others(more) + LeftFor(s', k) <= LeftFor(s, k)
      && |s.client.queue| + |more| <= |s'.client.queue| + 2 * Others(more)
  {
    if more == [] {
      assert steps + more == steps;
    } else {
      var front, last := more[..|more| - 1], more[|more| - 1];
      assert (steps + more)[..|steps + more| - 1] == steps + front;
      RunUsesFor(env, steps, front, k);
      QueueDiscipline(env, steps + front);
      hide LeftFor, QueueOk;
      StepUsesFor(env, Exec(env, steps + front), last, k);
    }
  }

  /** Bounded completion, whatever else is accepted meanwhile. As long as request k is not settled
      a run can have taken at most `LeftFor` steps other than accepting, a bound fixed when the
      request is in the queue; and as the queue has room for no more than its capacity, the run
      as a whole has a bound too. No stream of later requests can hold it up. */
  lemma RequestSettledInTime(env: Env, steps: seq<Step>, more: seq<Step>, k: nat)
    requires IsRun(env, steps) && IsRun(env, steps + more) && k < |Exec(env, steps).accepted|
    ensures Others(more) + LeftFor(Exec(env, steps + more), k) <= LeftFor(Exec(env, steps), k)
    ensures |Exec(env, steps + more).client.outcomes| <= k ==>
              && Others(more) <= LeftFor(Exec(env, steps), k)
              && |more| <= env.capacity + 2 * LeftFor(Exec(env, steps), k)
  {
    RunUsesFor(env, steps, more, k);
    QueueDiscipline(env, steps + more);
    LeftForLeft(env, Exec(env, steps + more), k);
    hide IsRun, Exec, LeftFor, Left;
  }

  ghost predicate AcceptsNone(steps: seq<Step>) {
    forall i :: 0 <= i < |steps| ==> !steps[i].Accept?
  }

  lemma {:induction false} AllOthers(steps: seq<Step>)
    requires AcceptsNone(steps)
    ensures Others(steps) == |steps|
  {
    if steps != [] {
      AllOthers(steps[..|steps| - 1]);
      assert !steps[|steps| - 1].Accept?;
    }
  }

  lemma {:induction false} AcceptedStays(env: Env, steps: seq<Step>, more: seq<Step>)
    requires IsRun(env, steps) && IsRun(env, steps + more) && AcceptsNone(more)
    ensures Exec(env, steps + more).accepted == Exec(env, steps).accepted
  {
    if more == [] {
      assert steps + more == steps;
    } else {
      var front := more[..|more| - 1];
      assert (steps + more)[..|steps + more| - 1] == steps + front;
      assert !more[|more| - 1].Accept?;
      AcceptedStays(env, steps, front);
      hide Take, Got, Sent;
    }
  }

  /** So when nothing new is accepted a run goes on for at most `Left` steps. */
  lemma BoundedCompletion(env: Env, steps: seq<Step>, more: seq<Step>)
    requires IsRun(env, steps) && IsRun(env, steps + more) && AcceptsNone(more)
    ensures |more| + Left(Exec(env, steps + more)) <= Left(Exec(env, steps))
  {
    RunUsesFor(env, steps, more, 0);
    AllOthers(more);
    AcceptedStays(env, steps, more);
    QueueDiscipline(env, steps);
    QueueDiscipline(env, steps + more);
    LeftForLeft(env, Exec(env, steps), 0);
    LeftForLeft(env, Exec(env, steps + more), 0);
    hide IsRun, Exec, LeftFor, Left;
  }

  /** The client waits, everything it wrote has been read, and the server has nothing to do:
      then an answer is on its way. */
  lemma AnswerOwed(svc: Service, c: Client, given: nat, l: Ledger, g: Lag)
    requires Usable(svc) && Agree(svc, l, g) && ClientAt(svc, c, given, l) && c.phase != Idle
    requires !ServerOn(svc, c.emitted).phase.Ended?
    ensures given < |ResponsesTo(svc, c.emitted)|
  {
    hide ServerOn;
    match c.phase
    case AwaitName(req, name) =>
      QueryPosted(svc, l, g, name);
      MoreFramesMoreResponses(svc, l.emitted, [svc.codec.queryToBytes(name).value]);
    case AwaitAnswer(req) =>
      var r := Routed(svc, l, req);
      RoutedAgrees(svc, l, g, req);
      hide Routed;
      RequestPosted(svc, r.ledger, LagRouted(svc, g, req).lag, r.id, req);
      var meta := svc.codec.metaToBytes(MetaFor(svc.codec, req, r.id)).value;
      MoreFramesMoreResponses(svc, r.ledger.emitted, [meta, req.data]);
  }

  lemma ServerHasInput(env: Env, s: Sys, l: Ledger, g: Lag)
    requires Good(env) && ServerInStep(env, s) && ResponsesInStep(env, s)
    requires Agree(env.svc, l, g) && ClientAt(env.svc, s.client, s.delivered, l) && s.client.phase != Idle
    requires s.client.outbox == [] && s.down == [] && !s.lost && ServerReading(s)
    ensures s.up != []
  {
    hide ServerOn, ClientAt, Agree, InFlight, Coming, FramesInStep, HasServed;
    if s.up == [] {
      CaughtUp(env, s);
      ResponsesInRange(env, s);
      AnswerOwed(env.svc, s.client, s.delivered, l, g);
    }
  }

  /** No deadlock. Unless the connection was handed off, whenever a request is unfinished some
      step other than accepting, or losing the connection, is enabled. */
  lemma NoDeadlock(env: Env, steps: seq<Step>) returns (step: Step)
    requires Good(env) && IsRun(env, steps) && !HandedOver(Exec(env, steps))
    requires |Exec(env, steps).client.outcomes| < |Exec(env, steps).accepted|
    ensures !step.Accept? && !step.Lose? && Enabled(env, Exec(env, steps), step)
  {
    var s := Exec(env, steps);
    QueueDiscipline(env, steps);
    if s.client.phase == Idle {
      step := ClientTake;
    } else if s.client.outbox != [] {
      step := ClientSend(true);
    } else if s.down != [] {
      step := ClientReceive;
    } else if Down(s) {
      step := ClientCut(EndOfStream);
    } else if s.server.phase.Serving? {
      step := ServerServe;
    } else if s.server.phase.Responding? {
      step := ServerRespond(true);
    } else {
      step := ServerReceive;
      var l, g := LedgerOf(env, steps);
      ServerHasInput(env, s, l, g);
    }
  }

  /** So a run that has nothing left to do has settled every request. */
  lemma NothingLeftMeansDone(env: Env, steps: seq<Step>)
    requires Good(env) && IsRun(env, steps) && !HandedOver(Exec(env, steps))
    requires forall step :: Enabled(env, Exec(env, steps), step) ==> step.Accept? || step.Lose?
    ensures |Exec(env, steps).client.outcomes| == |Exec(env, steps).accepted|
  {
    QueueDiscipline(env, steps);
    if |Exec(env, steps).client.outcomes| < |Exec(env, steps).accepted| {
      var step := NoDeadlock(env, steps);
    }
  }

  ghost predicate LosesNone(steps: seq<Step>) {
    forall i :: 0 <= i < |steps| ==> !steps[i].Lose?
  }

  /** And every run can be carried on to that point, in at most `Left` steps, without losing the
      connection if it still has it. */
  lemma {:induction false} RunCompletes(env: Env, steps: seq<Step>) returns (more: seq<Step>)
    requires Good(env) && IsRun(env, steps)
    ensures AcceptsNone(more) && LosesNone(more) && IsRun(env, steps + more) && |more| <= Left(Exec(env, steps))
    ensures var s := Exec(env, steps + more); HandedOver(s) || |s.client.outcomes| == |s.accepted|
    decreases Left(Exec(env, steps))
  {
    hide Exec, IsRun, Apply, Enabled, Left, QueueOk;
    QueueDiscipline(env, steps);
    InRange(env, Exec(env, steps));
    var s := Exec(env, steps);
    if HandedOver(s) || |s.client.outcomes| == |s.accepted| {
      more := [];
      assert steps + more == steps;
    } else {
      var step := NoDeadlock(env, steps);
      OneMore(env, steps, step);
      StepUses(env, s, step);
      var rest := RunCompletes(env, steps + [step]);
      more := [step] + rest;
      assert steps + more == steps + [step] + rest;
    }
  }

  lemma OneMore(env: Env, steps: seq<Step>, step: Step)
    requires IsRun(env, steps) && Enabled(env, Exec(env, steps), step)
    ensures IsRun(env, steps + [step]) && Exec(env, steps + [step]) == Apply(env, Exec(env, steps), step)
  {
    assert (steps + [step])[..|steps|] == steps;
  }
}
