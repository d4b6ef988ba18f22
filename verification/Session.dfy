/** A client task and a server loop joined by two lanes, run in any interleaving, and what holds
    of the client's queue in every run. The connection may be lost at any time, with what is
    under way on it. */
module Session {
  import opened Wire
  import opened TrafficLink
  import opened Stream
  import opened PacketService
  import opened ClientTask
  import Srv = Connection

  /** What both ends share, the states their processors start in, and the queue's capacity. */
  datatype Env = Env(
    svc: Service, up: Lane, down: Lane, clientTx: ProcState, serverRx: ProcState,
    serverTx: ProcState, clientRx: ProcState, capacity: nat)

  /** The processors invert each other and start in step. How the server's writes turn out is
      said by the steps below; the service by itself is taken to be one whose writes all work. */
  ghost predicate Sound(env: Env) {
    && LaneLawful(env.up) && env.up.matches(env.clientTx, env.serverRx)
    && LaneLawful(env.down) && env.down.matches(env.serverTx, env.clientRx)
    && (forall n :: env.svc.sendOk(n))
  }

  function Ep(env: Env): Endpoint {
    Endpoint(env.svc.codec, env.up.post, env.down.pre)
  }

  /** Both actors, the frames in each lane, and what has happened: the requests accepted, how
      many frames the server has read and the client been given, whether the client has run
      into the end of the connection, and whether the connection was lost. */
  datatype Sys = Sys(
    client: Client, server: Srv.Server, up: seq<Bytes>, down: seq<Bytes>, serverTx: ProcState, serverRx: ProcState,
    accepted: seq<Request>, consumed: nat, delivered: nat, severed: bool, lost: bool)

  function Initial(env: Env): Sys {
    Sys(Client(Idle, [], map[], [], [], [], env.clientTx, env.clientRx, []), Srv.START,
        [], [], env.serverTx, env.serverRx, [], 0, 0, false, false)
  }

  /** `ClientStray` is a frame that whoever took the connection over writes to the client. `Lose`
      loses the connection: of the frames under way only the given numbers still arrive. */
  datatype Step =
    | Accept(req: Request)
    | ClientTake
    | ClientSend(ok: bool)
    | ClientReceive
    | ClientCut(ev: Inbound)
    | ClientStray(wire: Bytes)
    | ServerReceive
    | ServerServe
    | ServerRespond(ok: bool)
    | ServerCut(ev: Inbound)
    | Lose(keepUp: nat, keepDown: nat)

  /** The reads that end a connection. */
  predicate EndsStream(ev: Inbound) {
    ev.EndOfStream? || (ev.Failed? && IsFatal(ev.kind))
  }

  predicate Reading(c: Client) {
    c.phase != Idle && c.outbox == []
  }

  predicate ServerReading(s: Sys) {
    s.server.phase.AwaitMeta? || s.server.phase.AwaitPayload?
  }

  /** The client's end of the connection has nothing behind it any more. */
  predicate Down(s: Sys) {
    s.server.phase.Ended? || s.lost
  }

  /** The client's writes fail and its reads find the end only once the connection is lost or
      the server's loop is over, the server's only once it is lost, and reads find the end only
      when all that arrives has been read. */
  predicate Enabled(env: Env, s: Sys, step: Step) {
    match step
    case Accept(_) => |s.client.queue| < env.capacity
    case ClientTake => s.client.phase == Idle && s.client.queue != []
    case ClientSend(ok) => s.client.outbox != [] && (ok || Down(s))
    case ClientReceive => Reading(s.client) && s.down != []
    case ClientCut(ev) => Reading(s.client) && s.down == [] && Down(s) && !ev.Frame?
    case ClientStray(_) =>
      Reading(s.client) && s.down == [] && s.server.phase.Ended? && s.server.phase.how.HandedOff?
    case ServerReceive => ServerReading(s) && s.up != []
    case ServerServe => s.server.phase.Serving?
    case ServerRespond(ok) => s.server.phase.Responding? && (ok || s.lost)
    case ServerCut(ev) => ServerReading(s) && s.up == [] && s.lost && EndsStream(ev)
    case Lose(keepUp, keepDown) => !s.lost && keepUp <= |s.up| && keepDown <= |s.down|
  }

  /** A write on a lost connection may well seem to work, but nothing arrives. */
  function Apply(env: Env, s: Sys, step: Step): Sys
    requires Enabled(env, s, step)
  {
    match step
    case Accept(req) =>
      s.(client := s.client.(queue := s.client.queue + [req]), accepted := s.accepted + [req])
    case ClientTake => s.(client := Take(Ep(env), s.client))
    case ClientSend(ok) =>
      s.(client := Sent(s.client, ok), up := if ok && !s.lost then s.up + [s.client.outbox[0]] else s.up,
         severed := s.severed || !ok)
    case ClientReceive =>
      s.(client := Got(Ep(env), s.client, Frame(s.down[0])), down := s.down[1..], delivered := s.delivered + 1)
    case ClientCut(ev) => s.(client := Got(Ep(env), s.client, ev), severed := true)
    case ClientStray(w) => s.(client := Got(Ep(env), s.client, Frame(w)), severed := true)
    case ServerReceive =>
      var (rx, b) := env.up.pre(s.serverRx, s.up[0]);
      s.(server := Srv.Receive(env.svc.codec, s.server, Frame(b)), up := s.up[1..], serverRx := rx,
         consumed := s.consumed + 1)
    case ServerServe => s.(server := Srv.Serve(env.svc, s.server))
    case ServerRespond(ok) =>
      var (tx, w) := env.down.post(s.serverTx, s.server.phase.reply.message);
      s.(server := Srv.RespondWith(env.svc, s.server, ok), down := if s.lost then s.down else s.down + [w],
         serverTx := tx)
    case ServerCut(ev) => s.(server := Srv.Receive(env.svc.codec, s.server, ev))
    case Lose(keepUp, keepDown) => s.(up := s.up[..keepUp], down := s.down[..keepDown], lost := true)
  }

  /** A run: each step enabled where it is taken. */
  ghost predicate IsRun(env: Env, steps: seq<Step>)
    decreases |steps|, 0
  {
    steps == [] ||
    (IsRun(env, steps[..|steps| - 1]) && Enabled(env, Exec(env, steps[..|steps| - 1]), steps[|steps| - 1]))
  }

  ghost function Exec(env: Env, steps: seq<Step>): Sys
    requires IsRun(env, steps)
    decreases |steps|, 1
  {
    if steps == [] then Initial(env)
    else Apply(env, Exec(env, steps[..|steps| - 1]), steps[|steps| - 1])
  }

  // ----- The queue -----

  /** The request being exchanged, if any. */
  function Current(p: Phase): seq<Request> {
    match p
    case Idle => []
    case AwaitName(req, _) => [req]
    case AwaitAnswer(req) => [req]
  }

  /** Requests are taken in the order accepted, each once, one at a time, and never put back;
      request k, and no other, has outcome k. */
  ghost predicate InOrder(accepted: seq<Request>, c: Client) {
    && |c.outcomes| <= |accepted|
    && accepted[|c.outcomes|..] == Current(c.phase) + c.queue
    && (c.phase == Idle ==> c.outbox == [])
  }

  ghost predicate Distinct(names: seq<string>) {
    forall i, j :: 0 <= i < j < |names| ==> names[i] != names[j]
  }

  /** No name is fetched twice, and the cache holds just the names fetched. */
  ghost predicate FetchedOnce(c: Client) {
    && Distinct(c.fetched) && (forall n :: n in c.cache <==> n in c.fetched)
    && (c.phase.AwaitName? ==> c.phase.name !in c.cache)
  }

  lemma NextInOrder(accepted: seq<Request>, n: nat, req: Request, queue: seq<Request>)
    requires n <= |accepted| && accepted[n..] == [req] + queue
    ensures n + 1 <= |accepted| && accepted[n + 1..] == queue == [] + queue
  {
  }

  /** From `c`, with `req` in hand, the client has moved on to `c'`: it still works on the request,
      or it has settled its outcome. */
  ghost predicate MovedOn(c: Client, req: Request, c': Client) {
    && c'.queue == c.queue
    && ((Current(c'.phase) == [req] && c'.outcomes == c.outcomes) ||
        (c'.phase == Idle && c'.outbox == [] && |c'.outcomes| == |c.outcomes| + 1))
  }

  lemma MovedOnInOrder(accepted: seq<Request>, c: Client, req: Request, c': Client)
    requires |c.outcomes| <= |accepted| && accepted[|c.outcomes|..] == [req] + c.queue && MovedOn(c, req, c')
    ensures InOrder(accepted, c')
  {
    NextInOrder(accepted, |c.outcomes|, req, c.queue);
  }

  lemma BeginMovesOn(ep: Endpoint, c: Client, req: Request)
    requires c.phase == Idle && c.outbox == []
    ensures var c' := Begin(ep, c, req);
      && MovedOn(c, req, c') && c'.cache == c.cache && c'.fetched == c.fetched
      && (c'.phase.AwaitName? ==> c'.phase.name !in c.cache)
  {
  }

  lemma GotMovesOn(ep: Endpoint, c: Client, ev: Inbound)
    requires c.phase != Idle && c.outbox == []
    ensures MovedOn(c, c.phase.req, Got(ep, c, ev))
  {
  }

  lemma GotFetches(ep: Endpoint, c: Client, ev: Inbound)
    requires c.phase != Idle && FetchedOnce(c)
    ensures FetchedOnce(Got(ep, c, ev))
  {
  }

  lemma TakeInOrder(ep: Endpoint, accepted: seq<Request>, c: Client)
    requires InOrder(accepted, c) && FetchedOnce(c) && c.phase == Idle && c.queue != []
    ensures InOrder(accepted, Take(ep, c)) && FetchedOnce(Take(ep, c))
    ensures |Take(ep, c).queue| < |c.queue|
  {
    hide Begin;
    var c1 := c.(queue := c.queue[1..]);
    BeginMovesOn(ep, c1, c.queue[0]);
    assert c.queue == [c.queue[0]] + c.queue[1..] == [] + c.queue;
    MovedOnInOrder(accepted, c1, c.queue[0], Take(ep, c));
  }

  lemma SentInOrder(accepted: seq<Request>, c: Client, ok: bool)
    requires InOrder(accepted, c) && FetchedOnce(c) && c.outbox != []
    ensures InOrder(accepted, Sent(c, ok)) && FetchedOnce(Sent(c, ok))
    ensures Sent(c, ok).queue == c.queue
  {
    if !ok { MovedOnInOrder(accepted, c, c.phase.req, Sent(c, ok)); }
  }

  lemma GotInOrder(ep: Endpoint, accepted: seq<Request>, c: Client, ev: Inbound)
    requires InOrder(accepted, c) && FetchedOnce(c) && Reading(c)
    ensures InOrder(accepted, Got(ep, c, ev)) && FetchedOnce(Got(ep, c, ev))
    ensures Got(ep, c, ev).queue == c.queue
  {
    hide Got;
    GotMovesOn(ep, c, ev);
    GotFetches(ep, c, ev);
    MovedOnInOrder(accepted, c, c.phase.req, Got(ep, c, ev));
  }

  ghost predicate QueueOk(env: Env, s: Sys) {
    && InOrder(s.accepted, s.client)
    && FetchedOnce(s.client)
    && |s.client.queue| <= env.capacity
    && (s.severed ==> Down(s))
  }

  lemma QueueStep(env: Env, s: Sys, step: Step)
    requires QueueOk(env, s) && Enabled(env, s, step)
    ensures QueueOk(env, Apply(env, s, step))
  {
    hide InOrder, FetchedOnce, Take, Sent, Got;
    match step
    case Accept(req) => AcceptInOrder(s.accepted, s.client, req);
    case ClientTake => TakeInOrder(Ep(env), s.accepted, s.client);
    case ClientSend(ok) => SentInOrder(s.accepted, s.client, ok);
    case ClientReceive => GotInOrder(Ep(env), s.accepted, s.client, Frame(s.down[0]));
    case ClientCut(ev) => GotInOrder(Ep(env), s.accepted, s.client, ev);
    case ClientStray(w) => GotInOrder(Ep(env), s.accepted, s.client, Frame(w));
    case _ =>
  }

  lemma AcceptInOrder(accepted: seq<Request>, c: Client, req: Request)
    requires InOrder(accepted, c) && FetchedOnce(c)
    ensures var c' := c.(queue := c.queue + [req]); InOrder(accepted + [req], c') && FetchedOnce(c')
  {
    assert (accepted + [req])[|c.outcomes|..] == accepted[|c.outcomes|..] + [req];
  }

  /** Queue discipline, in every run, whatever the server or the lanes do. */
  lemma {:induction false} QueueDiscipline(env: Env, steps: seq<Step>)
    requires IsRun(env, steps)
    ensures QueueOk(env, Exec(env, steps))
  {
    if steps != [] {
      hide QueueOk, Apply;
      QueueDiscipline(env, steps[..|steps| - 1]);
      QueueStep(env, Exec(env, steps[..|steps| - 1]), steps[|steps| - 1]);
    }
  }
}
