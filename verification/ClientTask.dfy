/** The client task: it takes requests off a queue one at a time, resolves the handler name
    through a cache, writes the frames, and hands the next frame it reads to the consumer. */
module ClientTask {
  import opened Wire
  import opened TrafficLink
  import opened Stream

  datatype HandlerInfo = HandlerInfo(id: Option<U64>, named: Option<string>)

  datatype Request = Request(info: HandlerInfo, data: Bytes, sType: SType)

  datatype ClientError = Io | BadFrame(kind: ErrorKind) | Router | Protocol

  /** What becomes of a request's consumer. */
  datatype Outcome = Completed(response: Bytes) | Dropped(error: ClientError)

  datatype Endpoint = Endpoint(codec: Codec, post: Transform, pre: Transform)

  datatype Phase = Idle | AwaitName(req: Request, name: string) | AwaitAnswer(req: Request)

  /** The task between two of its steps. `emitted` lists the frames it has produced so far,
      `outbox` those not yet given to the transport, as the processor made them; `fetched` the
      names that the server answered. */
  datatype Client = Client(
    phase: Phase, queue: seq<Request>, cache: map<string, U64>, outcomes: seq<Outcome>,
    emitted: seq<Bytes>, outbox: seq<Bytes>, tx: ProcState, rx: ProcState, fetched: seq<string>)

  function Emit(ep: Endpoint, c: Client, frames: seq<Bytes>): Client {
    c.(emitted := c.emitted + frames, outbox := c.outbox + EncodeAll(ep.post, c.tx, frames),
       tx := TxAfter(ep.post, c.tx, frames))
  }

  function Fail(c: Client, e: ClientError): Client {
    c.(phase := Idle, outbox := [], outcomes := c.outcomes + [Dropped(e)])
  }

  /** The header announces a payload only if there is data. */
  function MetaFor(c: Codec, req: Request, id: U64): PacketMeta {
    PacketMeta(c.typeToNumber(req.sType), id, req.data != [])
  }

  /** Both frames are produced before either is written, the payload even if it is empty. */
  function SendRequest(ep: Endpoint, c: Client, req: Request, id: U64): Client {
    match ep.codec.metaToBytes(MetaFor(ep.codec, req, id))
    case None => Fail(c, Protocol)
    case Some(meta) => Emit(ep, c.(phase := AwaitAnswer(req)), [meta, req.data])
  }

  function Begin(ep: Endpoint, c: Client, req: Request): Client {
    if req.info.id.Some? then SendRequest(ep, c, req, req.info.id.value)
    else
      match req.info.named
      case None => Fail(c, Protocol)
      case Some(name) =>
        if name in c.cache then SendRequest(ep, c, req, c.cache[name])
        else
          match ep.codec.queryToBytes(name)
          case None => Fail(c, Router)
          case Some(query) => Emit(ep, c.(phase := AwaitName(req, name)), [query])
  }

  function Take(ep: Endpoint, c: Client): Client
    requires c.phase == Idle && c.queue != []
  {
    Begin(ep, c.(queue := c.queue[1..]), c.queue[0])
  }

  /** The next frame of the outbox has been given to the transport, which took it or not. */
  function Sent(c: Client, ok: bool): Client
    requires c.outbox != []
  {
    if ok then c.(outbox := c.outbox[1..])
    else Fail(c, if c.phase.AwaitName? then Router else Io)
  }

  /** A read, when there is nothing left to write. */
  function Got(ep: Endpoint, c: Client, ev: Inbound): Client
    requires c.phase != Idle
  {
    match ev
    case Frame(w) =>
      (var (rx', b) := ep.pre(c.rx, w);
       var c' := c.(rx := rx');
       match c.phase
       case AwaitName(req, name) =>
         (match ep.codec.accessAnswer(b)
          case None => Fail(c', Router)
          case Some(id) =>
            SendRequest(ep, c'.(cache := c.cache[name := id], fetched := c.fetched + [name]), req, id))
       case AwaitAnswer(req) => c'.(phase := Idle, outcomes := c.outcomes + [Completed(b)]))
    case Failed(kind) => Fail(c, if c.phase.AwaitName? then Router else BadFrame(kind))
    case EndOfStream => Fail(c, if c.phase.AwaitName? then Router else Protocol)
  }

  // ----- The task against a scripted transport -----

  /** The client end of a connection. */
  datatype Net = Net(tx: ProcState, rx: ProcState, inbox: seq<Inbound>, written: seq<Bytes>)

  function Writes(net: Net, tx: ProcState, wire: Bytes): Net {
    net.(tx := tx, written := net.written + [wire])
  }

  /** The next read, a frame being processed. */
  function Listen(ep: Endpoint, net: Net): (Net, Inbound) {
    if net.inbox == [] then (net, EndOfStream)
    else
      var rest := net.(inbox := net.inbox[1..]);
      match net.inbox[0]
      case Frame(w) => (rest.(rx := ep.pre(net.rx, w).0), Frame(ep.pre(net.rx, w).1))
      case ev => (rest, ev)
  }

  /** Asking the server for the id of a name. */
  function Fetch(ep: Endpoint, ok: nat -> bool, net: Net, name: string): (Net, Option<U64>) {
    match ep.codec.queryToBytes(name)
    case None => (net, None)
    case Some(query) =>
      var (tx, w) := ep.post(net.tx, query);
      var net1 := Writes(net, tx, w);
      if !ok(|net.written|) then (net1, None)
      else
        var (net2, ev) := Listen(ep, net1);
        (net2, if ev.Frame? then ep.codec.accessAnswer(ev.bytes) else None)
  }

  /** The exchange once the id is known. */
  function Exchange(ep: Endpoint, ok: nat -> bool, net: Net, req: Request, id: U64): (Net, Outcome) {
    match ep.codec.metaToBytes(MetaFor(ep.codec, req, id))
    case None => (net, Dropped(Protocol))
    case Some(meta) =>
      var (tx1, wm) := ep.post(net.tx, meta);
      var (tx2, wp) := ep.post(tx1, req.data);
      var net1 := Writes(net, tx2, wm);
      if !ok(|net.written|) then (net1, Dropped(Io))
      else
        var net2 := Writes(net1, tx2, wp);
        if !ok(|net1.written|) then (net2, Dropped(Io))
        else
          var (net3, ev) := Listen(ep, net2);
          (net3, match ev
                 case Frame(b) => Completed(b)
                 case Failed(kind) => Dropped(BadFrame(kind))
                 case EndOfStream => Dropped(Protocol))
  }

  datatype Progress = Progress(cache: map<string, U64>, net: Net, outcome: Outcome)

  /** One request from start to finish. */
  function Process(ep: Endpoint, ok: nat -> bool, cache: map<string, U64>, net: Net, req: Request): Progress {
    if req.info.id.Some? then
      var (net', outcome) := Exchange(ep, ok, net, req, req.info.id.value);
      Progress(cache, net', outcome)
    else
      match req.info.named
      case None => Progress(cache, net, Dropped(Protocol))
      case Some(name) =>
        if name in cache then
          var (net', outcome) := Exchange(ep, ok, net, req, cache[name]);
          Progress(cache, net', outcome)
        else
          var (net1, answer) := Fetch(ep, ok, net, name);
          match answer
          case None => Progress(cache, net1, Dropped(Router))
          case Some(id) =>
            var (net2, outcome) := Exchange(ep, ok, net1, req, id);
            Progress(cache[name := id], net2, outcome)
  }

  /** What is on the wire and what the consumer gets once the id is known. The header goes out,
      then the data, each as the processor makes it; a failed write is an I/O error, and the next
      read decides otherwise: a frame is the answer, an error is passed on, and the end of the
      stream is a protocol error. */
  lemma ExchangeOutcome(ep: Endpoint, ok: nat -> bool, net: Net, req: Request, id: U64)
    ensures var (x, n) := (Exchange(ep, ok, net, req, id), |net.written|);
      var header := ep.codec.metaToBytes(PacketMeta(ep.codec.typeToNumber(req.sType), id, req.data != []));
      if header.None? then
        x == (net, Dropped(Protocol))
      else
        var (tx1, w1) := ep.post(net.tx, header.value);
        var (tx2, w2) := ep.post(tx1, req.data);
        && x.0.tx == tx2
        && x.0.written == net.written + (if ok(n) then [w1, w2] else [w1])
        && (x.1 == Dropped(Io) <==> !ok(n) || !ok(n + 1))
        && (ok(n) && ok(n + 1) ==>
              && (net.inbox == [] || net.inbox[0] == EndOfStream ==> x.1 == Dropped(Protocol))
              && (net.inbox != [] && net.inbox[0].Failed? ==> x.1 == Dropped(BadFrame(net.inbox[0].kind)))
              && (net.inbox != [] && net.inbox[0].Frame? ==>
                    x.1 == Completed(ep.pre(net.rx, net.inbox[0].bytes).1)))
  {
  }

  /** Whatever goes wrong in asking for a name, before or after it is asked, is a router error, and
      leaves the cache as it was; only a frame that decodes as an id is an answer. */
  lemma NameOutcome(ep: Endpoint, ok: nat -> bool, cache: map<string, U64>, net: Net, req: Request, name: string)
    requires req.info == HandlerInfo(None, Some(name)) && name !in cache
    ensures var (p, query) := (Process(ep, ok, cache, net, req), ep.codec.queryToBytes(name));
      if query.None? then
        p == Progress(cache, net, Dropped(Router))
      else if ok(|net.written|) && net.inbox != [] && net.inbox[0].Frame? &&
              ep.codec.accessAnswer(ep.pre(net.rx, net.inbox[0].bytes).1).Some? then
        p.cache == cache[name := ep.codec.accessAnswer(ep.pre(net.rx, net.inbox[0].bytes).1).value]
      else
        && p.outcome == Dropped(Router) && p.cache == cache
        && p.net.written == net.written + [ep.post(net.tx, query.value).1]
  {
    hide Exchange;
  }

  /** A request by neither id nor name is a protocol error, and nothing is sent. */
  lemma NowhereOutcome(ep: Endpoint, ok: nat -> bool, cache: map<string, U64>, net: Net, req: Request)
    requires req.info == HandlerInfo(None, None)
    ensures Process(ep, ok, cache, net, req) == Progress(cache, net, Dropped(Protocol))
  {
  }

  /** The name cache. */
  class TargetRouter {
    var knownRoutes: map<string, U64>

    constructor ()
      ensures knownRoutes == map[]
    {
      knownRoutes := map[];
    }

    function LookupRoute(route: string): (r: Option<U64>)
      reads this
      ensures r.Some? <==> route in knownRoutes
      ensures r.Some? ==> r.value == knownRoutes[route]
    {
      if route in knownRoutes then Some(knownRoutes[route]) else None
    }
  }

  class ClientConnect {
    const ep: Endpoint
    const socket: Framed
    const processor: TrafficProcessor
    const router: TargetRouter
    var queue: seq<Request>
    var outcomes: seq<Outcome>

    constructor (ep: Endpoint, socket: Framed, processor: TrafficProcessor, queue: seq<Request>)
      requires processor.post == ep.post && processor.pre == ep.pre
      ensures Valid() && this.ep == ep && this.socket == socket && this.processor == processor
      ensures this.queue == queue && outcomes == [] && fresh(router) && router.knownRoutes == map[]
    {
      this.ep, this.socket, this.processor, this.queue, outcomes := ep, socket, processor, queue, [];
      router := new TargetRouter();
    }

    ghost predicate Valid()
    {
      processor.post == ep.post && processor.pre == ep.pre
    }

    ghost function Link(): Net
      reads socket, processor
    {
      Net(processor.tx, processor.rx, socket.inbound, socket.written)
    }

    method WaitForData() returns (ev: Inbound)
      requires Valid()
      modifies socket`inbound, processor`rx
      ensures (Link(), ev) == Listen(ep, old(Link()))
    {
      ev := socket.Next();
      if ev.Frame? {
        var b := processor.PreProcess(ev.bytes);
        ev := Frame(b);
      }
    }

    method RequestRouteFromServer(name: string) returns (r: Option<U64>)
      requires Valid()
      modifies socket, processor
      ensures (Link(), r) == Fetch(ep, socket.sendOk, old(Link()), name)
    {
      var query := ep.codec.queryToBytes(name);
      if query.None? { return None; }
      var w := processor.PostProcess(query.value);
      var ok := socket.Send(w);
      if !ok { return None; }
      var ev := WaitForData();
      r := if ev.Frame? then ep.codec.accessAnswer(ev.bytes) else None;
    }

    /** The id of a name: from the cache if it is there, from the server otherwise, in which case
        only an answer enters the cache. */
    method RequestRoute(name: string) returns (r: Option<U64>)
      requires Valid()
      modifies socket, processor, router
      ensures name in old(router.knownRoutes) ==>
                && r == Some(old(router.knownRoutes)[name])
                && Link() == old(Link()) && router.knownRoutes == old(router.knownRoutes)
      ensures name !in old(router.knownRoutes) ==>
                && (Link(), r) == Fetch(ep, socket.sendOk, old(Link()), name)
                && router.knownRoutes ==
                   if r.Some? then old(router.knownRoutes)[name := r.value] else old(router.knownRoutes)
    {
      r := router.LookupRoute(name);
      if r.Some? { return; }
      r := RequestRouteFromServer(name);
      if r.Some? { router.knownRoutes := router.knownRoutes[name := r.value]; }
    }

    method SendAndReceive(req: Request, id: U64) returns (outcome: Outcome)
      requires Valid()
      modifies socket, processor
      ensures (Link(), outcome) == Exchange(ep, socket.sendOk, old(Link()), req, id)
    {
      var meta := ep.codec.metaToBytes(MetaFor(ep.codec, req, id));
      if meta.None? { return Dropped(Protocol); }
      var metaBytes := processor.PostProcess(meta.value);
      var payload := processor.PostProcess(req.data);
      var ok := socket.Send(metaBytes);
      if !ok { return Dropped(Io); }
      ok := socket.Send(payload);
      if !ok { return Dropped(Io); }
      var ev := WaitForData();
      match ev
      case Frame(b) => outcome := Completed(b);
      case Failed(kind) => outcome := Dropped(BadFrame(kind));
      case EndOfStream => outcome := Dropped(Protocol);
    }

    method ProcessRequest(req: Request)
      requires Valid()
      modifies this`outcomes, socket, processor, router
      ensures var p := Process(ep, socket.sendOk, old(router.knownRoutes), old(Link()), req);
        && router.knownRoutes == p.cache && Link() == p.net && outcomes == old(outcomes) + [p.outcome]
    {
      var id := req.info.id;
      if id.None? {
        if req.info.named.None? {
          outcomes := outcomes + [Dropped(Protocol)];
          return;
        }
        id := RequestRoute(req.info.named.value);
        if id.None? {
          outcomes := outcomes + [Dropped(Router)];
          return;
        }
      }
      var outcome := SendAndReceive(req, id.value);
      outcomes := outcomes + [outcome];
    }

    /** Drains the queue: the outcomes are those of the requests processed one after the other. */
    method ConnectionMain()
      requires Valid()
      modifies this, socket, processor, router
      ensures queue == []
      ensures var p := ProcessAll(ep, socket.sendOk, old(router.knownRoutes), old(Link()), old(queue));
        router.knownRoutes == p.0 && Link() == p.1 && outcomes == old(outcomes) + p.2
    {
      ghost var done: seq<Outcome> := [];
      ghost var cache, net := router.knownRoutes, Link();
      ghost var goal := ProcessAll(ep, socket.sendOk, cache, net, queue);
      assert goal.2 == done + goal.2;
      assert Remains(ep, socket.sendOk, goal, cache, net, queue, done);
      hide ProcessAll, Process, Remains;
      while queue != []
        invariant outcomes == old(outcomes) + done && router.knownRoutes == cache && Link() == net
        invariant Remains(ep, socket.sendOk, goal, cache, net, queue, done)
        decreases |queue|
      {
        ghost var p := Process(ep, socket.sendOk, cache, net, queue[0]);
        RemainsFirst(ep, socket.sendOk, goal, cache, net, queue, done);
        var req := queue[0];
        queue := queue[1..];
        ProcessRequest(req);
        cache, net, done := p.cache, p.net, done + [p.outcome];
      }
      RemainsNone(ep, socket.sendOk, goal, cache, net, done);
    }
  }

  function ProcessAll(ep: Endpoint, ok: nat -> bool, cache: map<string, U64>, net: Net, reqs: seq<Request>)
    : (map<string, U64>, Net, seq<Outcome>)
    decreases |reqs|
  {
    if reqs == [] then (cache, net, [])
    else
      var p := Process(ep, ok, cache, net, reqs[0]);
      var rest := ProcessAll(ep, ok, p.cache, p.net, reqs[1..]);
      (rest.0, rest.1, [p.outcome] + rest.2)
  }

  lemma ProcessAllFirst(ep: Endpoint, ok: nat -> bool, cache: map<string, U64>, net: Net, reqs: seq<Request>)
    ensures reqs == [] ==> ProcessAll(ep, ok, cache, net, reqs) == (cache, net, [])
    ensures reqs != [] ==>
              var p := Process(ep, ok, cache, net, reqs[0]);
              var rest := ProcessAll(ep, ok, p.cache, p.net, reqs[1..]);
              ProcessAll(ep, ok, cache, net, reqs) == (rest.0, rest.1, [p.outcome] + rest.2)
  {
  }

  /** With these outcomes settled and these requests left, processing comes to `goal`. */
  ghost predicate Remains(ep: Endpoint, ok: nat -> bool, goal: (map<string, U64>, Net, seq<Outcome>),
                          cache: map<string, U64>, net: Net, reqs: seq<Request>, done: seq<Outcome>) {
    var p := ProcessAll(ep, ok, cache, net, reqs);
    goal == (p.0, p.1, done + p.2)
  }

  lemma RemainsFirst(ep: Endpoint, ok: nat -> bool, goal: (map<string, U64>, Net, seq<Outcome>),
                     cache: map<string, U64>, net: Net, reqs: seq<Request>, done: seq<Outcome>)
    requires Remains(ep, ok, goal, cache, net, reqs, done) && reqs != []
    ensures var p := Process(ep, ok, cache, net, reqs[0]);
      Remains(ep, ok, goal, p.cache, p.net, reqs[1..], done + [p.outcome])
  {
    ProcessAllFirst(ep, ok, cache, net, reqs);
    hide ProcessAll, Process;
    var p := Process(ep, ok, cache, net, reqs[0]);
    var rest := ProcessAll(ep, ok, p.cache, p.net, reqs[1..]);
    assert done + ([p.outcome] + rest.2) == done + [p.outcome] + rest.2;
  }

  lemma RemainsNone(ep: Endpoint, ok: nat -> bool, goal: (map<string, U64>, Net, seq<Outcome>),
                    cache: map<string, U64>, net: Net, done: seq<Outcome>)
    requires Remains(ep, ok, goal, cache, net, [], done)
    ensures goal == (cache, net, done)
  {
    assert done + [] == done;
  }

  // ----- The automaton takes the same steps -----

  /** The automaton with its transport. */
  datatype World = World(client: Client, inbox: seq<Inbound>, written: seq<Bytes>)

  function Weight(c: Client): nat {
    5 * |c.outbox| + match c.phase
                     case Idle => 0
                     case AwaitAnswer(_) => 1
                     case AwaitName(_, _) => 12
  }

  function Advance(ep: Endpoint, ok: nat -> bool, w: World): World
    requires w.client.phase != Idle
  {
    if w.client.outbox != [] then
      World(Sent(w.client, ok(|w.written|)), w.inbox, w.written + [w.client.outbox[0]])
    else if w.inbox == [] then World(Got(ep, w.client, EndOfStream), w.inbox, w.written)
    else World(Got(ep, w.client, w.inbox[0]), w.inbox[1..], w.written)
  }

  /** Each step uses up some weight, so every request comes to an end. */
  lemma AdvanceUsesWeight(ep: Endpoint, ok: nat -> bool, w: World)
    requires w.client.phase != Idle
    ensures Weight(Advance(ep, ok, w).client) < Weight(w.client)
  {
  }

  function Run(ep: Endpoint, ok: nat -> bool, w: World): World
    decreases Weight(w.client)
  {
    if w.client.phase == Idle then w
    else
      AdvanceUsesWeight(ep, ok, w);
      Run(ep, ok, Advance(ep, ok, w))
  }

  ghost predicate AtRest(w: World, cache: map<string, U64>, net: Net, outcomes: seq<Outcome>) {
    && w.client.phase == Idle && w.client.outbox == []
    && w.client.cache == cache && w.client.outcomes == outcomes
    && Net(w.client.tx, w.client.rx, w.inbox, w.written) == net
  }

  lemma TwoFrames(post: Transform, tx: ProcState, a: Bytes, b: Bytes)
    ensures EncodeAll(post, tx, [a, b]) == [post(tx, a).1, post(post(tx, a).0, b).1]
    ensures TxAfter(post, tx, [a, b]) == post(post(tx, a).0, b).0
  {
    assert [a, b][..1] == [a];
    assert [a][..0] == [];
  }

  lemma ExchangeIsRun(ep: Endpoint, ok: nat -> bool, c: Client, net: Net, req: Request, id: U64)
    requires c.outbox == [] && c.tx == net.tx && c.rx == net.rx
    ensures var x := Exchange(ep, ok, net, req, id);
      AtRest(Run(ep, ok, World(SendRequest(ep, c, req, id), net.inbox, net.written)), c.cache, x.0, c.outcomes + [x.1])
  {
    var meta := ep.codec.metaToBytes(MetaFor(ep.codec, req, id));
    if meta.Some? {
      TwoFrames(ep.post, net.tx, meta.value, req.data);
      var w0 := World(SendRequest(ep, c, req, id), net.inbox, net.written);
      var w1 := Advance(ep, ok, w0);
      if ok(|w0.written|) {
        assert w1.client.outbox == [w0.client.outbox[1]];
        var w2 := Advance(ep, ok, w1);
        if ok(|w1.written|) {
          var w3 := Advance(ep, ok, w2);
          assert Run(ep, ok, w2) == w3;
        }
        assert Run(ep, ok, w1) == Run(ep, ok, w2);
      }
      assert Run(ep, ok, w0) == Run(ep, ok, w1);
    }
  }

  /** Processing a request is running the automaton until it is idle again. */
  lemma ProcessIsRun(ep: Endpoint, ok: nat -> bool, c: Client, net: Net, req: Request)
    requires c.phase == Idle && c.outbox == [] && c.tx == net.tx && c.rx == net.rx
    ensures var p := Process(ep, ok, c.cache, net, req);
      AtRest(Run(ep, ok, World(Begin(ep, c, req), net.inbox, net.written)), p.cache, p.net, c.outcomes + [p.outcome])
  {
    if req.info.id.Some? {
      ExchangeIsRun(ep, ok, c, net, req, req.info.id.value);
    } else if req.info.named.Some? {
      var name := req.info.named.value;
      if name in c.cache {
        ExchangeIsRun(ep, ok, c, net, req, c.cache[name]);
      } else if ep.codec.queryToBytes(name).Some? {
        FetchIsRun(ep, ok, c, net, req, name);
      }
    }
  }

  lemma FetchIsRun(ep: Endpoint, ok: nat -> bool, c: Client, net: Net, req: Request, name: string)
    requires c.phase == Idle && c.outbox == [] && c.tx == net.tx && c.rx == net.rx
    requires req.info.id.None? && req.info.named == Some(name) && name !in c.cache
    requires ep.codec.queryToBytes(name).Some?
    ensures var p := Process(ep, ok, c.cache, net, req);
      AtRest(Run(ep, ok, World(Begin(ep, c, req), net.inbox, net.written)), p.cache, p.net, c.outcomes + [p.outcome])
  {
    var w0 := World(Begin(ep, c, req), net.inbox, net.written);
    var query := ep.codec.queryToBytes(name).value;
    EncodeSnoc(ep.post, net.tx, [], query);
    assert [] + [query] == [query];
    var w1 := Advance(ep, ok, w0);
    assert Run(ep, ok, w0) == Run(ep, ok, w1);
    if ok(|w0.written|) {
      var w2 := Advance(ep, ok, w1);
      assert Run(ep, ok, w1) == Run(ep, ok, w2);
      var (net1, answer) := Fetch(ep, ok, net, name);
      if answer.Some? {
        var c1 := c.(phase := w1.client.phase, emitted := w1.client.emitted, tx := net1.tx, rx := net1.rx,
                     cache := c.cache[name := answer.value], fetched := c.fetched + [name]);
        assert w2 == World(SendRequest(ep, c1, req, answer.value), net1.inbox, net1.written);
        ExchangeIsRun(ep, ok, c1, net1, req, answer.value);
      }
    }
  }

  // ----- The whole queue -----

  lemma {:induction false} RunKeepsQueue(ep: Endpoint, ok: nat -> bool, w: World)
    ensures Run(ep, ok, w).client.queue == w.client.queue && Run(ep, ok, w).client.phase == Idle
    decreases Weight(w.client)
  {
    if w.client.phase != Idle {
      AdvanceUsesWeight(ep, ok, w);
      AdvanceKeepsQueue(ep, ok, w);
      hide Advance;
      RunKeepsQueue(ep, ok, Advance(ep, ok, w));
    }
  }

  lemma AdvanceKeepsQueue(ep: Endpoint, ok: nat -> bool, w: World)
    requires w.client.phase != Idle
    ensures Advance(ep, ok, w).client.queue == w.client.queue
  {
  }

  lemma BeginKeepsQueue(ep: Endpoint, c: Client, req: Request)
    ensures Begin(ep, c, req).queue == c.queue
  {
  }

  /** The automaton over its whole queue: take a request, run until idle, and so on. */
  function RunQueue(ep: Endpoint, ok: nat -> bool, w: World): World
    requires w.client.phase == Idle
    decreases |w.client.queue|
  {
    if w.client.queue == [] then w
    else
      var taken := World(Take(ep, w.client), w.inbox, w.written);
      RunKeepsQueue(ep, ok, taken);
      BeginKeepsQueue(ep, w.client.(queue := w.client.queue[1..]), w.client.queue[0]);
      RunQueue(ep, ok, Run(ep, ok, taken))
  }

  lemma RunQueueFirst(ep: Endpoint, ok: nat -> bool, w: World)
    requires w.client.phase == Idle && w.client.queue != []
    ensures var next := Run(ep, ok, World(Take(ep, w.client), w.inbox, w.written));
      && next.client.phase == Idle && next.client.queue == w.client.queue[1..]
      && RunQueue(ep, ok, w) == RunQueue(ep, ok, next)
  {
    RunKeepsQueue(ep, ok, World(Take(ep, w.client), w.inbox, w.written));
    BeginKeepsQueue(ep, w.client.(queue := w.client.queue[1..]), w.client.queue[0]);
    hide Run, Begin;
  }

  /** Draining the queue, as the task's loop does, is running the automaton over it. */
  lemma {:induction false} ProcessAllIsRun(ep: Endpoint, ok: nat -> bool, c: Client, net: Net)
    requires c.phase == Idle && c.outbox == [] && c.tx == net.tx && c.rx == net.rx
    ensures var p := ProcessAll(ep, ok, c.cache, net, c.queue);
      var w := RunQueue(ep, ok, World(c, net.inbox, net.written));
      AtRest(w, p.0, p.1, c.outcomes + p.2) && w.client.queue == []
    decreases |c.queue|
  {
    hide Run, Process, ProcessAll, Begin;
    ProcessAllFirst(ep, ok, c.cache, net, c.queue);
    if c.queue != [] {
      var req := c.queue[0];
      var w := Run(ep, ok, World(Take(ep, c), net.inbox, net.written));
      var p := Process(ep, ok, c.cache, net, req);
      ProcessIsRun(ep, ok, c.(queue := c.queue[1..]), net, req);
      RunQueueFirst(ep, ok, World(c, net.inbox, net.written));
      ProcessAllIsRun(ep, ok, w.client, p.net);
      assert w == World(w.client, p.net.inbox, p.net.written);
      hide RunQueue;
      var rest := ProcessAll(ep, ok, p.cache, p.net, c.queue[1..]);
      assert c.outcomes + [p.outcome] + rest.2 == c.outcomes + ([p.outcome] + rest.2);
    }
  }
}
