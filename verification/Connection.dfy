/** The server's side of one connection, as an automaton that hears reads, serves packets and
    writes responses, and as the loop that runs it. */
module Connection {
  import opened Wire
  import opened Stream
  import opened PacketService
  import ServerRouter

  datatype Ending = HandedOff(fn: AcceptFn) | Closed

  datatype Packet = Packet(meta: Bytes, payload: Bytes)

  /** Where the loop is: before a header, before a payload, about to call the router, about to
      write the reply, or gone. */
  datatype Phase =
    | AwaitMeta
    | AwaitPayload(meta: Bytes)
    | Serving(packet: Packet)
    | Responding(reply: Reply)
    | Ended(how: Ending)

  datatype Event =
    | Read(frame: Bytes)
    | Served(packet: Packet, reply: Reply)
    | Attempted(message: Bytes, ok: bool, inbox: Option<AcceptFn>)
    | Finish(how: Ending)

  /** The sender held, the message put in the move channel during a call, whether someone else
      may hold the connection's sender, and what has been done so far. */
  datatype Work = Work(
    tx: Option<Sender>, chan: Option<AcceptFn>, kept: bool,
    served: seq<Packet>, calls: seq<Call>, responses: seq<Bytes>)

  datatype Server = Server(phase: Phase, work: Work, trace: seq<Event>, frames: nat, discarded: nat)

  const START := Server(AwaitMeta, Work(Some(OWN), None, false, [], [], []), [], 0, 0)

  /** A frame that decodes as a header announcing a payload. */
  predicate WantsPayload(c: Codec, frame: Bytes) {
    c.accessMeta(frame).Some? && c.accessMeta(frame).value.hasPayload
  }

  function End(s: Server, how: Ending): Server {
    s.(phase := Ended(how), trace := s.trace + [Finish(how)])
  }

  /** One read at either reading point. A read error at payload position throws the header away. */
  function Receive(c: Codec, s: Server, ev: Inbound): Server {
    match s.phase
    case AwaitMeta =>
      (match ev
       case Frame(b) =>
         s.(phase := if WantsPayload(c, b) then AwaitPayload(b) else Serving(Packet(b, [])),
            trace := s.trace + [Read(b)], frames := s.frames + 1)
       case Failed(kind) => if IsFatal(kind) then End(s, Closed) else s
       case EndOfStream => End(s, Closed))
    case AwaitPayload(meta) =>
      (var lost := s.(discarded := s.discarded + 1);
       match ev
       case Frame(b) =>
         s.(phase := Serving(Packet(meta, b)), trace := s.trace + [Read(b)], frames := s.frames + 1)
       case Failed(kind) => if IsFatal(kind) then End(lost, Closed) else lost.(phase := AwaitMeta)
       case EndOfStream => End(lost, Closed))
    case _ => s
  }

  function CallOf(reply: Reply): seq<Call> {
    if reply.call.Some? then [reply.call.value] else []
  }

  function WorkServed(w: Work, p: Packet, reply: Reply): Work {
    Work(reply.returned, if Arrived(reply).Some? then Arrived(reply) else w.chan, StillKept(w.kept, reply),
         w.served + [p], w.calls + CallOf(reply), w.responses)
  }

  function ReplyTo(svc: Service, w: Work, p: Packet): Reply {
    ServePacket(svc, |w.calls|, p.meta, p.payload, w.tx)
  }

  function Serve(svc: Service, s: Server): Server
    requires s.phase.Serving?
  {
    var reply := ReplyTo(svc, s.work, s.phase.packet);
    s.(phase := Responding(reply), work := WorkServed(s.work, s.phase.packet, reply),
       trace := s.trace + [Served(s.phase.packet, reply)])
  }

  /** What the look into the channel after the next write will find. */
  function Inbox(svc: Service, w: Work): Option<AcceptFn> {
    Look(svc, w.chan, w.kept, |w.responses|)
  }

  /** The reply is written, which works or not, and the channel is looked into. */
  function RespondWith(svc: Service, s: Server, ok: bool): Server
    requires s.phase.Responding?
  {
    var message, inbox := s.phase.reply.message, Inbox(svc, s.work);
    var s1 := s.(work := s.work.(responses := s.work.responses + [message]),
                 trace := s.trace + [Attempted(message, ok, inbox)]);
    if inbox.Some? then End(s1, HandedOff(inbox.value))
    else if s.work.tx.None? || !ok then End(s1, Closed)
    else s1.(phase := AwaitMeta)
  }

  function Respond(svc: Service, s: Server): Server
    requires s.phase.Responding?
  {
    RespondWith(svc, s, svc.sendOk(|s.work.responses|))
  }

  /** Run until the next read, or the end. */
  function Settle(svc: Service, s: Server): Server {
    if s.phase.Serving? then Respond(svc, Serve(svc, s))
    else if s.phase.Responding? then Respond(svc, s)
    else s
  }

  // ----- Every run of the server side -----

  datatype Action = Hear(ev: Inbound) | CallRouter | Write

  function Act(svc: Service, s: Server, a: Action): Server {
    match a
    case Hear(ev) => Receive(svc.codec, s, ev)
    case CallRouter => if s.phase.Serving? then Serve(svc, s) else s
    case Write => if s.phase.Responding? then Respond(svc, s) else s
  }

  function After(svc: Service, acts: seq<Action>): Server {
    if acts == [] then START else Act(svc, After(svc, acts[..|acts| - 1]), acts[|acts| - 1])
  }

  function PayloadFrames(c: Codec, ps: seq<Packet>): nat {
    if ps == [] then 0
    else PayloadFrames(c, ps[..|ps| - 1]) + if WantsPayload(c, ps[|ps| - 1].meta) then 1 else 0
  }

  /** Frames read but neither served nor thrown away. */
  function InHand(c: Codec, phase: Phase): nat {
    match phase
    case AwaitPayload(_) => 1
    case Serving(p) => if WantsPayload(c, p.meta) then 2 else 1
    case _ => 0
  }

  ghost predicate Balanced(c: Codec, s: Server) {
    && |s.work.served| == |s.work.responses| + (if s.phase.Responding? then 1 else 0)
    && s.frames == |s.work.served| + PayloadFrames(c, s.work.served) + s.discarded + InHand(c, s.phase)
    && (s.phase.AwaitPayload? ==> WantsPayload(c, s.phase.meta))
  }

  /** One response attempt per served packet, and every frame accounted for, at every point. */
  lemma {:induction false} OneResponsePerPacket(svc: Service, acts: seq<Action>)
    ensures Balanced(svc.codec, After(svc, acts))
  {
    if acts != [] {
      var s := After(svc, acts[..|acts| - 1]);
      OneResponsePerPacket(svc, acts[..|acts| - 1]);
      if s.phase.Serving? {
        assert (s.work.served + [s.phase.packet])[..|s.work.served|] == s.work.served;
      }
    }
  }

  // ----- The move token -----

  ghost predicate HoldsToken(s: Server) {
    match s.phase
    case Responding(_) => s.work.tx == None || (s.work.tx == Some(OWN) && s.work.chan == None && !s.work.kept)
    case Ended(_) => true
    case _ => s.work.tx == Some(OWN) && s.work.chan == None && !s.work.kept
  }

  /** If handlers keep their contract, then whenever the loop reads it holds the live sender of
      its channel, nobody else does, and the channel is empty. */
  lemma {:induction false} TokenConserved(svc: Service, acts: seq<Action>)
    requires HonoursToken(svc.handler)
    ensures HoldsToken(After(svc, acts))
  {
    if acts != [] {
      TokenConserved(svc, acts[..|acts| - 1]);
    }
  }

  /** The contract is needed: a handler that returns a sender of its own leaves the loop reading
      with a sender that feeds another channel, and its own sender out of its hands. */
  lemma ForeignSenderLosesToken(svc: Service, frame: Bytes, t: SType, id: U64, route: ServerRouter.Route, other: Sender)
    requires svc.codec.accessMeta(frame) == Some(PacketMeta(svc.codec.typeToNumber(t), id, false))
    requires Lawful(svc.codec) && svc.sendOk(0) && other != OWN && svc.late(0) == None
    requires ServerRouter.Scan(svc.eq, svc.routes, ServerRouter.TypeTuple({t}, id)) == Some(route)
    requires svc.handler(0, route, t, [], Some(OWN)) == Finished(Ok([]), None, Some(other))
    ensures var s := After(svc, [Hear(Frame(frame)), CallRouter, Write]);
      s.phase == AwaitMeta && s.work.tx == Some(other) && s.work.kept
  {
    var s1 := Receive(svc.codec, START, Frame(frame));
    assert [Hear(Frame(frame)), CallRouter, Write][..2] == [Hear(Frame(frame)), CallRouter];
    assert [Hear(Frame(frame)), CallRouter][..1] == [Hear(Frame(frame))];
    assert After(svc, [Hear(Frame(frame))]) == s1;
    assert After(svc, [Hear(Frame(frame)), CallRouter]) == Serve(svc, s1);
  }

  /** The handler gave back the connection's sender only if this very call was given it, and had
      not used it. Senders cannot be copied, so this fails only of a handler that gives back the
      connection's sender after an earlier call had put it away. */
  predicate Owned(c: Call) {
    c.result.Finished? && c.result.returned == Some(OWN) ==> c.given == Some(OWN) && c.result.sent == None
  }

  predicate GaveBack(c: Call) {
    c.result.Finished? && c.result.returned == c.given
  }

  ghost predicate AllGaveBack(calls: seq<Call>) {
    forall i :: 0 <= i < |calls| ==> GaveBack(calls[i])
  }

  ghost predicate AllOwned(calls: seq<Call>) {
    forall i :: 0 <= i < |calls| ==> Owned(calls[i])
  }

  /** The loop will read (on) with the sender it now has. */
  predicate WillRead(s: Server) {
    match s.phase
    case Responding(reply) => GoesOn(reply)
    case Ended(_) => false
    case _ => true
  }

  lemma ServeKeepsToken(svc: Service, s: Server)
    requires s.phase.Serving? && AllOwned(Serve(svc, s).work.calls)
    requires s.work.tx == Some(OWN) <==> AllGaveBack(s.work.calls)
    ensures var s' := Serve(svc, s);
      WillRead(s') ==> (s'.work.tx == Some(OWN) <==> AllGaveBack(s'.work.calls))
  {
    var calls, calls' := s.work.calls, Serve(svc, s).work.calls;
    if |calls'| > |calls| {
      assert Owned(calls'[|calls|]);
      assert forall i :: 0 <= i < |calls| ==> calls'[i] == calls[i];
      assert AllGaveBack(calls') <==> AllGaveBack(calls) && GaveBack(calls'[|calls|]);
    } else {
      assert calls' == calls;
    }
  }

  /** The exact condition, run by run: while the loop reads, it holds its own sender if and only
      if every handler it called gave back the sender it was given. */
  lemma {:induction false} TokenConservedIff(svc: Service, acts: seq<Action>)
    requires AllOwned(After(svc, acts).work.calls)
    ensures var s := After(svc, acts);
      WillRead(s) ==> (s.work.tx == Some(OWN) <==> AllGaveBack(s.work.calls))
  {
    if acts != [] {
      var s, s' := After(svc, acts[..|acts| - 1]), After(svc, acts);
      assert forall i :: 0 <= i < |s.work.calls| ==> s.work.calls[i] == s'.work.calls[i];
      TokenConservedIff(svc, acts[..|acts| - 1]);
      RunIsOrderly(svc, acts[..|acts| - 1]);
      hide ServePacket;
      if acts[|acts| - 1].CallRouter? && s.phase.Serving? {
        ServeKeepsToken(svc, s);
      }
    }
  }

  // ----- Order of events -----

  /** What the handler of a packet sent through the connection's sender during its call. */
  ghost function SentOwn(reply: Reply): Option<AcceptFn> {
    match reply.call
    case Some(Call(_, _, _, Some(tx), Finished(_, sent, _))) => if tx == OWN then sent else None
    case Some(Call(_, _, _, Some(tx), Panicked(sent))) => if tx == OWN then sent else None
    case _ => None
  }

  /** A packet whose handler was given the connection's sender and neither used it during the
      call nor gave it back. */
  predicate Keeps(e: Event) {
    && e.Served? && e.reply.call.Some? && e.reply.call.value.given == Some(OWN)
    && e.reply.returned != Some(OWN) && e.reply.call.value.result.sent == None
  }

  ghost predicate SomeKeeper(t: seq<Event>) {
    exists j :: 0 <= j < |t| && Keeps(t[j])
  }

  lemma KeeperStays(t: seq<Event>, more: seq<Event>)
    requires SomeKeeper(t)
    ensures SomeKeeper(t + more)
  {
    var j :| 0 <= j < |t| && Keeps(t[j]);
    assert (t + more)[j] == t[j];
  }

  /** What the loop must do after attempting to write a reply and looking into the channel; None
      is to go on reading. */
  function Verdict(reply: Reply, ok: bool, inbox: Option<AcceptFn>): Option<Ending> {
    if inbox.Some? then Some(HandedOff(inbox.value))
    else if reply.returned.None? || !ok then Some(Closed)
    else None
  }

  /** Event `e` may come next after the events of `t`. */
  ghost predicate Follows(t: seq<Event>, e: Event) {
    if t == [] then e.Read? || e == Finish(Closed)
    else
      match t[|t| - 1]
      case Read(_) => e.Read? || e.Served? || e == Finish(Closed)
      case Served(_, reply) =>
        && e.Attempted? && e.message == reply.message
        && (SentOwn(reply).Some? ==> e.inbox == SentOwn(reply))
        && (SentOwn(reply).None? && e.inbox.Some? ==> SomeKeeper(t))
      case Attempted(_, ok, inbox) =>
        && |t| >= 2 && t[|t| - 2].Served?
        && (match Verdict(t[|t| - 2].reply, ok, inbox)
            case Some(how) => e == Finish(how)
            case None => e.Read? || e == Finish(Closed))
      case Finish(_) => false
  }

  ghost predicate Orderly(t: seq<Event>) {
    t == [] || (Orderly(t[..|t| - 1]) && Follows(t[..|t| - 1], t[|t| - 1]))
  }

  lemma Append(t: seq<Event>, e: Event)
    requires Orderly(t) && Follows(t, e)
    ensures Orderly(t + [e])
  {
    assert (t + [e])[..|t|] == t;
  }

  lemma {:induction false} OrderlyAt(t: seq<Event>, i: nat)
    requires Orderly(t) && i < |t|
    ensures Orderly(t[..i]) && Follows(t[..i], t[i])
  {
    if i < |t| - 1 {
      OrderlyAt(t[..|t| - 1], i);
      assert t[..|t| - 1][..i] == t[..i];
    }
  }

  /** The last written reply lets the loop read on. */
  ghost predicate ReadsOn(t: seq<Event>) {
    && |t| >= 2 && t[|t| - 1].Attempted? && t[|t| - 2].Served?
    && Verdict(t[|t| - 2].reply, t[|t| - 1].ok, t[|t| - 1].inbox) == None
  }

  /** The trace agrees with where the loop is. */
  ghost predicate TraceFits(s: Server) {
    var t := s.trace;
    && Orderly(t)
    && (s.work.kept ==> SomeKeeper(t))
    && (match s.phase
        case AwaitMeta => (t == [] || t[|t| - 1].Read? || ReadsOn(t)) && s.work.chan == None && s.work.tx.Some?
        case AwaitPayload(_) => t != [] && t[|t| - 1].Read? && s.work.chan == None && s.work.tx.Some?
        case Serving(_) => t != [] && t[|t| - 1].Read? && s.work.chan == None && s.work.tx.Some?
        case Responding(reply) =>
          && t != [] && t[|t| - 1].Served? && t[|t| - 1].reply == reply
          && s.work.chan == Arrived(reply) && s.work.tx == reply.returned
          && (reply.call.None? ==> reply.returned.Some?)
        case Ended(how) => t != [] && t[|t| - 1] == Finish(how))
  }

  lemma RespondFits(svc: Service, s: Server)
    requires TraceFits(s) && s.phase.Responding?
    ensures TraceFits(Respond(svc, s))
  {
    var ok, inbox := svc.sendOk(|s.work.responses|), Inbox(svc, s.work);
    var e := Attempted(s.phase.reply.message, ok, inbox);
    var t1 := s.trace + [e];
    Append(s.trace, e);
    assert t1[|t1| - 2] == s.trace[|s.trace| - 1];
    if s.work.kept { KeeperStays(s.trace, [e]); }
    if Verdict(s.phase.reply, ok, inbox).Some? {
      var last := Finish(Verdict(s.phase.reply, ok, inbox).value);
      Append(t1, last);
      if s.work.kept { KeeperStays(t1, [last]); }
    }
  }

  lemma ServeFits(svc: Service, s: Server)
    requires TraceFits(s) && s.phase.Serving?
    ensures TraceFits(Serve(svc, s))
  {
    GoesOnIff(svc, |s.work.calls|, s.phase.packet.meta, s.phase.packet.payload, s.work.tx);
    hide ServePacket;
    var reply := ReplyTo(svc, s.work, s.phase.packet);
    var e := Served(s.phase.packet, reply);
    Append(s.trace, e);
    if s.work.kept {
      KeeperStays(s.trace, [e]);
    } else if StillKept(s.work.kept, reply) {
      assert Keeps((s.trace + [e])[|s.trace|]);
    }
  }

  /** While the loop reads, a frame or the end may come. */
  lemma MayReadOrClose(s: Server, b: Bytes)
    requires TraceFits(s) && (s.phase.AwaitMeta? || s.phase.AwaitPayload?)
    ensures Follows(s.trace, Read(b)) && Follows(s.trace, Finish(Closed))
  {
    hide Orderly, SomeKeeper;
  }

  lemma ReadFits(c: Codec, s: Server, b: Bytes)
    requires TraceFits(s)
    ensures TraceFits(Receive(c, s, Frame(b)))
  {
    hide Orderly, Follows, SomeKeeper, ReadsOn;
    if s.phase.AwaitMeta? || s.phase.AwaitPayload? {
      MayReadOrClose(s, b);
      Append(s.trace, Read(b));
      if s.work.kept { KeeperStays(s.trace, [Read(b)]); }
    }
  }

  lemma FailureFits(c: Codec, s: Server, ev: Inbound)
    requires TraceFits(s) && !ev.Frame?
    ensures TraceFits(Receive(c, s, ev))
  {
    hide Orderly, Follows, SomeKeeper, ReadsOn;
    if s.phase.AwaitMeta? || s.phase.AwaitPayload? {
      MayReadOrClose(s, []);
      Append(s.trace, Finish(Closed));
      if s.work.kept { KeeperStays(s.trace, [Finish(Closed)]); }
    }
  }

  /** Every run's trace is orderly and agrees with where the loop is. */
  lemma {:induction false} RunIsOrderly(svc: Service, acts: seq<Action>)
    ensures TraceFits(After(svc, acts))
  {
    if acts != [] {
      var s := After(svc, acts[..|acts| - 1]);
      RunIsOrderly(svc, acts[..|acts| - 1]);
      hide TraceFits, Receive, Serve, Respond;
      match acts[|acts| - 1]
      case Hear(ev) => if ev.Frame? { ReadFits(svc.codec, s, ev.bytes); } else { FailureFits(svc.codec, s, ev); }
      case CallRouter => if s.phase.Serving? { ServeFits(svc, s); }
      case Write => if s.phase.Responding? { RespondFits(svc, s); }
    }
  }

  /** Whether the loop goes on after a reply, in every run: if the write worked, the reply by
      itself lets it, and nothing has come from someone who kept the connection's sender. A
      packet that reached no handler ends it only in the first or the last way, the last only
      if an earlier handler kept the sender. */
  lemma GoesOnAfter(svc: Service, acts: seq<Action>)
    requires After(svc, acts).phase.Responding?
    ensures var s := After(svc, acts);
      var (reply, n) := (s.phase.reply, |s.work.responses|);
      var late := s.work.kept && svc.late(n).Some?;
      && (Respond(svc, s).phase == AwaitMeta <==> svc.sendOk(n) && GoesOn(reply) && !late)
      && (reply.call.None? ==> (Respond(svc, s).phase.Ended? <==> !svc.sendOk(n) || late))
      && (s.work.kept ==> SomeKeeper(s.trace))
  {
    RunIsOrderly(svc, acts);
  }

  /** Exactly when a reply is followed by a hand-off, and to what, in every run and whether or not
      the write works: if the handler was given the connection's sender and sent `fn` through it
      during the call, or, if it sent nothing, if someone who has the sender had sent `fn` by
      then. */
  lemma HandOffIff(svc: Service, acts: seq<Action>, fn: AcceptFn)
    requires After(svc, acts).phase.Responding?
    ensures var s := After(svc, acts);
      var call := s.phase.reply.call;
      var own := call.Some? && call.value.given == Some(OWN);
      Respond(svc, s).phase == Ended(HandedOff(fn)) <==>
        || (own && call.value.result.sent == Some(fn))
        || (!(own && call.value.result.sent.Some?) && s.work.kept && svc.late(|s.work.responses|) == Some(fn))
  {
    RunIsOrderly(svc, acts);
  }

  /** In the events of `t` the packet at `j` was the last whose handler had the connection's sender:
      it kept it, and no later one gave it back. */
  ghost predicate OutSince(t: seq<Event>, j: nat) {
    && j < |t| && Keeps(t[j])
    && forall i :: j < i < |t| && t[i].Served? && t[i].reply.call.Some? ==> t[i].reply.returned != Some(OWN)
  }

  ghost predicate IsOut(t: seq<Event>) {
    exists j: nat :: OutSince(t, j)
  }

  /** An event that is no handler call changes nothing. */
  lemma OutStill(t: seq<Event>, e: Event)
    requires !(e.Served? && e.reply.call.Some?)
    ensures IsOut(t + [e]) <==> IsOut(t)
  {
    if IsOut(t) {
      var j: nat :| OutSince(t, j);
      assert OutSince(t + [e], j);
    }
    if IsOut(t + [e]) {
      var j: nat :| OutSince(t + [e], j);
      assert forall i :: 0 <= i < |t| ==> (t + [e])[i] == t[i];
      assert OutSince(t, j);
    }
  }

  lemma OutAfterCall(t: seq<Event>, e: Event)
    requires e.Served? && e.reply.call.Some?
    ensures IsOut(t + [e]) <==> Keeps(e) || (IsOut(t) && e.reply.returned != Some(OWN))
  {
    var t' := t + [e];
    assert forall i :: 0 <= i < |t| ==> t'[i] == t[i];
    if Keeps(e) { assert OutSince(t', |t|); }
    if IsOut(t) && e.reply.returned != Some(OWN) {
      var j: nat :| OutSince(t, j);
      assert OutSince(t', j);
    }
    if IsOut(t') && !Keeps(e) {
      var j: nat :| OutSince(t', j);
      assert t'[|t|] == e && OutSince(t, j);
    }
  }

  lemma ServeKeepsOut(svc: Service, s: Server)
    requires s.phase.Serving? && (s.work.kept <==> IsOut(s.trace)) && (s.work.kept ==> s.work.tx != Some(OWN))
    requires s.work.chan == None
    ensures var s' := Serve(svc, s);
      Arrived(s'.phase.reply).None? ==>
        (s'.work.kept <==> IsOut(s'.trace)) && (s'.work.kept ==> s'.work.tx != Some(OWN))
  {
    hide IsOut;
    var p := s.phase.packet;
    var reply := ReplyTo(svc, s.work, p);
    CalledIff(svc, |s.work.calls|, p.meta, p.payload, s.work.tx);
    if reply.call.Some? {
      CallAndReply(svc, |s.work.calls|, p.meta, p.payload, s.work.tx);
      OutAfterCall(s.trace, Served(p, reply));
    } else {
      OutStill(s.trace, Served(p, reply));
    }
    hide ServePacket;
  }

  /** Whether the connection's sender may be in other hands, in every run that still goes on: if
      some handler kept it and no later one gave it back. */
  lemma {:induction false} KeptIff(svc: Service, acts: seq<Action>)
    ensures var s := After(svc, acts);
      !s.phase.Ended? && !(s.phase.Responding? && s.work.chan.Some?) ==>
        (s.work.kept <==> IsOut(s.trace)) && (s.work.kept ==> s.work.tx != Some(OWN))
  {
    if acts == [] {
      assert !IsOut([]);
    } else {
      var before, a := acts[..|acts| - 1], acts[|acts| - 1];
      var s := After(svc, before);
      KeptIff(svc, before);
      RunIsOrderly(svc, before);
      hide IsOut, Orderly, ServePacket;
      match a
      case Hear(ev) => if ev.Frame? { OutStill(s.trace, Read(ev.bytes)); }
      case CallRouter => if s.phase.Serving? { ServeKeepsOut(svc, s); }
      case Write =>
        if s.phase.Responding? {
          OutStill(s.trace, Attempted(s.phase.reply.message, svc.sendOk(|s.work.responses|), Inbox(svc, s.work)));
        }
    }
  }

  /** The message of a hand-off comes through the connection's sender: from the handler of the
      packet just answered, during its call, or from someone who kept the sender. */
  ghost predicate FromTheChannel(t: seq<Event>, i: nat, fn: AcceptFn)
    requires 2 <= i <= |t|
  {
    && t[i - 1].Attempted? && t[i - 1].inbox == Some(fn) && t[i - 2].Served?
    && t[i - 1].message == t[i - 2].reply.message
    && var call := t[i - 2].reply.call;
    if call.Some? && call.value.given == Some(OWN) && call.value.result.sent.Some?
    then call.value.result.sent == Some(fn)
    else SomeKeeper(t[..i - 1])
  }

  lemma FinishIsLast(t: seq<Event>, i: nat)
    requires Orderly(t) && i < |t| && t[i].Finish?
    ensures i == |t| - 1
    ensures t[i].how.HandedOff? ==> i >= 2 && FromTheChannel(t, i, t[i].how.fn)
  {
    OrderlyAt(t, i);
    if i < |t| - 1 { OrderlyAt(t, i + 1); }
    if t[i].how.HandedOff? { OrderlyAt(t, i - 1); }
  }

  /** Hand-off happens at most once, as the last thing, right after the attempt to write a reply,
      whether or not the write worked, with the function found in the channel. */
  lemma HandOffSafety(svc: Service, acts: seq<Action>, i: nat)
    requires i < |After(svc, acts).trace| && After(svc, acts).trace[i].Finish?
    ensures var t := After(svc, acts).trace;
      i == |t| - 1 && (t[i].how.HandedOff? ==> i >= 2 && FromTheChannel(t, i, t[i].how.fn))
  {
    RunIsOrderly(svc, acts);
    FinishIsLast(After(svc, acts).trace, i);
  }

  /** If handlers keep their contract, only the handler of the last packet served can have kept
      the sender. */
  lemma {:induction false} OnlyLastKeeps(svc: Service, acts: seq<Action>, j: nat)
    requires HonoursToken(svc.handler) && j < |After(svc, acts).trace| && Keeps(After(svc, acts).trace[j])
    ensures forall i :: j < i < |After(svc, acts).trace| ==> !After(svc, acts).trace[i].Served?
    ensures After(svc, acts).phase.Ended? || After(svc, acts).work.tx == None
  {
    var s' := After(svc, acts);
    var before := acts[..|acts| - 1];
    var s := After(svc, before);
    TokenConserved(svc, before);
    if j < |s.trace| {
      assert s'.trace[j] == s.trace[j];
      OnlyLastKeeps(svc, before, j);
    }
  }

  /** Under the contract a hand-off is the doing of the handler of the packet just answered: it
      sent the function during the call, or kept the sender and sent it before the look. */
  lemma HandOffIsOwnHandlers(svc: Service, acts: seq<Action>, i: nat)
    requires HonoursToken(svc.handler) && i < |After(svc, acts).trace| && After(svc, acts).trace[i].Finish?
    requires After(svc, acts).trace[i].how.HandedOff?
    ensures var t := After(svc, acts).trace;
      i >= 2 && t[i - 2].Served? && t[i - 2].reply.call.Some? && t[i - 2].reply.call.value.given == Some(OWN) &&
      (t[i - 2].reply.call.value.result.sent == Some(t[i].how.fn) || Keeps(t[i - 2]))
  {
    var t := After(svc, acts).trace;
    HandOffSafety(svc, acts, i);
    if SentOwn(t[i - 2].reply) == None {
      var j :| 0 <= j < i - 1 && Keeps(t[..i - 1][j]);
      OnlyLastKeeps(svc, acts, j);
    }
  }

  /** After the end nothing is read, served or written, whatever is tried. */
  lemma {:induction false} EndIsFinal(svc: Service, acts: seq<Action>, more: seq<Action>)
    requires After(svc, acts).phase.Ended?
    ensures After(svc, acts + more) == After(svc, acts)
  {
    if more == [] {
      assert acts + more == acts;
    } else {
      EndIsFinal(svc, acts, more[..|more| - 1]);
      assert (acts + more)[..|acts + more| - 1] == acts + more[..|more| - 1];
    }
  }

  /** A served packet whose handler panicked. */
  predicate IsPanic(e: Event) {
    e.Served? && e.reply.call.Some? && e.reply.call.value.result.Panicked?
  }

  lemma {:induction false} PanicReply(svc: Service, acts: seq<Action>, i: nat)
    requires i < |After(svc, acts).trace| && IsPanic(After(svc, acts).trace[i])
    ensures var reply := After(svc, acts).trace[i].reply;
      reply.returned == None && reply.message == svc.codec.errorToBytes(InternalError(HANDLER_DIED))
  {
    var before := acts[..|acts| - 1];
    if i < |After(svc, before).trace| {
      assert After(svc, before).trace[i] == After(svc, acts).trace[i];
      PanicReply(svc, before, i);
    }
  }

  /** A reply that gives no sender back is written, and then the loop ends. */
  lemma NoReplyNoMore(s: Server, i: nat)
    requires TraceFits(s) && i < |s.trace| && s.trace[i].Served? && s.trace[i].reply.returned == None
    ensures var t := s.trace;
      var reply := t[i].reply;
      if i == |t| - 1 then s.phase == Responding(reply)
      else
        && |t| == i + 3
        && t[i + 1].Attempted? && t[i + 1].message == reply.message
        && (reply.call.Some? && reply.call.value.given == Some(OWN) && reply.call.value.result.sent.Some? ==>
              t[i + 1].inbox == reply.call.value.result.sent)
        && t[i + 2] == Finish(if t[i + 1].inbox.Some? then HandedOff(t[i + 1].inbox.value) else Closed)
        && s.phase == Ended(t[i + 2].how)
  {
    var t := s.trace;
    if i < |t| - 1 { OrderlyAt(t, i + 1); }
    if i < |t| - 2 {
      OrderlyAt(t, i + 2);
      FinishIsLast(t, i + 2);
    }
  }

  /** A panic is answered by one internal error, after which the loop ends: by hand-off if the
      channel holds something by then, as it does if the handler had sent through the
      connection's sender, and by closing otherwise. Until then the loop is at the write. */
  lemma PanicContained(svc: Service, acts: seq<Action>, i: nat)
    requires i < |After(svc, acts).trace| && IsPanic(After(svc, acts).trace[i])
    ensures var s := After(svc, acts);
      var t := s.trace;
      var reply := t[i].reply;
      if i == |t| - 1 then s.phase == Responding(reply)
      else
        && |t| == i + 3
        && t[i + 1].Attempted? && (exists text :: Spells(text, "handler died :(") &&
                                                  t[i + 1].message == svc.codec.errorToBytes(InternalError(text)))
        && (reply.call.Some? && reply.call.value.given == Some(OWN) && reply.call.value.result.sent.Some? ==>
              t[i + 1].inbox == reply.call.value.result.sent)
        && t[i + 2] == Finish(if t[i + 1].inbox.Some? then HandedOff(t[i + 1].inbox.value) else Closed)
        && s.phase == Ended(t[i + 2].how)
  {
    RunIsOrderly(svc, acts);
    PanicReply(svc, acts, i);
    HandlerDiedText();
    NoReplyNoMore(After(svc, acts), i);
  }
}
