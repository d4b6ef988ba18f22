/** The connection loop: what it serves, said by cutting its reads into packets, and the loop
    itself, which computes just that. */
module ConnectionLoop {
  import opened Wire
  import opened TrafficLink
  import opened Stream
  import opened PacketService
  import opened Connection

  /** The packets in a sequence of reads. A recoverable error in place of a payload throws the
      header away, and the next frame is a header again. */
  function Segment(c: Codec, evs: seq<Inbound>): seq<Packet>
    decreases |evs|
  {
    if evs == [] then []
    else
      match evs[0]
      case EndOfStream => []
      case Failed(kind) => if IsFatal(kind) then [] else Segment(c, evs[1..])
      case Frame(b) =>
        if !WantsPayload(c, b) then [Packet(b, [])] + Segment(c, evs[1..])
        else if |evs| == 1 then []
        else
          match evs[1]
          case EndOfStream => []
          case Failed(kind) => if IsFatal(kind) then [] else Segment(c, evs[2..])
          case Frame(p) => [Packet(b, p)] + Segment(c, evs[2..])
  }

  /** What read errors do to the packets, kind by kind: a reset, an abort, a broken pipe, an
      unexpected end of file and the end of the stream end them; a frame over the size limit, or
      any other error, is passed over, taking a header that waits for its payload with it. */
  lemma ErrorsInSegments(c: Codec, header: Bytes, ev: Inbound, evs: seq<Inbound>)
    requires WantsPayload(c, header)
    ensures ev in [Failed(InvalidData), Failed(OtherError)] ==>
              && Segment(c, [ev] + evs) == Segment(c, evs)
              && Segment(c, [Frame(header)] + ([ev] + evs)) == Segment(c, evs)
    ensures (ev in [Failed(ConnectionReset), Failed(ConnectionAborted), Failed(BrokenPipe), Failed(UnexpectedEof),
                    EndOfStream]) ==>
              && Segment(c, [ev] + evs) == []
              && Segment(c, [Frame(header)] + ([ev] + evs)) == []
  {
    if !ev.Frame? { SegmentError(c, header, ev, evs); }
    hide Segment;
  }

  lemma SegmentError(c: Codec, header: Bytes, ev: Inbound, evs: seq<Inbound>)
    requires WantsPayload(c, header) && !ev.Frame?
    ensures var rest := if ev.Failed? && !IsFatal(ev.kind) then Segment(c, evs) else [];
      Segment(c, [ev] + evs) == rest && Segment(c, [Frame(header)] + ([ev] + evs)) == rest
  {
    hide WantsPayload, IsFatal;
    assert ([ev] + evs)[1..] == evs;
    var all := [Frame(header)] + ([ev] + evs);
    assert all[0] == Frame(header) && all[1] == ev && all[2..] == evs;
  }

  /** And what they do to a loop that reads: it closes, or reads on from a header, its work being
      what it was. */
  lemma ErrorsInLoop(c: Codec, s: Server, ev: Inbound)
    requires s.phase.AwaitMeta? || s.phase.AwaitPayload?
    ensures ev in [Failed(InvalidData), Failed(OtherError)] ==> Receive(c, s, ev).phase == AwaitMeta
    ensures (ev in [Failed(ConnectionReset), Failed(ConnectionAborted), Failed(BrokenPipe), Failed(UnexpectedEof),
                    EndOfStream]) ==> Receive(c, s, ev).phase == Ended(Closed)
    ensures Receive(c, s, ev).work == s.work
  {
  }

  /** The reply to a packet, and the work done once it has been written. */
  function AfterPacket(svc: Service, w: Work, p: Packet): Work {
    var reply := ReplyTo(svc, w, p);
    WorkServed(w, p, reply).(responses := w.responses + [reply.message])
  }

  predicate Stops(svc: Service, w: Work, p: Packet) {
    var reply := ReplyTo(svc, w, p);
    Verdict(reply, svc.sendOk(|w.responses|), Inbox(svc, WorkServed(w, p, reply))).Some?
  }

  /** Serving packets in turn, up to the one that stops the loop. */
  function ServeAll(svc: Service, w: Work, ps: seq<Packet>): Work
    decreases |ps|
  {
    if ps == [] then w
    else
      var w' := AfterPacket(svc, w, ps[0]);
      if Stops(svc, w, ps[0]) then w' else ServeAll(svc, w', ps[1..])
  }

  /** The automaton run over a sequence of reads that ends the stream. */
  function Drive(svc: Service, s: Server, evs: seq<Inbound>): (r: Server)
    requires !s.phase.Serving? && !s.phase.Responding?
    ensures r.phase.Ended?
    decreases |evs|
  {
    if s.phase.Ended? then s
    else if evs == [] then Receive(svc.codec, s, EndOfStream)
    else Drive(svc, Settle(svc, Receive(svc.codec, s, evs[0])), evs[1..])
  }

  lemma SettlePacket(svc: Service, s: Server)
    requires s.phase.Serving? && s.work.chan == None
    ensures var r := Settle(svc, s);
      && r.work == AfterPacket(svc, s.work, s.phase.packet)
      && (if Stops(svc, s.work, s.phase.packet) then r.phase.Ended?
          else r.phase == AwaitMeta && r.work.chan == None)
  {
  }

  /** The loop serves the packets of its reads, in order, until one stops it: all that it does
      depends on its reads only through their segmentation. */
  lemma {:induction false} LoopServesSegments(svc: Service, s: Server, evs: seq<Inbound>)
    requires s.phase == AwaitMeta && s.work.chan == None
    ensures Drive(svc, s, evs).work == ServeAll(svc, s.work, Segment(svc.codec, evs))
    decreases |evs|
  {
    if evs != [] {
      var s1 := Receive(svc.codec, s, evs[0]);
      match s1.phase
      case Serving(p) =>
        SettlePacket(svc, s1);
        if !Stops(svc, s.work, p) { LoopServesSegments(svc, Settle(svc, s1), evs[1..]); }
        assert ([p] + Segment(svc.codec, evs[1..]))[1..] == Segment(svc.codec, evs[1..]);
      case AwaitPayload(b) => PayloadCase(svc, s1, evs[1..]);
      case AwaitMeta => LoopServesSegments(svc, s1, evs[1..]);
      case _ =>
    }
  }

  lemma {:induction false} PayloadCase(svc: Service, s1: Server, evs: seq<Inbound>)
    requires s1.phase.AwaitPayload? && s1.work.chan == None
    ensures var ps := match (if evs == [] then EndOfStream else evs[0])
                      case Frame(p) => [Packet(s1.phase.meta, p)] + Segment(svc.codec, evs[1..])
                      case Failed(kind) => if IsFatal(kind) then [] else Segment(svc.codec, evs[1..])
                      case EndOfStream => [];
      Drive(svc, s1, evs).work == ServeAll(svc, s1.work, ps)
    decreases |evs|
  {
    if evs != [] {
      var s2 := Receive(svc.codec, s1, evs[0]);
      match s2.phase
      case Serving(p) =>
        SettlePacket(svc, s2);
        if !Stops(svc, s1.work, p) { LoopServesSegments(svc, Settle(svc, s2), evs[1..]); }
        assert ([p] + Segment(svc.codec, evs[1..]))[1..] == Segment(svc.codec, evs[1..]);
      case AwaitMeta => LoopServesSegments(svc, s2, evs[1..]);
      case _ =>
    }
  }

  /** How many packets are served before one stops the loop, that one included. */
  function ServedCount(svc: Service, w: Work, ps: seq<Packet>): (k: nat)
    ensures k <= |ps|
    decreases |ps|
  {
    if ps == [] then 0
    else if Stops(svc, w, ps[0]) then 1
    else 1 + ServedCount(svc, AfterPacket(svc, w, ps[0]), ps[1..])
  }

  /** The packets served are the first ones of the segmentation, one response each. */
  lemma {:induction false} ServedIsPrefix(svc: Service, w: Work, ps: seq<Packet>)
    ensures ServeAll(svc, w, ps).served == w.served + ps[..ServedCount(svc, w, ps)]
    ensures |ServeAll(svc, w, ps).responses| == |w.responses| + ServedCount(svc, w, ps)
    decreases |ps|
  {
    if ps != [] {
      var w' := AfterPacket(svc, w, ps[0]);
      assert w'.served == w.served + [ps[0]] && |w'.responses| == |w.responses| + 1;
      if Stops(svc, w, ps[0]) {
        assert ps[..1] == [ps[0]];
      } else {
        ServedIsPrefix(svc, w', ps[1..]);
        var j := ServedCount(svc, w', ps[1..]);
        assert ps[..j + 1] == [ps[0]] + ps[1..][..j];
      }
    }
  }

  /** They are all served, unless the last one served stops the loop. */
  lemma {:induction false} StopsOnlyAtLast(svc: Service, w: Work, ps: seq<Packet>)
    ensures var k := ServedCount(svc, w, ps);
      k < |ps| ==> k > 0 && Stops(svc, ServeAll(svc, w, ps[..k - 1]), ps[k - 1])
    decreases |ps|
  {
    if ps != [] && !Stops(svc, w, ps[0]) {
      var w' := AfterPacket(svc, w, ps[0]);
      StopsOnlyAtLast(svc, w', ps[1..]);
      var j := ServedCount(svc, w', ps[1..]);
      if j < |ps[1..]| {
        assert ps[..j][1..] == ps[1..][..j - 1];
      }
    }
  }

  /** Reads and what follows from each, as actions of the server side: the run of a connection
      is one of the runs that `Connection` speaks of. */
  lemma {:induction false} DriveIsRun(svc: Service, acts: seq<Action>, evs: seq<Inbound>) returns (all: seq<Action>)
    requires !After(svc, acts).phase.Serving? && !After(svc, acts).phase.Responding?
    ensures acts <= all && After(svc, all) == Drive(svc, After(svc, acts), evs)
    decreases |evs|
  {
    hide Receive, Serve, Respond;
    var s := After(svc, acts);
    all := acts;
    if !s.phase.Ended? {
      var ev := if evs == [] then EndOfStream else evs[0];
      OneMoreAct(svc, all, Hear(ev));
      all := all + [Hear(ev)];
      if evs != [] {
        var s1 := After(svc, all);
        ReceivedPhase(svc.codec, s, ev);
        if s1.phase.Serving? {
          OneMoreAct(svc, all, CallRouter);
          OneMoreAct(svc, all + [CallRouter], Write);
          all := all + [CallRouter] + [Write];
        }
        SettledPhase(svc, s1);
        all := DriveIsRun(svc, all, evs[1..]);
      }
    }
  }

  lemma OneMoreAct(svc: Service, acts: seq<Action>, a: Action)
    ensures After(svc, acts + [a]) == Act(svc, After(svc, acts), a)
  {
    assert (acts + [a])[..|acts|] == acts;
  }

  lemma ReceivedPhase(c: Codec, s: Server, ev: Inbound)
    requires s.phase.AwaitMeta? || s.phase.AwaitPayload?
    ensures !Receive(c, s, ev).phase.Responding?
  {
  }

  lemma SettledPhase(svc: Service, s: Server)
    ensures !Settle(svc, s).phase.Serving? && !Settle(svc, s).phase.Responding?
    ensures s.phase.Serving? ==> Serve(svc, s).phase.Responding?
  {
  }

  /** What the loop itself keeps besides the connection: the sender it holds, and, standing for
      what the rest of the process has done, whether the connection's sender may be in other
      hands, the handler calls made and the looks taken into the channel. */
  datatype Local = Local(moveTx: Option<Sender>, kept: bool, calls: nat, looks: nat)

  ghost predicate Tracks(v: Local, w: Work) {
    v == Local(w.tx, w.kept, |w.calls|, |w.responses|) && w.chan == None
  }

  lemma StartTracked()
    ensures Tracks(Local(Some(OWN), false, 0, 0), START.work)
  {
  }

  function NextLocal(v: Local, reply: Reply): Local {
    Local(reply.returned, StillKept(v.kept, reply), v.calls + |CallOf(reply)|, v.looks + 1)
  }

  lemma SettleReply(svc: Service, s: Server, v: Local, reply: Reply, inbox: Option<AcceptFn>)
    requires s.phase.Serving? && Tracks(v, s.work) && reply == ReplyTo(svc, s.work, s.phase.packet)
    requires inbox == Look(svc, Arrived(reply), StillKept(v.kept, reply), v.looks)
    ensures var (r, over) := (Settle(svc, s), Verdict(reply, svc.sendOk(|s.work.responses|), inbox));
      && r.work.responses == s.work.responses + [reply.message]
      && (over.None? ==> Tracks(NextLocal(v, reply), r.work))
      && r.phase == match over
                    case Some(how) => Ended(how)
                    case None => AwaitMeta
  {
  }

  /** One read of a run, on reads as the processor makes them out. */
  lemma DriveOnRead(svc: Service, s: Server, pre: Transform, rx: ProcState, raw: seq<Inbound>)
    requires s.phase.AwaitMeta? || s.phase.AwaitPayload?
    ensures raw == [] || raw[0].EndOfStream? || (raw[0].Failed? && IsFatal(raw[0].kind)) ==>
              var r := Drive(svc, s, Heard(pre, rx, raw)); r.phase == Ended(Closed) && r.work == s.work
    ensures raw != [] && raw[0].Failed? && !IsFatal(raw[0].kind) ==>
              Drive(svc, s, Heard(pre, rx, raw))
              == Drive(svc, Receive(svc.codec, s, raw[0]), Heard(pre, rx, raw[1..]))
    ensures raw != [] && raw[0].Frame? ==>
              Drive(svc, s, Heard(pre, rx, raw))
              == Drive(svc, Settle(svc, Receive(svc.codec, s, Frame(pre(rx, raw[0].bytes).1))),
                       Heard(pre, pre(rx, raw[0].bytes).0, raw[1..]))
    ensures raw != [] && raw[0].Frame? && s.phase.AwaitMeta? && WantsPayload(svc.codec, pre(rx, raw[0].bytes).1) ==>
              Drive(svc, s, Heard(pre, rx, raw))
              == Drive(svc, Receive(svc.codec, s, Frame(pre(rx, raw[0].bytes).1)),
                       Heard(pre, pre(rx, raw[0].bytes).0, raw[1..]))
  {
    var evs := Heard(pre, rx, raw);
    if raw != [] && raw[0].Frame? {
      assert evs[1..] == Heard(pre, pre(rx, raw[0].bytes).0, raw[1..]);
    } else if raw != [] {
      assert evs[1..] == Heard(pre, rx, raw[1..]);
    }
  }

  /** The writes of a stream from number `base` on turn out as `f` says. */
  ghost predicate WritesAgree(f: nat -> bool, g: nat -> bool, base: nat) {
    forall n: nat :: f(n) == g(base + n)
  }

  lemma WritesAgreeAt(f: nat -> bool, g: nat -> bool, base: nat, n: nat)
    requires WritesAgree(f, g, base)
    ensures f(n) == g(base + n)
  {
  }

  /** One pass of the reading part of the loop. */
  datatype Reading = Whole(packet: Packet) | Again | Over

  class TfServer {
    const svc: Service

    /** A frame as the processor makes it out, or whether the error that was read ends the
        connection. */
    static method ReceiveMessage(stream: Framed, processor: TrafficProcessor) returns (r: Result<Bytes, bool>)
      modifies stream`inbound, processor`rx
      ensures var ev := if old(stream.inbound) == [] then EndOfStream else old(stream.inbound)[0];
        && (r == Err(true) <==> ev in [Failed(ConnectionReset), Failed(ConnectionAborted), Failed(BrokenPipe),
                                       Failed(UnexpectedEof), EndOfStream])
        && (r == Err(false) <==> ev in [Failed(InvalidData), Failed(OtherError)])
      ensures var ev := if old(stream.inbound) == [] then EndOfStream else old(stream.inbound)[0];
        && stream.inbound == (if old(stream.inbound) == [] then [] else old(stream.inbound)[1..])
        && match ev
           case Frame(w) => r.Ok? && (processor.rx, r.value) == processor.pre(old(processor.rx), w)
           case Failed(kind) => r == Err(IsFatal(kind)) && processor.rx == old(processor.rx)
           case EndOfStream => r == Err(true) && processor.rx == old(processor.rx)
    {
      var ev := stream.Next();
      match ev
      case Frame(w) =>
        var b := processor.PreProcess(w);
        r := Ok(b);
      case Failed(kind) => r := Err(IsFatal(kind));
      case EndOfStream => r := Err(true);
    }

    static method SendMessage(stream: Framed, message: Bytes, processor: TrafficProcessor) returns (ok: bool)
      modifies stream`written, processor`tx
      ensures processor.tx == processor.post(old(processor.tx), message).0
      ensures stream.written == old(stream.written) + [processor.post(old(processor.tx), message).1]
      ensures ok == stream.sendOk(|old(stream.written)|)
    {
      var w := processor.PostProcess(message);
      ok := stream.Send(w);
    }

    /** Reads a header, and a payload if it announces one. */
    method ReadPacket(stream: Framed, processor: TrafficProcessor, ghost s: Server)
      returns (r: Reading, ghost s': Server)
      requires s.phase == AwaitMeta
      modifies stream`inbound, processor`rx
      ensures s'.work == s.work
      ensures old(stream.inbound) != [] ==> |stream.inbound| < |old(stream.inbound)|
      ensures var before := Drive(svc, s, Heard(processor.pre, old(processor.rx), old(stream.inbound)));
        var left := Heard(processor.pre, processor.rx, stream.inbound);
        match r
        case Whole(p) =>
          s'.phase == Serving(p) && before == Drive(svc, Settle(svc, s'), left) && old(stream.inbound) != []
        case Again => s'.phase == AwaitMeta && before == Drive(svc, s', left) && old(stream.inbound) != []
        case Over => before.phase == Ended(Closed) && before.work == s.work
    {
      hide Drive, Settle;
      s' := s;
      DriveOnRead(svc, s, processor.pre, processor.rx, stream.inbound);
      var metaData := ReceiveMessage(stream, processor);
      if metaData.Err? {
        r := if metaData.error then Over else Again;
        return;
      }
      var hasPayload := WantsPayload(svc.codec, metaData.value);
      s' := Receive(svc.codec, s, Frame(metaData.value));
      if !hasPayload {
        r := Whole(Packet(metaData.value, []));
        return;
      }
      DriveOnRead(svc, s', processor.pre, processor.rx, stream.inbound);
      var payload := ReceiveMessage(stream, processor);
      if payload.Err? {
        r := if payload.error then Over else Again;
        s' := s'.(phase := AwaitMeta, discarded := s'.discarded + 1);
        return;
      }
      r := Whole(Packet(metaData.value, payload.value));
      s' := Receive(svc.codec, s', Frame(payload.value));
    }

    /** Calls the router, writes the reply, and says whether the loop is over. */
    method ServeAndSend(stream: Framed, processor: TrafficProcessor, p: Packet, v: Local, ghost s: Server)
      returns (v': Local, over: Option<Ending>, ghost message: Bytes)
      requires s.phase == Serving(p) && Tracks(v, s.work)
      requires svc.sendOk(|s.work.responses|) == stream.sendOk(|stream.written|)
      modifies stream`written, processor`tx
      ensures var s' := Settle(svc, s);
        && s'.work.responses == s.work.responses + [message]
        && s'.phase == (match over case Some(how) => Ended(how) case None => AwaitMeta)
        && (over.None? ==> Tracks(v', s'.work))
      ensures stream.written == old(stream.written) + [processor.post(old(processor.tx), message).1]
      ensures processor.tx == processor.post(old(processor.tx), message).0
    {
      hide Settle, ServePacket;
      var reply := ServePacket(svc, v.calls, p.meta, p.payload, v.moveTx);
      v' := NextLocal(v, reply);
      message := reply.message;
      var ok := SendMessage(stream, reply.message, processor);
      var received := Look(svc, Arrived(reply), v'.kept, v.looks);
      SettleReply(svc, s, v, reply, received);
      if received.Some? {
        over := Some(HandedOff(received.value));
      } else if v'.moveTx.None? {
        over := Some(Closed);
      } else if !ok {
        over := Some(Closed);
      } else {
        over := None;
      }
    }

    /** One pass of the loop. */
    method Pass(stream: Framed, processor: TrafficProcessor, v: Local, ghost s: Server)
      returns (v': Local, over: Option<Ending>, ghost s': Server, ghost news: seq<Bytes>)
      requires s.phase == AwaitMeta && Tracks(v, s.work)
      requires svc.sendOk(|s.work.responses|) == stream.sendOk(|stream.written|)
      modifies stream, processor
      ensures var goal := Drive(svc, s, Heard(processor.pre, old(processor.rx), old(stream.inbound)));
        match over
        case Some(how) => goal.phase == Ended(how) && goal.work.responses == s'.work.responses
        case None =>
          && s'.phase == AwaitMeta && Tracks(v', s'.work)
          && goal == Drive(svc, s', Heard(processor.pre, processor.rx, stream.inbound))
          && |stream.inbound| < |old(stream.inbound)|
      ensures s'.work.responses == s.work.responses + news
      ensures Wrote(processor.post, old(stream.written), old(processor.tx), news, stream.written, processor.tx)
    {
      v', over, news := v, None, [];
      WroteNothing(processor.post, stream.written, processor.tx);
      var read;
      read, s' := ReadPacket(stream, processor, s);
      if read.Over? {
        over := Some(Closed);
      } else if read.Whole? {
        ghost var m;
        v', over, m := ServeAndSend(stream, processor, read.packet, v, s');
        s' := Settle(svc, s');
        news := [m];
        WroteOne(processor.post, old(stream.written), old(processor.tx), m);
      }
    }

    /** Runs one connection to its end. What it does is what the automaton does on the reads as
        the processor makes them out, and what it writes is the automaton's responses as the
        processor sends them. */
    method HandleConnection(stream: Framed, processor: TrafficProcessor) returns (how: Ending)
      requires WritesAgree(svc.sendOk, stream.sendOk, |stream.written|)
      modifies stream, processor
      ensures var final := Drive(svc, START, Heard(processor.pre, old(processor.rx), old(stream.inbound)));
        && final.phase == Ended(how)
        && Wrote(processor.post, old(stream.written), old(processor.tx), final.work.responses,
                 stream.written, processor.tx)
    {
      WroteNothing(processor.post, stream.written, processor.tx);
      ghost var goal := Drive(svc, START, Heard(processor.pre, processor.rx, stream.inbound));
      hide *;
      var v, over := Local(Some(OWN), false, 0, 0), None;
      ghost var s := START;
      StartTracked();
      while over.None?
        invariant over.None? ==>
          && s.phase == AwaitMeta && Tracks(v, s.work)
          && goal == Drive(svc, s, Heard(processor.pre, processor.rx, stream.inbound))
        invariant over.Some? ==> goal.phase == Ended(over.value) && goal.work.responses == s.work.responses
        invariant Wrote(processor.post, old(stream.written), old(processor.tx), s.work.responses,
                        stream.written, processor.tx)
        invariant |stream.written| == |old(stream.written)| + |s.work.responses|
        decreases over.None?, |stream.inbound|
      {
        WritesAgreeAt(svc.sendOk, stream.sendOk, |old(stream.written)|, |s.work.responses|);
        ghost var done, mid, tx, news := s.work.responses, stream.written, processor.tx, [];
        v, over, s, news := Pass(stream, processor, v, s);
        WroteMore(processor.post, old(stream.written), old(processor.tx), done, mid, tx, news,
                  stream.written, processor.tx);
      }
      how := over.value;
    }
  }
}
