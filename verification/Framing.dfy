/** Framing: what the server makes of the frames the client emits. */
module Framing {
  import opened Wire
  import opened Stream
  import opened ClientTask
  import opened Connection
  import opened ConnectionLoop
  import opened PacketService
  import opened Interleaving

  /** What the client says. */
  datatype Item = Query(name: string) | Order(req: Request, id: U64)

  predicate Encodable(c: Codec, it: Item) {
    match it
    case Query(name) => c.queryToBytes(name).Some?
    case Order(req, id) => c.metaToBytes(MetaFor(c, req, id)).Some?
  }

  /** The frames of an item: a query is one, a request always two. */
  function FramesOf(c: Codec, it: Item): seq<Bytes>
    requires Encodable(c, it)
  {
    match it
    case Query(name) => [c.queryToBytes(name).value]
    case Order(req, id) => [c.metaToBytes(MetaFor(c, req, id)).value, req.data]
  }

  ghost predicate AllEncodable(c: Codec, items: seq<Item>) {
    forall i :: 0 <= i < |items| ==> Encodable(c, items[i])
  }

  /** The reads that the emitted frames give rise to. */
  function Emission(c: Codec, items: seq<Item>): seq<Inbound>
    requires AllEncodable(c, items)
  {
    if items == [] then [] else Frames(FramesOf(c, items[0])) + Emission(c, items[1..])
  }

  function Frames(bs: seq<Bytes>): seq<Inbound> {
    seq(|bs|, i requires 0 <= i < |bs| => Frame(bs[i]))
  }

  /** What the server understands of a packet. */
  datatype Seen = SeenQuery(name: string) | SeenRequest(id: U64, sType: SType, data: Bytes) | Garbage

  function Understand(c: Codec, p: Packet): Seen {
    match c.accessMeta(p.meta)
    case Some(m) => SeenRequest(m.handlerId, c.numberToType(m.sTypeReq), p.payload)
    case None =>
      match c.accessQuery(p.meta)
      case Some(name) => SeenQuery(name)
      case None => Garbage
  }

  function UnderstandAll(c: Codec, ps: seq<Packet>): (seen: seq<Seen>)
    ensures |seen| == |ps|
  {
    if ps == [] then [] else [Understand(c, ps[0])] + UnderstandAll(c, ps[1..])
  }

  /** What was said, and one piece of garbage after a request that has no data. */
  function Heading(it: Item): seq<Seen> {
    match it
    case Query(name) => [SeenQuery(name)]
    case Order(req, id) => [SeenRequest(id, req.sType, req.data)] + if req.data == [] then [Garbage] else []
  }

  function Expected(items: seq<Item>): seq<Seen> {
    if items == [] then [] else Heading(items[0]) + Expected(items[1..])
  }

  /** What was said. */
  function Said(items: seq<Item>): (seen: seq<Seen>)
    ensures |seen| == |items|
  {
    if items == [] then []
    else [match items[0]
          case Query(name) => SeenQuery(name)
          case Order(req, id) => SeenRequest(id, req.sType, req.data)] + Said(items[1..])
  }

  /** Round trip for all data, even if payload bytes look like a header. */
  lemma {:induction false} FramingRoundTrip(c: Codec, items: seq<Item>)
    requires Lawful(c) && AllEncodable(c, items)
    ensures UnderstandAll(c, Segment(c, Emission(c, items))) == Expected(items)
  {
    if items != [] {
      FramingRoundTrip(c, items[1..]);
      hide Segment, Understand;
      OneItem(c, items[0], Emission(c, items[1..]));
    }
  }

  lemma OneItem(c: Codec, it: Item, rest: seq<Inbound>)
    requires Lawful(c) && Encodable(c, it)
    ensures UnderstandAll(c, Segment(c, Frames(FramesOf(c, it)) + rest))
         == Heading(it) + UnderstandAll(c, Segment(c, rest))
  {
    hide Segment, UnderstandAll;
    match it
    case Query(name) =>
      var q := c.queryToBytes(name).value;
      assert Frames([q]) == [Frame(q)];
      AlonePacket(c, q, rest);
    case Order(req, id) =>
      var m := c.metaToBytes(MetaFor(c, req, id)).value;
      assert Frames([m, req.data]) + rest == [Frame(m)] + ([Frame(req.data)] + rest);
      assert c.accessMeta(m) == Some(MetaFor(c, req, id));
      if req.data == [] {
        AlonePacket(c, m, [Frame([])] + rest);
        AlonePacket(c, [], rest);
      } else {
        PairPacket(c, m, req.data, rest);
      }
  }

  lemma AlonePacket(c: Codec, b: Bytes, rest: seq<Inbound>)
    requires !WantsPayload(c, b)
    ensures UnderstandAll(c, Segment(c, [Frame(b)] + rest))
         == [Understand(c, Packet(b, []))] + UnderstandAll(c, Segment(c, rest))
  {
    var ps := Segment(c, [Frame(b)] + rest);
    assert ([Frame(b)] + rest)[1..] == rest;
    assert ps == [Packet(b, [])] + Segment(c, rest) && ps[1..] == Segment(c, rest);
  }

  lemma PairPacket(c: Codec, b: Bytes, p: Bytes, rest: seq<Inbound>)
    requires WantsPayload(c, b)
    ensures UnderstandAll(c, Segment(c, [Frame(b)] + ([Frame(p)] + rest)))
         == [Understand(c, Packet(b, p))] + UnderstandAll(c, Segment(c, rest))
  {
    var evs := [Frame(b)] + ([Frame(p)] + rest);
    var ps := Segment(c, evs);
    assert evs[1] == Frame(p) && evs[2..] == rest;
    assert ps == [Packet(b, p)] + Segment(c, rest) && ps[1..] == Segment(c, rest);
  }

  /** The server understands just what was said exactly when no request is without data. */
  lemma {:induction false} FramingExactIff(c: Codec, items: seq<Item>)
    requires Lawful(c) && AllEncodable(c, items)
    ensures UnderstandAll(c, Segment(c, Emission(c, items))) == Said(items) <==>
            forall i :: 0 <= i < |items| && items[i].Order? ==> items[i].req.data != []
  {
    FramingRoundTrip(c, items);
    ExpectedLength(items);
    if forall i :: 0 <= i < |items| && items[i].Order? ==> items[i].req.data != [] {
      ExpectedIsSaid(items);
    }
  }

  lemma {:induction false} ExpectedLength(items: seq<Item>)
    ensures |Expected(items)| >= |items|
    ensures |Expected(items)| == |items| ==> forall i :: 0 <= i < |items| && items[i].Order? ==> items[i].req.data != []
  {
    if items != [] {
      ExpectedLength(items[1..]);
      if |Expected(items)| == |items| {
        forall i | 0 <= i < |items| && items[i].Order? ensures items[i].req.data != [] {
          assert i > 0 ==> items[i] == items[1..][i - 1];
        }
      }
    }
  }

  lemma {:induction false} ExpectedIsSaid(items: seq<Item>)
    requires forall i :: 0 <= i < |items| && items[i].Order? ==> items[i].req.data != []
    ensures Expected(items) == Said(items)
  {
    if items != [] { ExpectedIsSaid(items[1..]); }
  }

  // ----- The client emits just that -----

  lemma {:induction false} EmissionSnoc(c: Codec, items: seq<Item>, it: Item)
    requires AllEncodable(c, items) && Encodable(c, it)
    ensures AllEncodable(c, items + [it])
    ensures Emission(c, items + [it]) == Emission(c, items) + Frames(FramesOf(c, it))
  {
    if items == [] {
      assert items + [it] == [it] && [it][1..] == [];
      assert Emission(c, [it]) == Frames(FramesOf(c, it)) + Emission(c, []);
    } else {
      assert (items + [it])[0] == items[0] && (items + [it])[1..] == items[1..] + [it];
      EmissionSnoc(c, items[1..], it);
    }
  }

  ghost predicate Framed(c: Codec, emitted: seq<Bytes>, items: seq<Item>) {
    AllEncodable(c, items) && Frames(emitted) == Emission(c, items)
  }

  lemma FramedMore(c: Codec, emitted: seq<Bytes>, items: seq<Item>, it: Item)
    requires Framed(c, emitted, items) && Encodable(c, it)
    ensures Framed(c, emitted + FramesOf(c, it), items + [it])
  {
    EmissionSnoc(c, items, it);
  }

  /** The requests among the items. */
  function Orders(items: seq<Item>): seq<Request> {
    if items == [] then []
    else
      var last := items[|items| - 1];
      Orders(items[..|items| - 1]) + if last.Order? then [last.req] else []
  }

  lemma OrdersSnoc(items: seq<Item>, it: Item)
    ensures Orders(items + [it]) == Orders(items) + if it.Order? then [it.req] else []
  {
    assert (items + [it])[..|items|] == items;
  }

  /** The requests that were completed. */
  function CompletedOf(reqs: seq<Request>, outcomes: seq<Outcome>): seq<Request>
    requires |reqs| == |outcomes|
  {
    if reqs == [] then []
    else
      var n := |reqs| - 1;
      CompletedOf(reqs[..n], outcomes[..n]) + if outcomes[n].Completed? then [reqs[n]] else []
  }

  lemma RoutedFramed(svc: Service, l: Ledger, req: Request, items: seq<Item>) returns (items': seq<Item>)
    requires Framed(svc.codec, l.emitted, items) && !Routed(svc, l, req).NoAnswer?
    ensures Framed(svc.codec, Routed(svc, l, req).ledger.emitted, items') && Orders(items') == Orders(items)
  {
    hide Framed, ResponsesTo, Orders;
    items' := items;
    if Routed(svc, l, req).ledger.emitted != l.emitted {
      FramedMore(svc.codec, l.emitted, items, Query(req.info.named.value));
      OrdersSnoc(items, Query(req.info.named.value));
      items' := items + [Query(req.info.named.value)];
    }
  }

  lemma ExchangedFramed(svc: Service, l: Ledger, req: Request, id: U64, items: seq<Item>) returns (items': seq<Item>)
    requires Framed(svc.codec, l.emitted, items) && Exchanged(svc, l, req, id).Some?
    ensures var l' := Exchanged(svc, l, req, id).value;
      && Framed(svc.codec, l'.emitted, items')
      && |l'.outcomes| == |l.outcomes| + 1 && l'.outcomes[..|l.outcomes|] == l.outcomes
      && Orders(items') == Orders(items) + if l'.outcomes[|l.outcomes|].Completed? then [req] else []
  {
    hide Framed, ResponsesTo, Orders;
    items' := items;
    if Encodable(svc.codec, Order(req, id)) {
      FramedMore(svc.codec, l.emitted, items, Order(req, id));
      OrdersSnoc(items, Order(req, id));
      items' := items + [Order(req, id)];
    }
  }

  /** All that a client ever emits is name queries and the requests it completed, these in the
      order performed: so the round trip is about the requests of every run. */
  lemma {:induction false} EmittedIsFramed(svc: Service, reqs: seq<Request>) returns (items: seq<Item>)
    requires PerformAll(svc, reqs).Some?
    ensures Framed(svc.codec, PerformAll(svc, reqs).value.emitted, items)
    ensures |PerformAll(svc, reqs).value.outcomes| == |reqs|
    ensures Orders(items) == CompletedOf(reqs, PerformAll(svc, reqs).value.outcomes)
  {
    items := [];
    if reqs != [] {
      var n := |reqs| - 1;
      items := EmittedIsFramed(svc, reqs[..n]);
      var l := PerformAll(svc, reqs[..n]).value;
      hide Framed, Routed, Exchanged, Orders;
      RoutedSettles(svc, l, reqs[n]);
      items := RoutedFramed(svc, l, reqs[n], items);
      match Routed(svc, l, reqs[n])
      case Ready(l', id) => items := ExchangedFramed(svc, l', reqs[n], id, items);
      case _ =>
    }
  }
}
