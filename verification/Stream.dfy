/** The framed connection and the traffic processor that both ends hold. */
module Stream {
  import opened Wire
  import opened TrafficLink

  datatype ErrorKind = ConnectionReset | ConnectionAborted | BrokenPipe | UnexpectedEof | InvalidData | OtherError

  /** The read errors that end a connection. */
  predicate IsFatal(kind: ErrorKind) {
    kind == ConnectionReset || kind == ConnectionAborted || kind == BrokenPipe || kind == UnexpectedEof
  }

  /** What the next read yields. */
  datatype Inbound = Frame(bytes: Bytes) | Failed(kind: ErrorKind) | EndOfStream

  /** What a receiver makes of its reads: frames are processed, errors pass through. */
  function Heard(pre: Transform, rx: ProcState, raw: seq<Inbound>): (evs: seq<Inbound>)
    ensures |evs| == |raw|
    decreases |raw|
  {
    if raw == [] then []
    else
      match raw[0]
      case Frame(w) =>
        var (rx', b) := pre(rx, w);
        [Frame(b)] + Heard(pre, rx', raw[1..])
      case _ => [raw[0]] + Heard(pre, rx, raw[1..])
  }

  /** A framed transport. `inbound` is what the peer will make it read, after which the stream
      ends; `written` is every frame handed to it; `sendOk` says how each write turns out. */
  class Framed {
    var inbound: seq<Inbound>
    var written: seq<Bytes>
    const sendOk: nat -> bool

    method Next() returns (ev: Inbound)
      modifies this`inbound
      ensures old(inbound) == [] ==> ev == EndOfStream && inbound == []
      ensures old(inbound) != [] ==> ev == old(inbound)[0] && inbound == old(inbound)[1..]
    {
      if inbound == [] { return EndOfStream; }
      ev := inbound[0];
      inbound := inbound[1..];
    }

    method Send(b: Bytes) returns (ok: bool)
      modifies this`written
      ensures written == old(written) + [b] && ok == sendOk(|old(written)|)
    {
      ok := sendOk(|written|);
      written := written + [b];
    }
  }

  class TrafficProcessor {
    const post: Transform
    const pre: Transform
    var tx: ProcState
    var rx: ProcState

    method PostProcess(b: Bytes) returns (w: Bytes)
      modifies this`tx
      ensures (tx, w) == post(old(tx), b)
    {
      var (s, out) := post(tx, b);
      tx, w := s, out;
    }

    method PreProcess(w: Bytes) returns (b: Bytes)
      modifies this`rx
      ensures (rx, b) == pre(old(rx), w)
    {
      var (s, out) := pre(rx, w);
      rx, b := s, out;
    }
  }
}
