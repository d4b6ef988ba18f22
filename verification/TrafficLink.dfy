/** Traffic processors. Each end of a connection may transform every frame it sends and every
    frame it receives, keeping a state on each side. A lane is one direction of a connection:
    the sender's transform, the receiver's, and when their states are in step. */
module TrafficLink {
  import opened Wire

  /** The state of a processor, opaque to the protocol: each state is known by a number. */
  type ProcState = int

  type Transform = (ProcState, Bytes) -> (ProcState, Bytes)

  datatype Lane = Lane(post: Transform, pre: Transform, matches: (ProcState, ProcState) -> bool)

  /** In states that are in step, receiving undoes sending and leaves the states in step. */
  ghost predicate LaneLawful(l: Lane) {
    forall tx, rx, b :: l.matches(tx, rx) ==>
                          var (tx', w) := l.post(tx, b);
                          var (rx', b') := l.pre(rx, w);
                          b' == b && l.matches(tx', rx')
  }

  /** A lane whose transform really depends on the state: it stamps each frame with its number. */
  function StampingLane(): Lane {
    Lane((s: ProcState, b: Bytes) => (s + 1, [(s % 256) as byte] + b),
         (s: ProcState, w: Bytes) => (s + 1, if |w| > 0 && w[0] == (s % 256) as byte then w[1..] else []),
         (s: ProcState, r: ProcState) => s == r)
  }

  lemma LaneLawsAreMet()
    ensures LaneLawful(StampingLane())
  {
    var l := StampingLane();
    forall tx, rx, b | l.matches(tx, rx)
      ensures l.pre(rx, l.post(tx, b).1).1 == b
    {
      assert ([(tx % 256) as byte] + b)[1..] == b;
    }
  }

  /** The frames on the wire for a list of plain frames, and the sender's state after them. */
  function EncodeAll(post: Transform, tx: ProcState, plain: seq<Bytes>): (wire: seq<Bytes>)
    ensures |wire| == |plain|
  {
    if plain == [] then []
    else
      var front := plain[..|plain| - 1];
      EncodeAll(post, tx, front) + [post(TxAfter(post, tx, front), plain[|plain| - 1]).1]
  }

  function TxAfter(post: Transform, tx: ProcState, plain: seq<Bytes>): ProcState {
    if plain == [] then tx
    else
      var front := plain[..|plain| - 1];
      post(TxAfter(post, tx, front), plain[|plain| - 1]).0
  }

  lemma EncodeSnoc(post: Transform, tx: ProcState, plain: seq<Bytes>, b: Bytes)
    ensures EncodeAll(post, tx, plain + [b]) == EncodeAll(post, tx, plain) + [post(TxAfter(post, tx, plain), b).1]
    ensures TxAfter(post, tx, plain + [b]) == post(TxAfter(post, tx, plain), b).0
  {
    assert (plain + [b])[..|plain|] == plain;
  }

  lemma {:induction false} EncodeConcat(post: Transform, tx: ProcState, a: seq<Bytes>, b: seq<Bytes>)
    ensures EncodeAll(post, tx, a + b) == EncodeAll(post, tx, a) + EncodeAll(post, TxAfter(post, tx, a), b)
    ensures TxAfter(post, tx, a + b) == TxAfter(post, TxAfter(post, tx, a), b)
  {
    if b == [] {
      assert a + b == a;
    } else {
      var front := b[..|b| - 1];
      EncodeConcat(post, tx, a, front);
      var last := b[|b| - 1];
      assert b == front + [last] && a + b == (a + front) + [last];
      EncodeSnoc(post, tx, a + front, last);
      EncodeSnoc(post, TxAfter(post, tx, a), front, last);
    }
  }

  /** A sender that had written `before` in state `tx0` has since sent the frames of `plain`. */
  ghost predicate Wrote(post: Transform, before: seq<Bytes>, tx0: ProcState, plain: seq<Bytes>,
                        written: seq<Bytes>, tx: ProcState) {
    written == before + EncodeAll(post, tx0, plain) && tx == TxAfter(post, tx0, plain)
  }

  lemma WroteNothing(post: Transform, before: seq<Bytes>, tx0: ProcState)
    ensures Wrote(post, before, tx0, [], before, tx0)
  {
  }

  lemma WroteOne(post: Transform, before: seq<Bytes>, tx0: ProcState, b: Bytes)
    ensures Wrote(post, before, tx0, [b], before + [post(tx0, b).1], post(tx0, b).0)
  {
    EncodeSnoc(post, tx0, [], b);
    assert [] + [b] == [b];
  }

  lemma WroteMore(post: Transform, before: seq<Bytes>, tx0: ProcState, a: seq<Bytes>, mid: seq<Bytes>, tx1: ProcState,
                  b: seq<Bytes>, written: seq<Bytes>, tx: ProcState)
    requires Wrote(post, before, tx0, a, mid, tx1) && Wrote(post, mid, tx1, b, written, tx)
    ensures Wrote(post, before, tx0, a + b, written, tx)
    ensures |written| == |before| + |a + b|
  {
    EncodeConcat(post, tx0, a, b);
  }

  /** What the receiver makes of the frames on the wire, and its state after them. */
  function DecodeAll(pre: Transform, rx: ProcState, wire: seq<Bytes>): (plain: seq<Bytes>)
    ensures |plain| == |wire|
    decreases |wire|
  {
    if wire == [] then []
    else
      var (rx', b) := pre(rx, wire[0]);
      [b] + DecodeAll(pre, rx', wire[1..])
  }

  function RxAfter(pre: Transform, rx: ProcState, wire: seq<Bytes>): ProcState
    decreases |wire|
  {
    if wire == [] then rx else RxAfter(pre, pre(rx, wire[0]).0, wire[1..])
  }

  /** The frames of `plain` are under way as `wire`: the receiver, in state `rx`, will read just
      them, and will then be in step with the sender, who is in state `tx`. */
  ghost predicate InFlight(l: Lane, rx: ProcState, wire: seq<Bytes>, plain: seq<Bytes>, tx: ProcState) {
    DecodeAll(l.pre, rx, wire) == plain && l.matches(tx, RxAfter(l.pre, rx, wire))
  }

  /** The frames of `wire` are the next ones of `plain`, from number `from` on, as the receiver
      will make them out; whether more will come is left open. */
  ghost predicate Coming(l: Lane, rx: ProcState, wire: seq<Bytes>, plain: seq<Bytes>, from: nat) {
    from + |wire| <= |plain| && DecodeAll(l.pre, rx, wire) == plain[from..from + |wire|]
  }

  lemma {:induction false} DecodePrefix(pre: Transform, rx: ProcState, wire: seq<Bytes>, k: nat)
    requires k <= |wire|
    ensures DecodeAll(pre, rx, wire[..k]) == DecodeAll(pre, rx, wire)[..k]
    decreases k
  {
    if k > 0 {
      DecodePrefix(pre, pre(rx, wire[0]).0, wire[1..], k - 1);
      assert wire[..k][1..] == wire[1..][..k - 1];
    }
  }

  /** Losing all but the first frames under way. */
  lemma LossLeavesPrefix(l: Lane, rx: ProcState, wire: seq<Bytes>, plain: seq<Bytes>, from: nat, tx: ProcState, k: nat)
    requires from <= |plain| && InFlight(l, rx, wire, plain[from..], tx) && k <= |wire|
    ensures Coming(l, rx, wire[..k], plain, from)
  {
    DecodePrefix(l.pre, rx, wire, k);
    assert plain[from..][..k] == plain[from..from + k];
  }

  /** Receiving the first of them, and more being said meanwhile. */
  lemma ReceiveComing(l: Lane, rx: ProcState, wire: seq<Bytes>, plain: seq<Bytes>, from: nat)
    requires Coming(l, rx, wire, plain, from) && wire != []
    ensures var (rx', b) := l.pre(rx, wire[0]);
      b == plain[from] && Coming(l, rx', wire[1..], plain, from + 1)
  {
    assert plain[from..from + |wire|][1..] == plain[from + 1..from + |wire|];
  }

  lemma ComingStill(l: Lane, rx: ProcState, wire: seq<Bytes>, plain: seq<Bytes>, from: nat, more: seq<Bytes>)
    requires Coming(l, rx, wire, plain, from) && plain <= more
    ensures Coming(l, rx, wire, more, from)
  {
  }

  lemma InFlightLength(l: Lane, rx: ProcState, wire: seq<Bytes>, plain: seq<Bytes>, tx: ProcState)
    requires InFlight(l, rx, wire, plain, tx)
    ensures |wire| == |plain|
  {
  }

  /** Sending one more frame. */
  lemma {:induction false} SendKeepsStep(l: Lane, rx: ProcState, wire: seq<Bytes>, plain: seq<Bytes>, tx: ProcState,
                                         b: Bytes)
    requires LaneLawful(l) && InFlight(l, rx, wire, plain, tx)
    ensures var (tx', w) := l.post(tx, b);
      InFlight(l, rx, wire + [w], plain + [b], tx')
    decreases |wire|
  {
    var (tx', w) := l.post(tx, b);
    if wire == [] {
      assert wire + [w] == [w];
      assert [w][1..] == [];
    } else {
      var (rx', _) := l.pre(rx, wire[0]);
      SendKeepsStep(l, rx', wire[1..], plain[1..], tx, b);
      assert (wire + [w])[1..] == wire[1..] + [w];
      assert plain + [b] == [plain[0]] + (plain[1..] + [b]);
    }
  }

  lemma {:induction false} SendAllKeepsStep(l: Lane, rx: ProcState, wire: seq<Bytes>, plain: seq<Bytes>,
                                            tx: ProcState, more: seq<Bytes>)
    requires LaneLawful(l) && InFlight(l, rx, wire, plain, tx)
    ensures InFlight(l, rx, wire + EncodeAll(l.post, tx, more), plain + more, TxAfter(l.post, tx, more))
  {
    if more == [] {
      assert wire + EncodeAll(l.post, tx, more) == wire && plain + more == plain;
    } else {
      var front, last := more[..|more| - 1], more[|more| - 1];
      SendAllKeepsStep(l, rx, wire, plain, tx, front);
      var mid, tx1 := wire + EncodeAll(l.post, tx, front), TxAfter(l.post, tx, front);
      SendKeepsStep(l, rx, mid, plain + front, tx1, last);
      assert mid + [l.post(tx1, last).1] == wire + EncodeAll(l.post, tx, more);
      assert plain + front + [last] == plain + more;
    }
  }

  /** Receiving the first frame under way. */
  lemma ReceiveKeepsStep(l: Lane, rx: ProcState, wire: seq<Bytes>, plain: seq<Bytes>, tx: ProcState)
    requires InFlight(l, rx, wire, plain, tx) && wire != []
    ensures |plain| == |wire|
    ensures var (rx', b) := l.pre(rx, wire[0]);
      b == plain[0] && InFlight(l, rx', wire[1..], plain[1..], tx)
  {
  }

  /** Lock step: frame k is received in a state in step with the one it was sent in, and comes
      out as it went in. */
  lemma LockStep(l: Lane, tx: ProcState, rx: ProcState, plain: seq<Bytes>)
    requires LaneLawful(l) && l.matches(tx, rx)
    ensures DecodeAll(l.pre, rx, EncodeAll(l.post, tx, plain)) == plain
    ensures forall k :: 0 <= k <= |plain| ==>
              l.matches(TxAfter(l.post, tx, plain[..k]), RxAfter(l.pre, rx, EncodeAll(l.post, tx, plain[..k])))
  {
    forall k | 0 <= k <= |plain|
      ensures InFlight(l, rx, EncodeAll(l.post, tx, plain[..k]), plain[..k], TxAfter(l.post, tx, plain[..k]))
    {
      SendAllKeepsStep(l, rx, [], [], tx, plain[..k]);
      assert [] + EncodeAll(l.post, tx, plain[..k]) == EncodeAll(l.post, tx, plain[..k]);
      assert [] + plain[..k] == plain[..k];
    }
    assert plain[..|plain|] == plain;
  }
}
