/** What crosses the wire: frames, the packet header, the name query and its answer, and the
    error reply. The serializer lives in another crate, so it is a parameter here: every result
    holds for each codec that meets `Lawful`. */
module Wire {

  datatype Option<+T> = None | Some(value: T)

  datatype Result<+T, +E> = Ok(value: T) | Err(error: E)

  newtype byte = x: int | 0 <= x < 256

  type Bytes = seq<byte>

  const U64_SIZE: int := 0x1_0000_0000_0000_0000

  type U64 = x: int | 0 <= x < U64_SIZE

  /** A structure-type tag: a user enum, so there are no more of them than 64-bit numbers. */
  type SType = U64

  datatype PacketMeta = PacketMeta(sTypeReq: U64, handlerId: U64, hasPayload: bool)

  datatype ServerError = NoSuchHandler | InternalError(detail: Bytes) | MalformedMetaInfo

  /** The serializer. The encoders that the source unwraps are total, the others may fail. */
  datatype Codec = Codec(
    metaToBytes: PacketMeta -> Option<Bytes>,
    accessMeta: Bytes -> Option<PacketMeta>,
    queryToBytes: string -> Option<Bytes>,
    accessQuery: Bytes -> Option<string>,
    answerToBytes: U64 -> Bytes,
    accessAnswer: Bytes -> Option<U64>,
    errorToBytes: ServerError -> Bytes,
    typeToNumber: SType -> U64,
    numberToType: U64 -> SType)

  /** Decoding inverts encoding; a query is not a packet header; the empty frame is neither;
      an error reply is not a name answer. Nothing is said about any other bytes. */
  ghost predicate Lawful(c: Codec) {
    && (forall m :: c.metaToBytes(m).Some? ==> c.accessMeta(c.metaToBytes(m).value) == Some(m))
    && (forall n :: c.queryToBytes(n).Some? ==>
                      && c.accessQuery(c.queryToBytes(n).value) == Some(n)
                      && c.accessMeta(c.queryToBytes(n).value) == None)
    && c.accessMeta([]) == None
    && c.accessQuery([]) == None
    && (forall i: U64 :: c.accessAnswer(c.answerToBytes(i)) == Some(i))
    && (forall e :: c.accessAnswer(c.errorToBytes(e)) == None)
    && (forall t: SType :: c.numberToType(c.typeToNumber(t)) == t)
  }

  /** The text of the reply to a packet whose handler panicked. */
  const HANDLER_DIED: Bytes := [104, 97, 110, 100, 108, 101, 114, 32, 100, 105, 101, 100, 32, 58, 40]

  /** The bytes of a text of one-byte characters. */
  ghost predicate Spells(b: Bytes, s: string) {
    |b| == |s| && forall i :: 0 <= i < |b| ==> b[i] as int == s[i] as int
  }

  lemma HandlerDiedText()
    ensures Spells(HANDLER_DIED, "handler died :(")
  {
  }

  // ----- A small codec, to show that the laws can be met -----

  /** Headers with one-byte fields. */
  function ToyMeta(m: PacketMeta): Option<Bytes> {
    if m.sTypeReq < 256 && m.handlerId < 256
    then Some([1, if m.hasPayload then 1 else 0, m.sTypeReq as byte, m.handlerId as byte]) else None
  }

  function ToyAccessMeta(b: Bytes): Option<PacketMeta> {
    if |b| == 4 && b[0] == 1 then Some(PacketMeta(b[2] as int, b[3] as int, b[1] == 1)) else None
  }

  /** Names of one-byte characters. */
  function ToyQuery(n: string): Option<Bytes> {
    if forall i :: 0 <= i < |n| ==> (n[i] as int) < 256
    then Some([3] + seq(|n|, i requires 0 <= i < |n| => (n[i] as int) as byte)) else None
  }

  function ToyAccessQuery(b: Bytes): Option<string> {
    if |b| > 0 && b[0] == 3
    then Some(seq(|b| - 1, i requires 0 <= i < |b| - 1 => (b[i + 1] as int) as char)) else None
  }

  /** Ids in unary. */
  function ToyAnswer(i: U64): Bytes {
    [2] + seq(i, _ => 0)
  }

  function ToyAccessAnswer(b: Bytes): Option<U64> {
    if 0 < |b| <= U64_SIZE && b[0] == 2 then Some(|b| - 1) else None
  }

  function ToyError(e: ServerError): Bytes {
    [4]
  }

  lemma ToyMetaRoundTrip(m: PacketMeta)
    requires ToyMeta(m).Some?
    ensures ToyAccessMeta(ToyMeta(m).value) == Some(m)
  {
  }

  lemma ToyQueryRoundTrip(n: string)
    requires ToyQuery(n).Some?
    ensures ToyAccessQuery(ToyQuery(n).value) == Some(n) && ToyAccessMeta(ToyQuery(n).value) == None
  {
    var b := ToyQuery(n).value;
    assert ToyAccessQuery(b).value == n;
  }

  function ToyCodec(): Codec {
    Codec(ToyMeta, ToyAccessMeta, ToyQuery, ToyAccessQuery,
          ToyAnswer, ToyAccessAnswer, ToyError, (t: SType) => t, (n: U64) => n)
  }

  lemma CodecLawsAreMet()
    ensures Lawful(ToyCodec())
  {
    forall m | ToyMeta(m).Some? ensures ToyAccessMeta(ToyMeta(m).value) == Some(m) { ToyMetaRoundTrip(m); }
    forall n | ToyQuery(n).Some?
      ensures ToyAccessQuery(ToyQuery(n).value) == Some(n) && ToyAccessMeta(ToyQuery(n).value) == None
    {
      ToyQueryRoundTrip(n);
    }
    hide ToyMeta, ToyQuery;
  }
}
