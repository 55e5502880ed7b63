/** The binary form of a queued email (internal/queue/codec.go) on values, and its laws. */
module Codec {
  import opened Wrappers
  import opened Varint

  const MAX_TO_COUNT := 2048
  const MAX_STRING_LEN := 16384
  const MAX_RAW_LEN := 67108864
  const MAGIC: seq<byte> := [0x4d, 0x41, 0x49, 0x4c]
  const VERSION: byte := 1

  type int64 = i: int | -0x8000_0000_0000_0000 <= i < 0x8000_0000_0000_0000

  datatype Email = Email(from: seq<byte>, remoteAddr: seq<byte>, receivedAt: int64, to: seq<seq<byte>>, raw: seq<byte>)

  /** The conversions between int64 and uint64. */
  function ToUint64(i: int64): uint64 {
    if i < 0 then i + TWO_64 else i
  }

  function ToInt64(u: uint64): int64 {
    if u < 0x8000_0000_0000_0000 then u else u - TWO_64
  }

  predicate WithinLimits(e: Email) {
    |e.from| <= MAX_STRING_LEN && |e.remoteAddr| <= MAX_STRING_LEN &&
    |e.to| <= MAX_TO_COUNT && (forall r :: r in e.to ==> |r| <= MAX_STRING_LEN) && |e.raw| <= MAX_RAW_LEN
  }

  // ---- encoding -------------------------------------------------------------------------

  function EncodeChunk(s: seq<byte>): seq<byte> {
    EncodeUvarint(|s|) + s
  }

  function EncodeChunks(to: seq<seq<byte>>): seq<byte> {
    if to == [] then [] else EncodeChunk(to[0]) + EncodeChunks(to[1..])
  }

  function EncodeBody(to: seq<seq<byte>>, raw: seq<byte>): seq<byte> {
    EncodeChunks(to) + EncodeChunk(raw)
  }

  function EncodeTail(at: int64, to: seq<seq<byte>>, raw: seq<byte>): seq<byte> {
    EncodeUvarint(ToUint64(at)) + (EncodeUvarint(|to|) + EncodeBody(to, raw))
  }

  function EncodeFields(e: Email): seq<byte> {
    EncodeChunk(e.from) + (EncodeChunk(e.remoteAddr) + EncodeTail(e.receivedAt, e.to, e.raw))
  }

  const HEADER: seq<byte> := MAGIC + [VERSION]

  function Encode(e: Email): seq<byte> {
    HEADER + EncodeFields(e)
  }

  // ---- decoding: a value and the bytes after it -----------------------------------------

  type Parsed<T> = Result<(T, seq<byte>), CodecError>

  /** A length-prefixed piece. */
  function Chunk(a: seq<byte>, limit: nat, tooLarge: CodecError, short: CodecError): Parsed<seq<byte>> {
    match Uvarint(a)
    case Err(error) => Err(error)
    case Ok((n, rest)) =>
      if n > limit then Err(tooLarge)
      else if |rest| < n then Err(short)
      else Ok((rest[..n], rest[n..]))
  }

  function Str(a: seq<byte>): Parsed<seq<byte>> {
    Chunk(a, MAX_STRING_LEN, StringTooLarge, TruncatedString)
  }

  function Raw(a: seq<byte>): Parsed<seq<byte>> {
    Chunk(a, MAX_RAW_LEN, RawTooLarge, TruncatedBytes)
  }

  function Strs(a: seq<byte>, count: nat): Parsed<seq<seq<byte>>>
    decreases count
  {
    if count == 0 then Ok(([], a)) else
    match Str(a)
    case Err(error) => Err(error)
    case Ok((s, mid)) =>
      match Strs(mid, count - 1)
      case Err(error) => Err(error)
      case Ok((more, rest)) => Ok(([s] + more, rest))
  }

  /** The recipients and the raw message. */
  function Body(a: seq<byte>, count: nat): Parsed<(seq<seq<byte>>, seq<byte>)> {
    match Strs(a, count)
    case Err(error) => Err(error)
    case Ok((to, mid)) =>
      match Raw(mid)
      case Err(error) => Err(error)
      case Ok((raw, rest)) => Ok(((to, raw), rest))
  }

  function Counted(a: seq<byte>): Parsed<(seq<seq<byte>>, seq<byte>)> {
    match Uvarint(a)
    case Err(error) => Err(error)
    case Ok((count, mid)) => if count > MAX_TO_COUNT then Err(TooManyRecipients) else Body(mid, count)
  }

  /** The receive time and what follows it. */
  function Tail(a: seq<byte>): Parsed<(int64, seq<seq<byte>>, seq<byte>)> {
    match Uvarint(a)
    case Err(error) => Err(error)
    case Ok((at, mid)) =>
      match Counted(mid)
      case Err(error) => Err(error)
      case Ok((body, rest)) => Ok(((ToInt64(at), body.0, body.1), rest))
  }

  function Pair(a: seq<byte>): Parsed<(seq<byte>, seq<byte>)> {
    match Str(a)
    case Err(error) => Err(error)
    case Ok((from, mid)) =>
      match Str(mid)
      case Err(error) => Err(error)
      case Ok((remoteAddr, rest)) => Ok(((from, remoteAddr), rest))
  }

  function Fields(a: seq<byte>): Parsed<Email> {
    match Pair(a)
    case Err(error) => Err(error)
    case Ok((pair, mid)) =>
      match Tail(mid)
      case Err(error) => Err(error)
      case Ok((tail, rest)) => Ok((Email(pair.0, pair.1, tail.0, tail.1, tail.2), rest))
  }

  predicate IsBinary(data: seq<byte>) {
    |data| >= 5 && data[..4] == MAGIC
  }

  /** Every byte must have been used. */
  function Finish(p: Parsed<Email>): Result<Email, CodecError> {
    match p
    case Err(error) => Err(error)
    case Ok((e, rest)) => if rest != [] then Err(TrailingBytes) else Ok(e)
  }

  /** The binary branch of the decoder. */
  function DecodeBinary(data: seq<byte>): Result<Email, CodecError>
    requires IsBinary(data)
  {
    if data[4] != VERSION then Err(UnsupportedVersion(data[4])) else Finish(Fields(data[5..]))
  }

  /** The decoder; `json` stands for the older JSON form of a queued message. */
  function Decode(data: seq<byte>, json: seq<byte> -> Option<Email>): Result<Email, CodecError> {
    if data == [] then Err(Empty)
    else if !IsBinary(data) then match json(data) { case None => Err(JsonFallback) case Some(e) => Ok(e) }
    else DecodeBinary(data)
  }

  /** What the encoder answers, its checks in the order it makes them. */
  function Encoded(e: Email): Result<seq<byte>, CodecError> {
    if |e.from| > MAX_STRING_LEN || |e.remoteAddr| > MAX_STRING_LEN then Err(StringTooLarge)
    else if |e.to| > MAX_TO_COUNT then Err(TooManyRecipients)
    else if exists r :: r in e.to && |r| > MAX_STRING_LEN then Err(RecipientTooLarge)
    else if |e.raw| > MAX_RAW_LEN then Err(RawTooLarge)
    else Ok(Encode(e))
  }

  // ---- minimal varints ------------------------------------------------------------------

  /** Each of the next `count` lengths is written without a superfluous zero. */
  predicate MinimalStrs(a: seq<byte>, count: nat)
    decreases count
  {
    count == 0 || Str(a).Err? || (MinimalAt(a) && MinimalStrs(Str(a).value.1, count - 1))
  }

  predicate MinimalBody(a: seq<byte>, count: nat) {
    MinimalStrs(a, count) && (Strs(a, count).Ok? ==> MinimalAt(Strs(a, count).value.1))
  }

  predicate MinimalCounted(a: seq<byte>) {
    MinimalAt(a) && (Uvarint(a).Ok? ==> MinimalBody(Uvarint(a).value.1, Uvarint(a).value.0))
  }

  predicate MinimalTail(a: seq<byte>) {
    MinimalAt(a) && (Uvarint(a).Ok? ==> MinimalCounted(Uvarint(a).value.1))
  }

  predicate MinimalPair(a: seq<byte>) {
    MinimalAt(a) && (Str(a).Ok? ==> MinimalAt(Str(a).value.1))
  }

  predicate MinimalFields(a: seq<byte>) {
    MinimalPair(a) && (Pair(a).Ok? ==> MinimalTail(Pair(a).value.1))
  }

  /** Every length, the count and the time in `data` are written without a superfluous zero. */
  predicate MinimalData(data: seq<byte>)
    requires IsBinary(data)
  {
    MinimalFields(data[5..])
  }
}
