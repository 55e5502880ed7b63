/** The codec's own loops over bytes (internal/queue/codec.go), each computing what `Codec` says. */
module CodecIO {
  import opened Powers
  import opened Wrappers
  import opened Varint
  import opened Codec
  import opened CodecLaws

  /** The decoder's input and the offset it advances. */
  class Reader {
    const data: seq<byte>
    var off: nat

    ghost predicate Valid()
      reads this
    {
      off <= |data|
    }

    ghost function Rest(): seq<byte>
      requires Valid()
      reads this
    {
      data[off..]
    }

    constructor (data: seq<byte>, off: nat)
      requires off <= |data|
      ensures Valid() && this.data == data && Rest() == data[off..]
    {
      this.data, this.off := data, off;
    }

    /** On success the offset is behind the value, on failure where it was. */
    method ReadUvarint() returns (r: Result<uint64, CodecError>)
      requires Valid()
      modifies this`off
      ensures Valid() && off >= old(off) && (r.Err? ==> off == old(off))
      ensures match Uvarint(old(Rest()))
              case Err(error) => r == Err(error)
              case Ok((v, rest)) => r == Ok(v) && Rest() == rest
    {
      var i := off;
      ghost var rest := Rest();
      if i >= |data| {
        return Err(Truncated);
      }
      var x, s, n := 0, 0, 0;
      while n < MAX_VARINT_LEN
        invariant Midway(rest, n, x) && i == off + n && s == 7 * n && off == old(off)
      {
        if i >= |data| {
          TruncatedAt(rest, n, x);
          return Err(TruncatedVarint);
        }
        var b := data[i];
        i := i + 1;
        if b < 0x80 {
          LastByte(rest, n, x);
          if n == MAX_VARINT_LEN - 1 && b > 1 {
            return Err(VarintOverflow);
          }
          off := i;
          return Ok(Or(x, ShiftLeft(b, s)));
        }
        NextByte(rest, n, x);
        x := Or(x, ShiftLeft(b % 128, s));
        s := s + 7;
        n := n + 1;
      }
      TooManyBytes(rest, x);
      return Err(VarintOverflow);
    }

    method ReadString() returns (r: Result<seq<byte>, CodecError>)
      requires Valid()
      modifies this`off
      ensures Valid() && off >= old(off)
      ensures match Str(old(Rest()))
              case Err(error) => r == Err(error)
              case Ok((s, rest)) => r == Ok(s) && Rest() == rest
    {
      var length := ReadUvarint();
      if length.Err? {
        return Err(length.error);
      }
      var n := length.value;
      if n > MAX_STRING_LEN {
        return Err(StringTooLarge);
      }
      if |data| - off < n {
        return Err(TruncatedString);
      }
      assert Rest()[..n] == data[off..off + n] && Rest()[n..] == data[off + n..];
      r := Ok(data[off..off + n]);
      off := off + n;
    }

    method ReadBytes() returns (r: Result<seq<byte>, CodecError>)
      requires Valid()
      modifies this`off
      ensures Valid() && off >= old(off)
      ensures match Raw(old(Rest()))
              case Err(error) => r == Err(error)
              case Ok((s, rest)) => r == Ok(s) && Rest() == rest
    {
      var length := ReadUvarint();
      if length.Err? {
        return Err(length.error);
      }
      var n := length.value;
      if n > MAX_RAW_LEN {
        return Err(RawTooLarge);
      }
      if |data| - off < n {
        return Err(TruncatedBytes);
      }
      assert Rest()[..n] == data[off..off + n] && Rest()[n..] == data[off + n..];
      r := Ok(data[off..off + n]);
      off := off + n;
    }
  }

  // ---- the arithmetic of the loop -------------------------------------------------------

  /** In the loop of `ReadUvarint`: `n` bytes with the continuation bit were read, and `x` is their value. */
  ghost predicate Midway(rest: seq<byte>, n: nat, x: nat) {
    n <= |rest| && n <= MAX_VARINT_LEN && rest != [] &&
    (forall k :: 0 <= k < n ==> rest[k] >= 128) &&
    (n < MAX_VARINT_LEN ==> x == Payload(rest[..n]))
  }

  lemma {:induction false} LastContinued(s: seq<byte>, n: nat)
    requires n <= |s| && forall k :: 0 <= k < n ==> s[k] >= 128
    ensures Continued(s) >= n
  {
    if n > 0 {
      LastContinued(s[1..], n - 1);
    }
  }

  lemma TruncatedAt(rest: seq<byte>, n: nat, x: nat)
    requires Midway(rest, n, x) && n == |rest| < MAX_VARINT_LEN
    ensures Uvarint(rest) == Err(TruncatedVarint)
  {
    LastContinued(rest, n);
  }

  lemma TooManyBytes(rest: seq<byte>, x: nat)
    requires Midway(rest, MAX_VARINT_LEN, x)
    ensures Uvarint(rest) == Err(VarintOverflow)
  {
    LastContinued(rest, MAX_VARINT_LEN);
  }

  lemma LastByte(rest: seq<byte>, n: nat, x: nat)
    requires Midway(rest, n, x) && n < |rest| && n < MAX_VARINT_LEN && rest[n] < 128
    ensures n == MAX_VARINT_LEN - 1 && rest[n] > 1 ==> Uvarint(rest) == Err(VarintOverflow)
    ensures !(n == MAX_VARINT_LEN - 1 && rest[n] > 1) ==>
              Or(x, ShiftLeft(rest[n], 7 * n)) < TWO_64 &&
              Uvarint(rest) == Ok((Or(x, ShiftLeft(rest[n], 7 * n)), rest[n + 1..]))
  {
    assert rest[..n + 1] == rest[..n] + [rest[n]];
    ContinuedIs(rest, n);
    FitsExactly(rest[..n], rest[n]);
    if Payload(rest[..n + 1]) < TWO_64 {
      OrDigit(rest[..n], rest[n]);
    }
  }

  lemma NextByte(rest: seq<byte>, n: nat, x: nat)
    requires Midway(rest, n, x) && n < |rest| && n < MAX_VARINT_LEN && rest[n] >= 128
    ensures Midway(rest, n + 1, Or(x, ShiftLeft(rest[n] % 128, 7 * n)))
  {
    if n < MAX_VARINT_LEN - 1 {
      assert rest[..n + 1] == rest[..n] + [rest[n]];
      EarlierByte(rest[..n], rest[n]);
      OrDigit(rest[..n], rest[n]);
    }
  }

  lemma NothingLost(v: nat, s: nat, total: nat)
    requires v * Pow2(s) <= total < TWO_64
    ensures ShiftLeft(v, s) == v * Pow2(s)
  {
  }

  /** Or-ing the shifted digit into the word adds it, and nothing is shifted out. */
  lemma OrDigit(s: seq<byte>, b: byte)
    requires Payload(s + [b]) < TWO_64
    ensures Or(Payload(s), ShiftLeft(b % 128, 7 * |s|)) == Payload(s + [b])
  {
    PayloadBound(s);
    PayloadSnoc(s, b);
    NothingLost(b % 128, 7 * |s|, Payload(s + [b]));
    OrAbove(Payload(s), b % 128, 7 * |s|);
  }
  // ---- decoding -------------------------------------------------------------------------

  /** `model.IncomingEmail`, filled in place. */
  class Incoming {
    var from: seq<byte>
    var remoteAddr: seq<byte>
    var receivedAt: int64
    var to: seq<seq<byte>>
    var raw: seq<byte>

    ghost function Value(): Email
      reads this
    {
      Email(from, remoteAddr, receivedAt, to, raw)
    }
  }

  function Before(done: seq<seq<byte>>, p: Parsed<seq<seq<byte>>>): Parsed<seq<seq<byte>>> {
    match p
    case Err(error) => Err(error)
    case Ok((more, rest)) => Ok((done + more, rest))
  }

  lemma BeforeNone(p: Parsed<seq<seq<byte>>>)
    ensures Before([], p) == p
  {
    assert p.Ok? ==> [] + p.value.0 == p.value.0;
  }

  lemma BeforeOne(done: seq<seq<byte>>, a: seq<byte>, count: nat)
    requires count > 0
    ensures Str(a).Err? ==> Before(done, Strs(a, count)) == Err(Str(a).error)
    ensures Str(a).Ok? ==>
              Before(done, Strs(a, count)) == Before(done + [Str(a).value.0], Strs(Str(a).value.1, count - 1))
  {
    if Str(a).Ok? {
      var (s, mid) := Str(a).value;
      if Strs(mid, count - 1).Ok? {
        assert done + ([s] + Strs(mid, count - 1).value.0) == (done + [s]) + Strs(mid, count - 1).value.0;
      }
    }
  }

  /** The loop over the recipients. */
  method ReadRecipients(rd: Reader, count: nat, out: Incoming) returns (error: Option<CodecError>)
    requires rd.Valid()
    modifies rd`off, out`to
    ensures rd.Valid() && rd.off >= old(rd.off)
    ensures match Strs(old(rd.Rest()), count)
            case Err(e) => error == Some(e)
            case Ok((to, rest)) => error == None && out.to == to && rd.Rest() == rest
  {
    ghost var all := Strs(rd.Rest(), count);
    out.to := [];
    BeforeNone(all);
    for k := 0 to count
      invariant rd.Valid() && rd.off >= old(rd.off)
      invariant Before(out.to, Strs(rd.Rest(), count - k)) == all
    {
      BeforeOne(out.to, rd.Rest(), count - k);
      var s := rd.ReadString();
      if s.Err? {
        return Some(s.error);
      }
      out.to := out.to + [s.value];
    }
    assert out.to + [] == out.to;
    error := None;
  }

  /** From the first field on: fills `out` and leaves the reader behind the raw message. */
  method ReadFields(rd: Reader, out: Incoming) returns (error: Option<CodecError>)
    requires rd.Valid()
    modifies rd`off, out
    ensures rd.Valid() && rd.off >= old(rd.off)
    ensures match Fields(old(rd.Rest()))
            case Err(e) => error == Some(e)
            case Ok((e, rest)) => error == None && out.Value() == e && rd.Rest() == rest
  {
    var from := rd.ReadString();
    if from.Err? {
      return Some(from.error);
    }
    out.from := from.value;
    var remoteAddr := rd.ReadString();
    if remoteAddr.Err? {
      return Some(remoteAddr.error);
    }
    out.remoteAddr := remoteAddr.value;
    error := ReadTail(rd, out);
  }

  method ReadTail(rd: Reader, out: Incoming) returns (error: Option<CodecError>)
    requires rd.Valid()
    modifies rd`off, out`receivedAt, out`to, out`raw
    ensures rd.Valid() && rd.off >= old(rd.off)
    ensures match Tail(old(rd.Rest()))
            case Err(e) => error == Some(e)
            case Ok((t, rest)) => error == None && (out.receivedAt, out.to, out.raw) == t && rd.Rest() == rest
  {
    var receivedAt := rd.ReadUvarint();
    if receivedAt.Err? {
      return Some(receivedAt.error);
    }
    out.receivedAt := ToInt64(receivedAt.value);
    var count := rd.ReadUvarint();
    if count.Err? {
      return Some(count.error);
    }
    if count.value > MAX_TO_COUNT {
      return Some(TooManyRecipients);
    }
    error := ReadRecipients(rd, count.value, out);
    if error.Some? {
      return;
    }
    var raw := rd.ReadBytes();
    if raw.Err? {
      return Some(raw.error);
    }
    out.raw := raw.value;
  }

  /** `decodeIncomingEmail`; a null `out` stands for Go's nil. */
  method DecodeIncomingEmail(data: seq<byte>, out: Incoming?, json: seq<byte> -> Option<Email>)
    returns (error: Option<CodecError>)
    modifies out
    ensures out == null ==> error == Some(NilOut)
    ensures out != null ==>
              match Decode(data, json)
              case Err(e) => error == Some(e)
              case Ok(e) => error == None && out.Value() == e
  {
    if out == null {
      return Some(NilOut);
    }
    if |data| == 0 {
      return Some(Empty);
    }
    if |data| < 5 || data[0] != MAGIC[0] || data[1] != MAGIC[1] || data[2] != MAGIC[2] || data[3] != MAGIC[3] {
      var older := json(data);
      if older.None? {
        return Some(JsonFallback);
      }
      var e := older.value;
      out.from, out.remoteAddr, out.receivedAt, out.to, out.raw := e.from, e.remoteAddr, e.receivedAt, e.to, e.raw;
      return None;
    }
    if data[4] != VERSION {
      return Some(UnsupportedVersion(data[4]));
    }
    var rd := new Reader(data, 5);
    error := ReadFields(rd, out);
    if error.Some? {
      return;
    }
    if rd.off != |data| {
      return Some(TrailingBytes);
    }
  }

  // ---- encoding -------------------------------------------------------------------------

  method AppendChunk(dst: seq<byte>, s: seq<byte>) returns (r: seq<byte>)
    ensures r == dst + EncodeChunk(s)
  {
    r := dst + EncodeUvarint(|s|);
    r := r + s;
    Assoc(dst, EncodeUvarint(|s|), s);
  }

  /** `encodeIncomingEmail`. */
  method EncodeIncomingEmail(email: Incoming?) returns (r: Result<seq<byte>, CodecError>)
    ensures email == null ==> r == Err(NilEmail)
    ensures email != null ==> r == Encoded(email.Value())
  {
    if email == null {
      return Err(NilEmail);
    }
    var from, remote, to, raw := email.from, email.remoteAddr, email.to, email.raw;
    if |from| > MAX_STRING_LEN || |remote| > MAX_STRING_LEN {
      return Err(StringTooLarge);
    }
    if |to| > MAX_TO_COUNT {
      return Err(TooManyRecipients);
    }
    for k := 0 to |to|
      invariant forall r :: r in to[..k] ==> |r| <= MAX_STRING_LEN
    {
      if |to[k]| > MAX_STRING_LEN {
        return Err(RecipientTooLarge);
      }
    }
    assert to[..|to|] == to;
    if |raw| > MAX_RAW_LEN {
      return Err(RawTooLarge);
    }
    var buf := AppendFields(HEADER, email);
    r := Ok(buf);
  }

  method AppendFields(dst: seq<byte>, email: Incoming) returns (buf: seq<byte>)
    ensures buf == dst + EncodeFields(email.Value())
  {
    var f, a := EncodeChunk(email.from), EncodeChunk(email.remoteAddr);
    buf := AppendChunk(dst, email.from);
    buf := AppendChunk(buf, email.remoteAddr);
    ghost var behind := buf;
    buf := buf + EncodeUvarint(ToUint64(email.receivedAt));
    buf := buf + EncodeUvarint(|email.to|);
    ghost var counted := buf;
    buf := AppendRecipients(buf, email.to);
    buf := AppendChunk(buf, email.raw);
    TailAppended(behind, EncodeUvarint(ToUint64(email.receivedAt)), EncodeUvarint(|email.to|),
          EncodeChunks(email.to), EncodeChunk(email.raw));
    HeadAppended(dst, f, a, EncodeTail(email.receivedAt, email.to, email.raw));
  }

  lemma TailAppended(d: seq<byte>, u: seq<byte>, c: seq<byte>, t: seq<byte>, r: seq<byte>)
    ensures d + u + c + t + r == d + (u + (c + (t + r)))
  {
  }

  lemma HeadAppended(d: seq<byte>, f: seq<byte>, a: seq<byte>, t: seq<byte>)
    ensures d + f + a + t == d + (f + (a + t))
  {
  }

  method AppendRecipients(dst: seq<byte>, to: seq<seq<byte>>) returns (buf: seq<byte>)
    ensures buf == dst + EncodeChunks(to)
  {
    buf := dst;
    for k := 0 to |to|
      invariant buf + EncodeChunks(to[k..]) == dst + EncodeChunks(to)
    {
      assert to[k..][1..] == to[k + 1..];
      ghost var done := buf;
      buf := AppendChunk(buf, to[k]);
      Assoc(done, EncodeChunk(to[k]), EncodeChunks(to[k + 1..]));
    }
    assert buf + [] == buf;
  }
}
