/** The laws of the binary form: what is encoded comes back, a message is never a prefix of another, and
    whatever is accepted could have been encoded. */
module CodecLaws {
  import opened Wrappers
  import opened Varint
  import opened Codec

  lemma Assoc(a: seq<byte>, b: seq<byte>, c: seq<byte>)
    ensures (a + b) + c == a + (b + c)
  {
  }

  // ---- round trip -----------------------------------------------------------------------

  lemma ChunkRoundTrip(s: seq<byte>, limit: nat, tail: seq<byte>, tooLarge: CodecError, short: CodecError)
    requires |s| <= limit < TWO_64
    ensures Chunk(EncodeChunk(s) + tail, limit, tooLarge, short) == Ok((s, tail))
  {
    Assoc(EncodeUvarint(|s|), s, tail);
    UvarintRoundTrip(|s|, s + tail);
    assert (s + tail)[..|s|] == s && (s + tail)[|s|..] == tail;
  }

  lemma StrRoundTrip(s: seq<byte>, tail: seq<byte>)
    requires |s| <= MAX_STRING_LEN
    ensures Str(EncodeChunk(s) + tail) == Ok((s, tail))
  {
    ChunkRoundTrip(s, MAX_STRING_LEN, tail, StringTooLarge, TruncatedString);
  }

  predicate Recipients(to: seq<seq<byte>>) {
    forall r :: r in to ==> |r| <= MAX_STRING_LEN
  }

  lemma StrsStep(s: seq<byte>, rest: seq<byte>, more: seq<seq<byte>>, tail: seq<byte>)
    requires |s| <= MAX_STRING_LEN && Strs(rest, |more|) == Ok((more, tail))
    ensures Strs(EncodeChunk(s) + rest, |more| + 1) == Ok(([s] + more, tail))
  {
    StrRoundTrip(s, rest);
  }

  lemma {:induction false} StrsRoundTrip(to: seq<seq<byte>>, tail: seq<byte>)
    requires Recipients(to)
    ensures Strs(EncodeChunks(to) + tail, |to|) == Ok((to, tail))
  {
    if to == [] {
      assert EncodeChunks(to) + tail == tail;
    } else {
      var s, more := to[0], to[1..];
      StrsRoundTrip(more, tail);
      StrsStep(s, EncodeChunks(more) + tail, more, tail);
      Assoc(EncodeChunk(s), EncodeChunks(more), tail);
      assert [s] + more == to;
    }
  }

  lemma BodyRoundTrip(to: seq<seq<byte>>, raw: seq<byte>, tail: seq<byte>)
    requires Recipients(to) && |raw| <= MAX_RAW_LEN
    ensures Body(EncodeBody(to, raw) + tail, |to|) == Ok(((to, raw), tail))
  {
    Assoc(EncodeChunks(to), EncodeChunk(raw), tail);
    StrsRoundTrip(to, EncodeChunk(raw) + tail);
    ChunkRoundTrip(raw, MAX_RAW_LEN, tail, RawTooLarge, TruncatedBytes);
  }

  lemma CountedRoundTrip(to: seq<seq<byte>>, raw: seq<byte>, tail: seq<byte>)
    requires |to| <= MAX_TO_COUNT && Recipients(to) && |raw| <= MAX_RAW_LEN
    ensures Counted(EncodeUvarint(|to|) + EncodeBody(to, raw) + tail) == Ok(((to, raw), tail))
  {
    Assoc(EncodeUvarint(|to|), EncodeBody(to, raw), tail);
    UvarintRoundTrip(|to|, EncodeBody(to, raw) + tail);
    BodyRoundTrip(to, raw, tail);
  }

  lemma TailStep(at: int64, rest: seq<byte>, to: seq<seq<byte>>, raw: seq<byte>, tail: seq<byte>)
    requires Counted(rest) == Ok(((to, raw), tail))
    ensures Tail(EncodeUvarint(ToUint64(at)) + rest) == Ok(((at, to, raw), tail))
  {
    assert ToInt64(ToUint64(at)) == at;
    UvarintRoundTrip(ToUint64(at), rest);
  }

  lemma TailRoundTrip(at: int64, to: seq<seq<byte>>, raw: seq<byte>, tail: seq<byte>)
    requires |to| <= MAX_TO_COUNT && Recipients(to) && |raw| <= MAX_RAW_LEN
    ensures Tail(EncodeTail(at, to, raw) + tail) == Ok(((at, to, raw), tail))
  {
    var counted := EncodeUvarint(|to|) + EncodeBody(to, raw);
    CountedRoundTrip(to, raw, tail);
    TailStep(at, counted + tail, to, raw, tail);
    Assoc(EncodeUvarint(ToUint64(at)), counted, tail);
  }

  lemma FieldsRoundTrip(e: Email, tail: seq<byte>)
    requires WithinLimits(e)
    ensures Fields(EncodeFields(e) + tail) == Ok((e, tail))
  {
    var f, a, t := EncodeChunk(e.from), EncodeChunk(e.remoteAddr), EncodeTail(e.receivedAt, e.to, e.raw);
    Assoc(f, a + t, tail);
    Assoc(a, t, tail);
    StrRoundTrip(e.from, a + (t + tail));
    StrRoundTrip(e.remoteAddr, t + tail);
    TailRoundTrip(e.receivedAt, e.to, e.raw, tail);
  }

  lemma BinaryIs(body: seq<byte>, json: seq<byte> -> Option<Email>)
    ensures IsBinary(HEADER + body) && Decode(HEADER + body, json) == Finish(Fields(body))
  {
    assert (HEADER + body)[5..] == body && (HEADER + body)[..4] == MAGIC;
  }

  /** Every email within the limits comes back unchanged, whatever its receive time. */
  lemma RoundTrip(e: Email, json: seq<byte> -> Option<Email>)
    requires WithinLimits(e)
    ensures Decode(Encode(e), json) == Ok(e)
  {
    FieldsRoundTrip(e, []);
    assert EncodeFields(e) + [] == EncodeFields(e);
    BinaryIs(EncodeFields(e), json);
  }

  // ---- what was read --------------------------------------------------------------------

  lemma TookBoth(p: seq<byte>, c: seq<byte>, m: bool, q: seq<byte>, d: seq<byte>, n: bool)
    requires Took(p, c, m) && Took(q, d, n)
    ensures Took(p + q, c + d, m && n)
  {
    if c + d == p + q {
      assert |c| == |p| && |d| == |q|;
    }
  }

  lemma ChunkReads(a: seq<byte>, limit: nat, tooLarge: CodecError, short: CodecError, x: seq<byte>)
    returns (pre: seq<byte>)
    requires Chunk(a, limit, tooLarge, short).Ok?
    ensures var (s, rest) := Chunk(a, limit, tooLarge, short).value;
            a == pre + rest && Chunk(pre + x, limit, tooLarge, short) == Ok((s, x)) &&
            |s| <= limit && Took(pre, EncodeChunk(s), MinimalAt(a))
  {
    var (n, mid) := Uvarint(a).value;
    var s := mid[..n];
    var v := UvarintReads(a, s + x);
    pre := v + s;
    Assoc(v, s, x);
    Assoc(v, s, mid[n..]);
    assert s + mid[n..] == mid;
    assert (s + x)[..n] == s && (s + x)[n..] == x;
    TookBoth(v, EncodeUvarint(n), MinimalAt(a), s, s, true);
  }

  lemma StrReads(a: seq<byte>, x: seq<byte>) returns (pre: seq<byte>)
    requires Str(a).Ok?
    ensures var (s, rest) := Str(a).value;
            a == pre + rest && Str(pre + x) == Ok((s, x)) &&
            |s| <= MAX_STRING_LEN && Took(pre, EncodeChunk(s), MinimalAt(a))
  {
    pre := ChunkReads(a, MAX_STRING_LEN, StringTooLarge, TruncatedString, x);
  }

  lemma StrsCons(a: seq<byte>, count: nat, s: seq<byte>, mid: seq<byte>, more: seq<seq<byte>>, x: seq<byte>)
    requires count > 0 && Str(a) == Ok((s, mid)) && Strs(mid, count - 1) == Ok((more, x))
    ensures Strs(a, count) == Ok(([s] + more, x))
  {
  }

  lemma ChunksCons(s: seq<byte>, more: seq<seq<byte>>)
    ensures EncodeChunks([s] + more) == EncodeChunk(s) + EncodeChunks(more)
  {
    assert ([s] + more)[1..] == more;
  }

  lemma MinimalCons(a: seq<byte>, count: nat, s: seq<byte>, mid: seq<byte>)
    requires count > 0 && Str(a) == Ok((s, mid))
    ensures MinimalStrs(a, count) <==> MinimalAt(a) && MinimalStrs(mid, count - 1)
  {
  }

  lemma {:induction false} StrsReads(a: seq<byte>, count: nat, x: seq<byte>) returns (pre: seq<byte>)
    requires Strs(a, count).Ok?
    ensures var (to, rest) := Strs(a, count).value;
            a == pre + rest && Strs(pre + x, count) == Ok((to, x)) &&
            |to| == count && Recipients(to) && Took(pre, EncodeChunks(to), MinimalStrs(a, count))
    decreases count
  {
    if count == 0 {
      pre := [];
      assert [] + x == x && [] + a == a;
    } else {
      var (s, mid) := Str(a).value;
      var (more, rest) := Strs(mid, count - 1).value;
      var q := StrsReads(mid, count - 1, x);
      var p := StrReads(a, q + x);
      pre := p + q;
      Assoc(p, q, rest);
      Assoc(p, q, x);
      StrsCons(pre + x, count, s, q + x, more, x);
      ChunksCons(s, more);
      MinimalCons(a, count, s, mid);
      TookBoth(p, EncodeChunk(s), MinimalAt(a), q, EncodeChunks(more), MinimalStrs(mid, count - 1));
    }
  }

  lemma BodyReads(a: seq<byte>, count: nat, x: seq<byte>) returns (pre: seq<byte>)
    requires Body(a, count).Ok?
    ensures var ((to, raw), rest) := Body(a, count).value;
            a == pre + rest && Body(pre + x, count) == Ok(((to, raw), x)) &&
            |to| == count && Recipients(to) && |raw| <= MAX_RAW_LEN &&
            Took(pre, EncodeBody(to, raw), MinimalBody(a, count))
  {
    var (to, mid) := Strs(a, count).value;
    var (raw, rest) := Raw(mid).value;
    var q := ChunkReads(mid, MAX_RAW_LEN, RawTooLarge, TruncatedBytes, x);
    var p := StrsReads(a, count, q + x);
    pre := p + q;
    Assoc(p, q, x);
    Assoc(p, q, rest);
    TookBoth(p, EncodeChunks(to), MinimalStrs(a, count), q, EncodeChunk(raw), MinimalAt(mid));
  }

  lemma CountedReads(a: seq<byte>, x: seq<byte>) returns (pre: seq<byte>)
    requires Counted(a).Ok?
    ensures var ((to, raw), rest) := Counted(a).value;
            a == pre + rest && Counted(pre + x) == Ok(((to, raw), x)) &&
            |to| <= MAX_TO_COUNT && Recipients(to) && |raw| <= MAX_RAW_LEN &&
            Took(pre, EncodeUvarint(|to|) + EncodeBody(to, raw), MinimalCounted(a))
  {
    var (count, mid) := Uvarint(a).value;
    var ((to, raw), rest) := Body(mid, count).value;
    var q := BodyReads(mid, count, x);
    var p := UvarintReads(a, q + x);
    pre := p + q;
    Assoc(p, q, x);
    Assoc(p, q, rest);
    TookBoth(p, EncodeUvarint(|to|), MinimalAt(a), q, EncodeBody(to, raw), MinimalBody(mid, count));
  }

  lemma TailReads(a: seq<byte>, x: seq<byte>) returns (pre: seq<byte>)
    requires Tail(a).Ok?
    ensures var ((at, to, raw), rest) := Tail(a).value;
            a == pre + rest && Tail(pre + x) == Ok(((at, to, raw), x)) &&
            |to| <= MAX_TO_COUNT && Recipients(to) && |raw| <= MAX_RAW_LEN &&
            Took(pre, EncodeTail(at, to, raw), MinimalTail(a))
  {
    var (at, mid) := Uvarint(a).value;
    var ((to, raw), rest) := Counted(mid).value;
    var q := CountedReads(mid, x);
    var p := UvarintReads(a, q + x);
    pre := p + q;
    Assoc(p, q, x);
    Assoc(p, q, rest);
    assert ToUint64(ToInt64(at)) == at;
    TookBoth(p, EncodeUvarint(at), MinimalAt(a), q, EncodeUvarint(|to|) + EncodeBody(to, raw), MinimalCounted(mid));
  }

  lemma PairReads(a: seq<byte>, x: seq<byte>) returns (pre: seq<byte>)
    requires Pair(a).Ok?
    ensures var ((from, remoteAddr), rest) := Pair(a).value;
            a == pre + rest && Pair(pre + x) == Ok(((from, remoteAddr), x)) &&
            |from| <= MAX_STRING_LEN && |remoteAddr| <= MAX_STRING_LEN &&
            Took(pre, EncodeChunk(from) + EncodeChunk(remoteAddr), MinimalPair(a))
  {
    var (from, mid) := Str(a).value;
    var (remoteAddr, rest) := Str(mid).value;
    var q := StrReads(mid, x);
    var p := StrReads(a, q + x);
    pre := p + q;
    Assoc(p, q, x);
    Assoc(p, q, rest);
    TookBoth(p, EncodeChunk(from), MinimalAt(a), q, EncodeChunk(remoteAddr), MinimalAt(mid));
  }

  lemma FieldsReads(a: seq<byte>, x: seq<byte>) returns (pre: seq<byte>)
    requires Fields(a).Ok?
    ensures var (e, rest) := Fields(a).value;
            a == pre + rest && Fields(pre + x) == Ok((e, x)) && WithinLimits(e) &&
            Took(pre, EncodeFields(e), MinimalFields(a))
  {
    var ((from, remoteAddr), mid) := Pair(a).value;
    var ((at, to, raw), rest) := Tail(mid).value;
    var q := TailReads(mid, x);
    var p := PairReads(a, q + x);
    pre := p + q;
    Assoc(p, q, x);
    Assoc(p, q, rest);
    var pair, tail := EncodeChunk(from) + EncodeChunk(remoteAddr), EncodeTail(at, to, raw);
    TookBoth(p, pair, MinimalPair(a), q, tail, MinimalTail(mid));
    Assoc(EncodeChunk(from), EncodeChunk(remoteAddr), EncodeTail(at, to, raw));
  }

  lemma BinaryBody(data: seq<byte>, json: seq<byte> -> Option<Email>) returns (body: seq<byte>)
    requires Accepted(data, json)
    ensures data == HEADER + body && Fields(body) == Ok((Decode(data, json).value, []))
  {
    body := data[5..];
    HeaderIs(data);
    BinaryIs(body, json);
  }

  lemma HeaderIs(data: seq<byte>)
    requires IsBinary(data) && data[4] == VERSION
    ensures data == HEADER + data[5..]
  {
    var magic := data[..4];
    assert data == magic + [data[4]] + data[5..];
  }

  lemma LongerBody(body: seq<byte>, more: seq<byte>)
    requires more != []
    ensures Finish(Fields(body)).Ok? ==> Finish(Fields(body + more)) == Err(TrailingBytes)
  {
    if Finish(Fields(body)).Ok? {
      var pre := FieldsReads(body, more);
      assert pre + [] == pre;
    }
  }

  /** The bytes are in binary form and accepted. */
  predicate Accepted(data: seq<byte>, json: seq<byte> -> Option<Email>) {
    IsBinary(data) && Decode(data, json).Ok?
  }

  /** Accepted bytes followed by more are rejected. */
  lemma ExtensionRejected(data: seq<byte>, more: seq<byte>, json: seq<byte> -> Option<Email>)
    requires more != []
    ensures Accepted(data, json) ==> Decode(data + more, json) == Err(TrailingBytes)
  {
    if Accepted(data, json) {
      var body := BinaryBody(data, json);
      LongerBody(body, more);
      Assoc(HEADER, body, more);
      BinaryIs(body + more, json);
    }
  }

  lemma ShorterBody(short: seq<byte>, more: seq<byte>, json: seq<byte> -> Option<Email>)
    requires more != []
    ensures Decode(HEADER + (short + more), json).Ok? ==> Decode(HEADER + short, json).Err?
  {
    BinaryIs(short + more, json);
    BinaryIs(short, json);
    LongerBody(short, more);
  }

  lemma SplitAfter(head: seq<byte>, body: seq<byte>, n: nat) returns (short: seq<byte>, more: seq<byte>)
    requires |head| <= n < |head| + |body|
    ensures short + more == body && more != [] && (head + body)[..n] == head + short
  {
    short, more := body[..n - |head|], body[n - |head|..];
  }

  /** A proper prefix of accepted bytes is rejected, unless it is too short to carry magic and version. */
  lemma PrefixRejected(data: seq<byte>, n: nat, json: seq<byte> -> Option<Email>)
    requires 5 <= n < |data|
    ensures Accepted(data, json) ==> Decode(data[..n], json).Err?
  {
    if Accepted(data, json) {
      var body := BinaryBody(data, json);
      var short, more := SplitAfter(HEADER, body, n);
      ShorterBody(short, more, json);
    }
  }

  /** An accepted email is within the encoder's limits; its encoding decodes to the same email, is no longer
      than what was read, and is byte for byte what was read exactly when every varint in it is minimal. */
  lemma AcceptedIsEncodable(data: seq<byte>, json: seq<byte> -> Option<Email>)
    ensures Accepted(data, json) ==>
              var e := Decode(data, json).value;
              WithinLimits(e) && Decode(Encode(e), json) == Ok(e) && |Encode(e)| <= |data| &&
              (Encode(e) == data <==> MinimalData(data))
  {
    if Accepted(data, json) {
      var body := BinaryBody(data, json);
      var pre := FieldsReads(body, []);
      assert pre + [] == pre;
      assert data[5..] == body;
      RoundTrip(Decode(data, json).value, json);
    }
  }

  lemma OneByte(b: byte, x: seq<byte>)
    requires b < 128
    ensures Uvarint([b] + x) == Ok((b, x))
  {
    assert [b][1..] == [];
    assert Payload([b]) == b;
    UvarintAt([b], x);
  }

  /** Zero in one byte and in two. */
  lemma TwoZeros(x: seq<byte>)
    ensures Uvarint([0x80, 0] + x) == Ok((0, x)) && Uvarint([0] + x) == Ok((0, x))
  {
    var two: seq<byte> := [0x80, 0];
    assert two[1..] == [0] && [0][1..] == [];
    assert Payload([0]) == 0 && Payload(two) == 0;
    UvarintAt(two, x);
    OneByte(0, x);
  }

  /** A varint with a superfluous zero is accepted: for every email without a sender, the length 0 may also be
      written in two bytes, and encoding what was decoded gives other bytes. */
  lemma NonMinimalAccepted(e: Email, json: seq<byte> -> Option<Email>) returns (data: seq<byte>)
    requires WithinLimits(e) && e.from == []
    ensures IsBinary(data) && Decode(data, json) == Ok(e) && Encode(e) != data
  {
    var rest := EncodeChunk(e.remoteAddr) + EncodeTail(e.receivedAt, e.to, e.raw);
    var body := [0x80, 0] + rest;
    data := HEADER + body;
    BinaryIs(body, json);
    RoundTrip(e, json);
    BinaryIs(EncodeFields(e), json);
    TwoZeros(rest);
    SameReading(body, [0] + rest);
    assert EncodeChunk([]) == [0];
    assert EncodeFields(e) == [0] + rest;
    assert |Encode(e)| != |data|;
  }

  lemma SameReading(a: seq<byte>, b: seq<byte>)
    requires Uvarint(a) == Uvarint(b)
    ensures Fields(a) == Fields(b)
  {
    assert Str(a) == Str(b);
    assert Pair(a) == Pair(b);
  }

  /** An email is encoded exactly if its sender, its peer's address and each of at most 2048 recipients have at most
      16384 bytes and the message has at most 64 MiB; the bytes start with "MAIL" and the version 1. */
  lemma EncodedExactly(e: Email)
    ensures Encoded(e).Ok? <==>
              (forall s :: s in [e.from, e.remoteAddr] + e.to ==> |s| <= 16384) &&
              |e.to| <= 2048 && |e.raw| <= 64 * 1024 * 1024
    ensures Encoded(e).Ok? ==> Encoded(e).value[..5] == [0x4d, 0x41, 0x49, 0x4c, 0x01]
  {
    var all := [e.from, e.remoteAddr] + e.to;
    assert all[0] == e.from && all[1] == e.remoteAddr;
    assert forall r :: r in e.to ==> r in all;
  }
}
