/** Base-128 varints (unsigned LEB128, section 7.6 of the DWARF 5 standard) as the queue codec writes and
    reads them. */
module Varint {
  import opened Powers
  import opened Wrappers

  type byte = b: nat | b < 256

  const MAX_VARINT_LEN := 10
  const TWO_64: nat := 0x1_0000_0000_0000_0000

  type uint64 = u: nat | u < TWO_64

  datatype CodecError =
    | NilEmail | NilOut | Empty | UnsupportedVersion(version: byte) | JsonFallback
    | StringTooLarge | TooManyRecipients | RecipientTooLarge | RawTooLarge
    | Truncated | TruncatedVarint | VarintOverflow | TruncatedString | TruncatedBytes | TrailingBytes
    | InvalidHeaderValue | InvalidRecipient | InvalidReceivedAt

  // ---- machine words --------------------------------------------------------------------

  /** Bitwise or. */
  function Or(x: nat, y: nat): nat {
    if x == 0 || y == 0 then x + y
    else (if x % 2 == 1 || y % 2 == 1 then 1 else 0) + 2 * Or(x / 2, y / 2)
  }

  /** `uint64(v) << s`: bits above the 64th are lost. */
  function ShiftLeft(v: nat, s: nat): nat {
    v * Pow2(s) % TWO_64
  }

  lemma Times2(y: nat, p: nat)
    ensures y * (2 * p) == 2 * (y * p)
  {
  }

  /** Or-ing in bits above those of `x` adds them. */
  lemma {:induction false} OrAbove(x: nat, y: nat, s: nat)
    requires x < Pow2(s)
    ensures Or(x, y * Pow2(s)) == x + y * Pow2(s)
    decreases s
  {
    if x > 0 && y * Pow2(s) > 0 {
      var p := Pow2(s - 1);
      Times2(y, p);
      var h := y * p;
      assert 2 * h % 2 == 0 && 2 * h / 2 == h;
      OrAbove(x / 2, y, s - 1);
    }
  }

  lemma {:induction false} Pow2Add(m: nat, n: nat)
    ensures Pow2(m + n) == Pow2(m) * Pow2(n)
  {
    if m > 0 {
      Pow2Add(m - 1, n);
      Times2(Pow2(n), Pow2(m - 1));
    }
  }

  // ---- what a varint means --------------------------------------------------------------

  /** The sum of (b mod 128) * 128^i over the bytes. */
  function Payload(s: seq<byte>): nat {
    if s == [] then 0 else s[0] % 128 + 128 * Payload(s[1..])
  }

  /** The number of leading bytes with the continuation bit. */
  function Continued(s: seq<byte>): (n: nat)
    ensures n <= |s|
    ensures forall i :: 0 <= i < n ==> s[i] >= 128
    ensures n < |s| ==> s[n] < 128
  {
    if s == [] || s[0] < 128 then 0 else 1 + Continued(s[1..])
  }

  /** The value at the front of `a` and what follows it. It takes the bytes up to the first one without a
      continuation bit, if that comes within ten bytes and the value fits into 64 bits. */
  function Uvarint(a: seq<byte>): Result<(uint64, seq<byte>), CodecError> {
    var n := Continued(a);
    if a == [] then Err(Truncated)
    else if n == |a| && n < MAX_VARINT_LEN then Err(TruncatedVarint)
    else if n >= MAX_VARINT_LEN || Payload(a[..n + 1]) >= TWO_64 then Err(VarintOverflow)
    else Ok((Payload(a[..n + 1]), a[n + 1..]))
  }

  /** `binary.PutUvarint`. */
  function EncodeUvarint(v: nat): (s: seq<byte>)
    ensures s != []
  {
    if v < 128 then [v] else [v % 128 + 128] + EncodeUvarint(v / 128)
  }

  // ---- the value of a run of bytes ------------------------------------------------------

  lemma {:induction false} PayloadBound(s: seq<byte>)
    ensures Payload(s) < Pow2(7 * |s|)
  {
    if s != [] {
      PayloadBound(s[1..]);
      Pow2Add(7, 7 * |s[1..]|);
      assert Pow2(7) == 128;
    }
  }

  lemma {:induction false} PayloadSnoc(s: seq<byte>, b: byte)
    ensures Payload(s + [b]) == Payload(s) + (b % 128) * Pow2(7 * |s|)
  {
    if s == [] {
      assert s + [b] == [b];
    } else {
      assert (s + [b])[1..] == s[1..] + [b];
      PayloadSnoc(s[1..], b);
      Pow2Add(7, 7 * |s[1..]|);
      assert Pow2(7) == 128;
      var p, c := Pow2(7 * |s[1..]|), b % 128;
      assert 128 * (c * p) == c * (128 * p);
    }
  }

  lemma Pow63(k: nat)
    requires k == 63
    ensures 2 * Pow2(k) == TWO_64
  {
    Pow2Add(31, 32);
    Pow2Add(16, 15);
    Pow2Add(16, 16);
    Pow2Add(8, 8);
    Pow2Add(8, 7);
    assert Pow2(4) == 16 && Pow2(8) == 256 && Pow2(7) == 128;
  }

  lemma {:induction false} Pow2Mono(m: nat, n: nat)
    requires m <= n
    ensures Pow2(m) <= Pow2(n)
  {
    if m < n {
      Pow2Mono(m, n - 1);
    }
  }

  lemma TenthByte(s: seq<byte>, b: byte)
    requires |s| == 9 && b < 128
    ensures Payload(s + [b]) < TWO_64 <==> b <= 1
  {
    var k := 7 * |s|;
    Pow63(k);
    PayloadBound(s);
    PayloadSnoc(s, b);
  }

  lemma EarlierByte(s: seq<byte>, b: byte)
    requires |s| < 9
    ensures Payload(s + [b]) < TWO_64
  {
    var k := 63;
    Pow63(k);
    PayloadBound(s + [b]);
    Pow2Mono(7 * |s + [b]|, k);
  }

  /** The decoder's test on the tenth byte is the test that the value fits into 64 bits. */
  lemma FitsExactly(s: seq<byte>, b: byte)
    requires |s| < MAX_VARINT_LEN && b < 128
    ensures Payload(s + [b]) < TWO_64 <==> |s| < 9 || b <= 1
  {
    if |s| < 9 {
      EarlierByte(s, b);
    } else {
      TenthByte(s, b);
    }
  }

  // ---- round trip -----------------------------------------------------------------------

  lemma {:induction false} EncodedShape(v: nat)
    ensures Payload(EncodeUvarint(v)) == v
    ensures forall i :: 0 <= i < |EncodeUvarint(v)| - 1 ==> EncodeUvarint(v)[i] >= 128
    ensures EncodeUvarint(v)[|EncodeUvarint(v)| - 1] < 128
    ensures |EncodeUvarint(v)| > 1 ==> EncodeUvarint(v)[|EncodeUvarint(v)| - 1] != 0
  {
    if v >= 128 {
      EncodedShape(v / 128);
      assert EncodeUvarint(v)[1..] == EncodeUvarint(v / 128);
    }
  }

  /** Ten bytes hold any 64-bit value: with the last byte not zero, each byte before it is needed. */
  lemma {:induction false} EncodedLength(v: nat, k: nat)
    requires k > 0 && v < Pow2(7 * k)
    ensures |EncodeUvarint(v)| <= k
  {
    if v >= 128 {
      assert Pow2(7) == 128;
      if k > 1 {
        Pow2Add(7, 7 * (k - 1));
        EncodedLength(v / 128, k - 1);
      }
    }
  }

  lemma {:induction false} ContinuedIs(s: seq<byte>, n: nat)
    requires n < |s| && s[n] < 128 && forall i :: 0 <= i < n ==> s[i] >= 128
    ensures Continued(s) == n
  {
  }

  lemma UvarintAt(s: seq<byte>, tail: seq<byte>)
    requires 0 < |s| <= MAX_VARINT_LEN && Payload(s) < TWO_64
    requires s[|s| - 1] < 128 && forall i :: 0 <= i < |s| - 1 ==> s[i] >= 128
    ensures Uvarint(s + tail) == Ok((Payload(s), tail))
  {
    ContinuedIs(s + tail, |s| - 1);
    assert (s + tail)[..|s|] == s && (s + tail)[|s|..] == tail;
  }

  lemma TenBytes(v: uint64)
    ensures |EncodeUvarint(v)| <= MAX_VARINT_LEN
  {
    var k := 63;
    Pow63(k);
    Pow2Mono(k + 1, 7 * MAX_VARINT_LEN);
    EncodedLength(v, MAX_VARINT_LEN);
  }

  lemma UvarintRoundTrip(v: uint64, tail: seq<byte>)
    ensures Uvarint(EncodeUvarint(v) + tail) == Ok((v, tail))
  {
    EncodedShape(v);
    TenBytes(v);
    UvarintAt(EncodeUvarint(v), tail);
  }

  // ---- minimal and other encodings ------------------------------------------------------

  lemma EncodeDigit(low: nat, high: nat)
    requires low < 128 && high > 0
    ensures EncodeUvarint(low + 128 * high) == [low + 128] + EncodeUvarint(high)
  {
    assert (low + 128 * high) % 128 == low && (low + 128 * high) / 128 == high;
  }

  lemma {:induction false} SameLast(s: seq<byte>)
    requires s != [] && (forall i :: 0 <= i < |s| - 1 ==> s[i] >= 128) && s[|s| - 1] < 128
    requires |s| == 1 || s[|s| - 1] != 0
    ensures EncodeUvarint(Payload(s)) == s
  {
    if |s| > 1 {
      var b, rest := s[0], s[1..];
      assert s == [b] + rest && b == b % 128 + 128;
      SameLast(rest);
      PositivePayload(rest);
      EncodeDigit(b % 128, Payload(rest));
    }
  }

  lemma {:induction false} PositivePayload(s: seq<byte>)
    requires s != [] && s[|s| - 1] % 128 != 0
    ensures Payload(s) > 0
  {
    if |s| > 1 {
      PositivePayload(s[1..]);
    }
  }

  /** The encoder's bytes are the shortest for the value of `s`, and they are `s` itself exactly when this
      does not end in a superfluous zero. */
  lemma {:induction false} Shortest(s: seq<byte>)
    requires s != [] && (forall i :: 0 <= i < |s| - 1 ==> s[i] >= 128) && s[|s| - 1] < 128
    ensures |EncodeUvarint(Payload(s))| <= |s|
    ensures EncodeUvarint(Payload(s)) == s <==> |s| == 1 || s[|s| - 1] != 0
    ensures EncodeUvarint(Payload(s)) == s <==> |EncodeUvarint(Payload(s))| == |s|
  {
    if |s| == 1 || s[|s| - 1] != 0 {
      SameLast(s);
    } else {
      var short := s[..|s| - 1];
      assert s == short + [s[|s| - 1]];
      PayloadSnoc(short, s[|s| - 1]);
      PayloadBound(short);
      EncodedLength(Payload(s), |short|);
    }
  }

  /** The varint at the front of `a` does not end in a superfluous zero: it is one byte, or its last is not 0. */
  predicate MinimalAt(a: seq<byte>) {
    Continued(a) == 0 || (Continued(a) < |a| && a[Continued(a)] != 0)
  }

  /** `pre` is what a reader took for a value whose encoding is `canonical`: that is no longer than `pre`, and it is
      `pre` exactly when what was read is minimal, and exactly when it is as long. */
  predicate Took(pre: seq<byte>, canonical: seq<byte>, minimal: bool) {
    |canonical| <= |pre| && (canonical == pre <==> minimal) && (canonical == pre <==> |canonical| == |pre|)
  }

  /** A varint is read from its own bytes alone: `pre` with anything behind it gives the same value. */
  lemma UvarintReads(a: seq<byte>, x: seq<byte>) returns (pre: seq<byte>)
    requires Uvarint(a).Ok?
    ensures var (v, rest) := Uvarint(a).value;
            a == pre + rest && Uvarint(pre + x) == Ok((v, x)) && Took(pre, EncodeUvarint(v), MinimalAt(a))
  {
    pre := a[..Continued(a) + 1];
    UvarintAt(pre, x);
    Shortest(pre);
  }
}
