/** The pagination token "<unix_ms>.<objectIdHex>": printed by the list handler
    (internal/handler/message.go), parsed by the store (internal/store/store.go). */
module CursorToken {
  import opened Wrappers
  import Strings

  const INT64_MIN := -0x8000_0000_0000_0000
  const INT64_MAX := 0x7fff_ffff_ffff_ffff

  /** 12-byte object ids, as the numbers their bytes spell. */
  const ID_LIMIT: nat := 0x1_0000_0000_0000_0000_0000_0000

  predicate IsInt64(x: int) {
    INT64_MIN <= x <= INT64_MAX
  }

  // ---- decimal numbers ------------------------------------------------------------------

  function Digit(d: nat): char
    requires d < 10
  {
    ('0' as int + d) as char
  }

  /** Decimal digits without leading zeros. */
  function Digits(n: nat): string {
    if n < 10 then [Digit(n)] else Digits(n / 10) + [Digit(n % 10)]
  }

  /** The `%d` format. */
  function FormatInt(x: int): string {
    if x < 0 then "-" + Digits(-x) else Digits(x)
  }

  predicate AllDigits(s: string) {
    forall i :: 0 <= i < |s| ==> '0' <= s[i] <= '9'
  }

  function DigitsValue(s: string): nat
    requires AllDigits(s)
  {
    if s == "" then 0 else 10 * DigitsValue(s[..|s| - 1]) + (s[|s| - 1] as int - '0' as int)
  }

  /** Parsing a base-10 64-bit integer: an optional sign, at least one digit, nothing else, in range. */
  function ParseInt64(s: string): Option<int> {
    var negative := s != "" && s[0] == '-';
    var body := if s != "" && (s[0] == '-' || s[0] == '+') then s[1..] else s;
    if body == "" || !AllDigits(body) then None
    else
      var value := if negative then 0 - DigitsValue(body) else DigitsValue(body);
      if IsInt64(value) then Some(value) else None
  }

  lemma {:induction false} DigitsRoundTrip(n: nat)
    ensures Digits(n) != "" && AllDigits(Digits(n)) && DigitsValue(Digits(n)) == n
  {
    var s := Digits(n);
    if n >= 10 {
      DigitsRoundTrip(n / 10);
      assert s[..|s| - 1] == Digits(n / 10);
    } else {
      assert s[..0] == "";
    }
  }

  /** Printing and parsing are inverse on all of int64. */
  lemma IntRoundTrip(x: int)
    requires IsInt64(x)
    ensures ParseInt64(FormatInt(x)) == Some(x)
  {
    var s := FormatInt(x);
    if x < 0 {
      DigitsRoundTrip(-x);
      assert s[1..] == Digits(-x);
    } else {
      DigitsRoundTrip(x);
      assert '0' <= s[0] <= '9';
    }
  }

  // ---- object ids -----------------------------------------------------------------------

  function HexDigit(d: nat): char
    requires d < 16
  {
    if d < 10 then ('0' as int + d) as char else ('a' as int + (d - 10)) as char
  }

  /** Either case is accepted. */
  function HexValue(c: char): Option<nat> {
    if '0' <= c <= '9' then Some(c as int - '0' as int)
    else if 'a' <= c <= 'f' then Some(c as int - 'a' as int + 10)
    else if 'A' <= c <= 'F' then Some(c as int - 'A' as int + 10)
    else None
  }

  /** The low `width` hexadecimal digits of `n`. */
  function Hex(n: nat, width: nat): (s: string)
    ensures |s| == width
  {
    if width == 0 then "" else Hex(n / 16, width - 1) + [HexDigit(n % 16)]
  }

  function HexNumber(s: string): Option<nat> {
    if s == "" then Some(0)
    else
      match (HexNumber(s[..|s| - 1]), HexValue(s[|s| - 1]))
      case (Some(high), Some(low)) => Some(16 * high + low)
      case _ => None
  }

  /** Printed in lower case, read in either. */
  lemma {:induction false} HexIgnoresCase(s: string, t: string)
    requires |s| == |t| && forall i :: 0 <= i < |s| ==> Strings.SameLetter(s[i], t[i])
    ensures HexNumber(s) == HexNumber(t)
  {
    if s != "" {
      HexIgnoresCase(s[..|s| - 1], t[..|t| - 1]);
    }
  }

  lemma {:induction false} HexIsLower(n: nat, width: nat)
    ensures forall i :: 0 <= i < width ==> Hex(n, width)[i] in "0123456789abcdef"
  {
    if width > 0 {
      HexIsLower(n / 16, width - 1);
      var d := n % 16;
      assert "0123456789abcdef"[d] == HexDigit(d);
    }
  }

  /** An object id is exactly 24 hexadecimal digits. */
  function ParseObjectId(s: string): Option<nat> {
    if |s| != 24 then None else HexNumber(s)
  }

  function FormatObjectId(id: nat): string {
    Hex(id, 24)
  }

  function Pow16(n: nat): nat {
    if n == 0 then 1 else 16 * Pow16(n - 1)
  }

  lemma {:induction false} HexRoundTrip(n: nat, width: nat)
    requires n < Pow16(width)
    ensures HexNumber(Hex(n, width)) == Some(n)
  {
    var s := Hex(n, width);
    if width > 0 {
      HexRoundTrip(n / 16, width - 1);
      assert s[..|s| - 1] == Hex(n / 16, width - 1);
    }
  }

  lemma ObjectIdRoundTrip(id: nat)
    requires id < ID_LIMIT
    ensures ParseObjectId(FormatObjectId(id)) == Some(id)
  {
    assert Pow16(24) == ID_LIMIT by {
      assert Pow16(6) == 0x100_0000;
      assert Pow16(12) == 0x1_0000_0000_0000;
      assert Pow16(18) == 0x100_0000_0000_0000_0000;
    }
    HexRoundTrip(id, 24);
  }

  // ---- the token ------------------------------------------------------------------------

  function Token(ms: int, id: nat): string {
    FormatInt(ms) + "." + FormatObjectId(id)
  }

  /** The position of the first dot, or the length. */
  function FirstDot(s: string): (i: nat)
    ensures i <= |s| && (forall j :: 0 <= j < i ==> s[j] != '.') && (i < |s| ==> s[i] == '.')
  {
    if s == "" || s[0] == '.' then 0 else 1 + FirstDot(s[1..])
  }

  /** `None` when the text is not a token; the caller then tries it as a plain message id. */
  function ParseToken(s: string): Option<(int, nat)> {
    var i := FirstDot(s);
    if i == 0 || i + 1 >= |s| then None
    else
      match (ParseInt64(s[..i]), ParseObjectId(s[i + 1..]))
      case (Some(ms), Some(id)) => Some((ms, id))
      case _ => None
  }

  lemma IntHasNoDot(x: int)
    ensures FormatInt(x) != "" && forall j :: 0 <= j < |FormatInt(x)| ==> FormatInt(x)[j] != '.'
  {
    DigitsRoundTrip(if x < 0 then -x else x);
  }

  /** What the handler prints the store reads back, for every millisecond count and object id. */
  lemma TokenRoundTrip(ms: int, id: nat)
    requires IsInt64(ms) && id < ID_LIMIT
    ensures ParseToken(Token(ms, id)) == Some((ms, id))
  {
    var s := Token(ms, id);
    IntHasNoDot(ms);
    assert s[|FormatInt(ms)|] == '.';
    assert FirstDot(s) == |FormatInt(ms)|;
    assert s[..FirstDot(s)] == FormatInt(ms) && s[FirstDot(s) + 1..] == FormatObjectId(id);
    IntRoundTrip(ms);
    ObjectIdRoundTrip(id);
  }

  /** A plain message id is never mistaken for a token. */
  lemma {:induction false} ObjectIdIsNoToken(s: string)
    requires ParseObjectId(s).Some?
    ensures ParseToken(s) == None
  {
    HexHasNoDot(s);
  }

  lemma {:induction false} HexHasNoDot(s: string)
    requires HexNumber(s).Some?
    ensures forall j :: 0 <= j < |s| ==> s[j] != '.'
  {
    if s != "" {
      HexHasNoDot(s[..|s| - 1]);
    }
  }
}
