/** The header form of a queued email: metadata in message headers, the raw message as the body
    (internal/queue/queue.go, Publish, decodeIncomingEmailFromHeaders and validateIncomingEmail). */
module QueueHeaders {
  import opened Wrappers
  import opened Strings
  import opened CursorToken
  import opened Varint
  import opened Codec

  const CODEC := "X-MailAPI-Codec"
  const CODEC_V1 := "hdr1"
  const FROM := "X-MailAPI-From"
  const REMOTE_ADDR := "X-MailAPI-Remote-Addr"
  const RECEIVED_AT := "X-MailAPI-Received-At"
  const TO := "X-MailAPI-To"

  datatype Mail = Mail(from: string, remoteAddr: string, receivedAt: int64, to: seq<string>, raw: seq<byte>)

  type Headers = map<string, seq<string>>

  function Values(h: Headers, name: string): seq<string> {
    if name in h then h[name] else []
  }

  /** The first value, or the empty string. */
  function Get(h: Headers, name: string): string {
    if Values(h, name) == [] then "" else Values(h, name)[0]
  }

  // ---- what is valid --------------------------------------------------------------------

  predicate OneLine(s: string) {
    '\r' !in s && '\n' !in s
  }

  /** What `validateIncomingEmail` objects to, in the order it looks. */
  function Objection(m: Mail): Option<CodecError> {
    if |m.from| > MAX_STRING_LEN || |m.remoteAddr| > MAX_STRING_LEN then Some(StringTooLarge)
    else if |m.to| > MAX_TO_COUNT then Some(TooManyRecipients)
    else if exists r :: r in m.to && |r| > MAX_STRING_LEN then Some(RecipientTooLarge)
    else if |m.raw| > MAX_RAW_LEN then Some(RawTooLarge)
    else if !OneLine(m.from) || !OneLine(m.remoteAddr) then Some(InvalidHeaderValue)
    else if exists r :: r in m.to && !OneLine(r) then Some(InvalidRecipient)
    else None
  }

  // ---- writing and reading headers ------------------------------------------------------

  function Published(m: Mail): Headers {
    var h := map[CODEC := [CODEC_V1], FROM := [m.from], REMOTE_ADDR := [m.remoteAddr],
                 RECEIVED_AT := [FormatInt(m.receivedAt)]];
    if m.to == [] then h else h[TO := m.to]
  }

  /** The recipients a reader keeps: without surrounding space, and only if something is left. */
  function Kept(vv: seq<string>): seq<string> {
    if vv == [] then []
    else
      var p := TrimSpace(vv[|vv| - 1]);
      Kept(vv[..|vv| - 1]) + if p == "" then [] else [p]
  }

  predicate IsHeaderForm(h: Headers) {
    h != map[] && ToLower(TrimSpace(Get(h, CODEC))) == CODEC_V1
  }

  /** The fields the headers give a fresh mail, `None` if the receive time is no number. */
  function Fields(h: Headers, data: seq<byte>, blank: Mail): Option<Mail> {
    var s := TrimSpace(Get(h, RECEIVED_AT));
    var at := if s == "" then Some(blank.receivedAt) else ParseInt64(s);
    var to := if Values(h, TO) == [] then blank.to else Kept(Values(h, TO));
    if at == None then None else Some(Mail(Get(h, FROM), Get(h, REMOTE_ADDR), at.value, to, data))
  }

  function Received(h: Headers, data: seq<byte>, blank: Mail): Result<Mail, CodecError> {
    match Fields(h, data, blank)
    case None => Err(InvalidReceivedAt)
    case Some(m) =>
      if |Values(h, TO)| > MAX_TO_COUNT then Err(TooManyRecipients)
      else if Objection(m) != None then Err(Objection(m).value)
      else Ok(m)
  }

  class Incoming {
    var from: string
    var remoteAddr: string
    var receivedAt: int64
    var to: seq<string>
    var raw: seq<byte>

    ghost function Value(): Mail
      reads this
    {
      Mail(from, remoteAddr, receivedAt, to, raw)
    }
  }

  /** `validateIncomingEmail`. */
  method Validate(m: Incoming) returns (error: Option<CodecError>)
    ensures error == Objection(m.Value())
  {
    if |m.from| > MAX_STRING_LEN || |m.remoteAddr| > MAX_STRING_LEN {
      return Some(StringTooLarge);
    }
    if |m.to| > MAX_TO_COUNT {
      return Some(TooManyRecipients);
    }
    for i := 0 to |m.to|
      invariant forall j :: 0 <= j < i ==> |m.to[j]| <= MAX_STRING_LEN
    {
      if |m.to[i]| > MAX_STRING_LEN {
        return Some(RecipientTooLarge);
      }
    }
    if |m.raw| > MAX_RAW_LEN {
      return Some(RawTooLarge);
    }
    if !OneLine(m.from) || !OneLine(m.remoteAddr) {
      return Some(InvalidHeaderValue);
    }
    for i := 0 to |m.to|
      invariant forall j :: 0 <= j < i ==> OneLine(m.to[j])
    {
      if !OneLine(m.to[i]) {
        return Some(InvalidRecipient);
      }
    }
    error := None;
  }

  /** The message `Publish` hands to the queue: headers and body, or the reason it refuses. */
  method Publish(m: Incoming?) returns (r: Result<(Headers, seq<byte>), CodecError>)
    ensures m == null ==> r == Err(NilEmail)
    ensures m != null ==>
              r == match Objection(m.Value()) case Some(e) => Err(e) case None => Ok((Published(m.Value()), m.raw))
  {
    if m == null {
      return Err(NilEmail);
    }
    var error := Validate(m);
    if error.Some? {
      return Err(error.value);
    }
    var h: Headers := map[];
    h := h[CODEC := [CODEC_V1]];
    h := h[FROM := [m.from]];
    h := h[REMOTE_ADDR := [m.remoteAddr]];
    h := h[RECEIVED_AT := [FormatInt(m.receivedAt)]];
    ghost var base := h;
    for i := 0 to |m.to|
      invariant h == if i == 0 then base else base[TO := m.to[..i]]
    {
      assert m.to[..i + 1] == m.to[..i] + [m.to[i]];
      h := h[TO := Values(h, TO) + [m.to[i]]];
    }
    assert m.to[..|m.to|] == m.to;
    r := Ok((h, m.raw));
  }

  /** `decodeIncomingEmailFromHeaders`: `handled` is false for a message without this form, which is left to
      the other decoders. Fields may be filled in even when an error is reported. */
  method DecodeFromHeaders(h: Headers, data: seq<byte>, out: Incoming)
    returns (handled: bool, error: Option<CodecError>)
    modifies out
    ensures handled == IsHeaderForm(h)
    ensures !handled ==> error == None && out.Value() == old(out.Value())
    ensures handled ==>
              match Received(h, data, old(out.Value()))
              case Ok(m) => error == None && out.Value() == m
              case Err(e) => error == Some(e)
  {
    if |h| == 0 {
      return false, None;
    }
    if ToLower(TrimSpace(Get(h, CODEC))) != CODEC_V1 {
      return false, None;
    }
    out.from := Get(h, FROM);
    out.remoteAddr := Get(h, REMOTE_ADDR);
    out.raw := data;
    var s := TrimSpace(Get(h, RECEIVED_AT));
    if s != "" {
      var v := ParseInt64(s);
      if v == None {
        return true, Some(InvalidReceivedAt);
      }
      out.receivedAt := v.value;
    }
    var vv := Values(h, TO);
    if |vv| > 0 {
      if |vv| > MAX_TO_COUNT {
        return true, Some(TooManyRecipients);
      }
      var to := KeepRecipients(vv);
      out.to := to;
    }
    var objection := Validate(out);
    return true, objection;
  }

  method KeepRecipients(vv: seq<string>) returns (to: seq<string>)
    ensures to == Kept(vv)
  {
    to := [];
    for i := 0 to |vv|
      invariant to == Kept(vv[..i])
    {
      assert vv[..i + 1][..i] == vv[..i];
      var p := TrimSpace(vv[i]);
      if p == "" {
        continue;
      }
      to := to + [p];
    }
    assert vv[..|vv|] == vv;
  }

  // ---- what is refused, and what is kept ------------------------------------------------

  /** A mail is accepted exactly if its sender, its peer's address and each of at most 2048 recipients have at most
      16384 bytes and no line break in them, and the message has at most 64 MiB. */
  lemma AcceptedExactly(m: Mail)
    ensures Objection(m) == None <==>
              (forall s :: s in [m.from, m.remoteAddr] + m.to ==>
                 |s| <= 16384 && forall i :: 0 <= i < |s| ==> s[i] != '\r' && s[i] != '\n') &&
              |m.to| <= 2048 && |m.raw| <= 64 * 1024 * 1024
  {
    var all := [m.from, m.remoteAddr] + m.to;
    assert all[0] == m.from && all[1] == m.remoteAddr;
    assert forall r :: r in m.to ==> r in all;
  }

  /** The recipients kept are the published ones in order, each without surrounding space, and without those of
      which nothing is left. */
  lemma {:induction false} KeptAppend(vv: seq<string>, more: seq<string>)
    ensures Kept(vv + more) == Kept(vv) + Kept(more)
    ensures |more| == 1 ==> Kept(more) == if TrimSpace(more[0]) == "" then [] else [TrimSpace(more[0])]
    decreases |more|
  {
    if more == [] {
      assert vv + more == vv;
    } else {
      assert (vv + more)[..|vv + more| - 1] == vv + more[..|more| - 1];
      KeptAppend(vv, more[..|more| - 1]);
    }
  }

  /** Headers are read as this form exactly if they name it, in any case and with any space around it; other messages
      are left to the other decoders. */
  lemma FormExactly(h: Headers)
    ensures IsHeaderForm(h) <==>
              "X-MailAPI-Codec" in h && h["X-MailAPI-Codec"] != [] && Normalize(h["X-MailAPI-Codec"][0]) == "hdr1"
  {
    assert CODEC in h ==> h != map[];
    assert TrimSpace("") == "" && |ToLower("")| == 0;
  }

  /** Headers of this form are rejected for a receive time that is no number, for more than 2048 recipients before
      blank ones are dropped, and for what `Publish` would refuse; a missing receive time is none of these. */
  lemma RejectedExactly(h: Headers, data: seq<byte>, blank: Mail)
    ensures var time := TrimSpace(Get(h, RECEIVED_AT));
            Received(h, data, blank).Ok? <==>
              (time == "" || ParseInt64(time).Some?) && |Values(h, TO)| <= 2048 &&
              Objection(Mail(Get(h, FROM), Get(h, REMOTE_ADDR), 0,
                             if Values(h, TO) == [] then blank.to else Kept(Values(h, TO)), data)) == None
  {
  }

  // ---- round trip -----------------------------------------------------------------------

  predicate Clean(r: string) {
    r != "" && TrimSpace(r) == r
  }

  /** Every kept recipient is clean and comes from one that was published. */
  lemma {:induction false} KeptFrom(vv: seq<string>, r: string) returns (v: string)
    requires r in Kept(vv)
    ensures Clean(r) && v in vv && r == TrimSpace(v)
  {
    var last := vv[|vv| - 1];
    if r in Kept(vv[..|vv| - 1]) {
      v := KeptFrom(vv[..|vv| - 1], r);
    } else {
      v := last;
      TrimTwice(last);
    }
  }

  lemma {:induction false} KeptSize(vv: seq<string>)
    ensures |Kept(vv)| <= |vv|
  {
    if vv != [] {
      KeptSize(vv[..|vv| - 1]);
    }
  }

  lemma {:induction false} CleanKept(vv: seq<string>)
    requires forall r :: r in vv ==> Clean(r)
    ensures Kept(vv) == vv
  {
    if vv != [] {
      CleanKept(vv[..|vv| - 1]);
      assert vv[|vv| - 1] in vv;
      assert vv == vv[..|vv| - 1] + [vv[|vv| - 1]];
    }
  }

  lemma KeptValid(m: Mail)
    requires Objection(m) == None
    ensures Objection(m.(to := Kept(m.to))) == None
  {
    KeptSize(m.to);
    forall r | r in Kept(m.to) ensures |r| <= MAX_STRING_LEN && OneLine(r) {
      var v := KeptFrom(m.to, r);
      TrimDrops(v, '\r');
      TrimDrops(v, '\n');
    }
  }

  lemma PlainInt(x: int64)
    ensures TrimSpace(FormatInt(x)) == FormatInt(x) && FormatInt(x) != "" && ParseInt64(FormatInt(x)) == Some(x)
  {
    var n: int := x;
    IntRoundTrip(n);
    DigitsRoundTrip(if n < 0 then 0 - n else n);
    var s := FormatInt(x);
    assert '0' <= s[|s| - 1] <= '9' && (s[0] == '-' || '0' <= s[0] <= '9');
    TrimTwice(s);
  }

  /** Whatever is published is received, with every field as it was, except that recipients lose surrounding
      space and blank ones are dropped. */
  lemma PublishedIsReceived(m: Mail, blank: Mail)
    requires Objection(m) == None && blank.to == []
    ensures IsHeaderForm(Published(m))
    ensures Received(Published(m), m.raw, blank) == Ok(m.(to := Kept(m.to)))
  {
    var h := Published(m);
    TrimTwice(CODEC_V1);
    assert Get(h, CODEC) == CODEC_V1 && ToLower(CODEC_V1) == CODEC_V1;
    PlainInt(m.receivedAt);
    assert Get(h, RECEIVED_AT) == FormatInt(m.receivedAt) && Get(h, FROM) == m.from &&
           Get(h, REMOTE_ADDR) == m.remoteAddr;
    assert Values(h, TO) == m.to;
    assert CODEC in h;
    KeptValid(m);
  }

  /** The mail comes back unchanged exactly when no recipient is blank or has space around it. */
  lemma RoundTripExactly(m: Mail, blank: Mail)
    requires Objection(m) == None && blank.to == []
    ensures Received(Published(m), m.raw, blank) == Ok(m) <==> forall r :: r in m.to ==> Clean(r)
  {
    PublishedIsReceived(m, blank);
    if forall r :: r in m.to ==> Clean(r) {
      CleanKept(m.to);
    }
    if Kept(m.to) == m.to {
      forall r | r in m.to ensures Clean(r) {
        var v := KeptFrom(m.to, r);
      }
    }
  }
}
