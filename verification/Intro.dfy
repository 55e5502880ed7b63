/** The message preview: whitespace collapsed while scanning, cut at a byte budget
    (internal/worker/worker.go, generateIntro and normalizeWhitespaceLimited). */
module Intro {

  /** A rune as the scanner sees it: how many bytes it takes and whether it is white space. */
  type Width = w: nat | 1 <= w <= 4 witness 1
  datatype Rune = Rune(code: nat, width: Width, space: bool)

  const SPACE := Rune(32, 1, true)
  const DOT := Rune(46, 1, false)

  function Bytes(s: seq<Rune>): nat {
    if s == [] then 0 else s[0].width + Bytes(s[1..])
  }

  // ---- the reference: words joined by single spaces -------------------------------------

  /** The maximal runs without white space, as strings.Fields gives them. */
  function Words(s: seq<Rune>): (ws: seq<seq<Rune>>)
    ensures s != [] && !s[0].space ==> ws != []
  {
    if s == [] then []
    else if s[0].space then Words(s[1..])
    else if |s| == 1 || s[1].space then [[s[0]]] + Words(s[1..])
    else [[s[0]] + Words(s[1..])[0]] + Words(s[1..])[1..]
  }

  function Join(ws: seq<seq<Rune>>): seq<Rune> {
    if ws == [] then [] else if |ws| == 1 then ws[0] else ws[0] + [SPACE] + Join(ws[1..])
  }

  function Full(s: seq<Rune>): seq<Rune> {
    Join(Words(s))
  }

  /** The longest piece of `full` from its start that has at most `limit` bytes and does not end in a space. */
  ghost predicate IsCut(full: seq<Rune>, limit: nat, out: seq<Rune>) {
    Fits(full, limit, out) && forall p :: Fits(full, limit, p) ==> |p| <= |out|
  }

  predicate Fits(full: seq<Rune>, limit: nat, p: seq<Rune>) {
    p <= full && Bytes(p) <= limit && (p != [] ==> !p[|p| - 1].space)
  }

  /** There is only one such piece. */
  lemma {:induction false} CutUnique(full: seq<Rune>, limit: nat, a: seq<Rune>, b: seq<Rune>)
    requires IsCut(full, limit, a) && IsCut(full, limit, b)
    ensures a == b
  {
    assert a == full[..|a|] && b == full[..|b|];
  }

  function Limit(maxLen: int): nat {
    if maxLen < 0 then 0 else maxLen
  }

  // ---- how the text grows ---------------------------------------------------------------

  lemma {:induction false} BytesAdd(a: seq<Rune>, b: seq<Rune>)
    ensures Bytes(a + b) == Bytes(a) + Bytes(b)
  {
    if a == [] {
      assert a + b == b;
    } else {
      assert (a + b)[1..] == a[1..] + b;
      BytesAdd(a[1..], b);
    }
  }

  predicate Blank(s: seq<Rune>) {
    forall i :: 0 <= i < |s| ==> s[i].space
  }

  lemma {:induction false} NoEmptyWord(s: seq<Rune>)
    ensures forall w :: w in Words(s) ==> w != []
    ensures Words(s) == [] <==> Blank(s)
  {
    if s != [] {
      var ws := Words(s[1..]);
      NoEmptyWord(s[1..]);
      assert s == [s[0]] + s[1..];
      forall w | w in Words(s) ensures w != [] {
        assert w in ws || w == [s[0]] || (ws != [] && w == [s[0]] + ws[0]);
      }
    }
  }

  lemma FullBlank(s: seq<Rune>)
    ensures Full(s) == [] <==> Blank(s)
  {
    NoEmptyWord(s);
    if Words(s) != [] {
      assert Words(s)[0] in Words(s);
    }
  }

  function Gap(needed: bool): seq<Rune> {
    if needed then [SPACE] else []
  }

  lemma FullCons(h: Rune, t: seq<Rune>)
    ensures h.space ==> Full([h] + t) == Full(t)
    ensures !h.space ==> Full([h] + t) == [h] + Gap(t != [] && t[0].space && Full(t) != []) + Full(t)
  {
    assert ([h] + t)[1..] == t;
    var ws := Words(t);
    NoEmptyWord(t);
    if !h.space {
      if t == [] || t[0].space {
        if ws != [] {
          assert ws[0] in ws;
          assert ([[h]] + ws)[1..] == ws;
        }
      } else {
        assert ([[h] + ws[0]] + ws[1..])[1..] == ws[1..];
      }
    }
  }

  /** One more rune: white space adds nothing, anything else itself, after a space if one is due. */
  function Added(s: seq<Rune>, r: Rune): seq<Rune> {
    if r.space then [] else Gap(s != [] && s[|s| - 1].space && Full(s) != []) + [r]
  }

  lemma {:induction false} FullSnoc(s: seq<Rune>, r: Rune)
    ensures Full(s + [r]) == Full(s) + Added(s, r)
  {
    if s == [] {
      assert s + [r] == [r] + [];
      FullCons(r, []);
      assert Full([]) + [r] == [r];
    } else {
      FullSnoc(s[1..], r);
      assert s + [r] == [s[0]] + (s[1..] + [r]) && s == [s[0]] + s[1..];
      if s[0].space {
        FullCons(s[0], s[1..]);
        FullCons(s[0], s[1..] + [r]);
        BlankEnd(s);
      } else {
        SnocAfter(s[0], s[1..], r);
      }
    }
  }

  lemma BlankEnd(s: seq<Rune>)
    requires s != [] && s[0].space
    ensures Full(s) == Full(s[1..])
    ensures s[1..] == [] ==> Full(s) == []
  {
    assert s == [s[0]] + s[1..];
    FullCons(s[0], s[1..]);
  }

  lemma Assoc(a: seq<Rune>, b: seq<Rune>, c: seq<Rune>)
    ensures (a + b) + c == a + (b + c)
  {
  }

  lemma SnocAfter(h: Rune, t: seq<Rune>, r: Rune)
    requires !h.space && Full(t + [r]) == Full(t) + Added(t, r)
    ensures Full([h] + (t + [r])) == Full([h] + t) + Added([h] + t, r)
  {
    FullCons(h, t);
    FullCons(h, t + [r]);
    FullBlank(t);
    if Blank(t) {
      BlankBetween(h, t, r);
    } else {
      Assoc([h] + Gap(t[0].space), Full(t), Added(t, r));
    }
  }

  lemma BlankBetween(h: Rune, t: seq<Rune>, r: Rune)
    requires !h.space && Blank(t) && Full(t) == [] && Full(t + [r]) == Full(t) + Added(t, r)
    requires Full([h] + t) == [h]
    ensures Full([h] + (t + [r])) == [h] + Added([h] + t, r)
  {
    FullCons(h, t + [r]);
    if t != [] {
      assert t[0].space && ([h] + t)[|t|] == t[|t| - 1];
    }
  }

  lemma {:induction false} FullGrows(s: seq<Rune>, k: nat)
    requires k <= |s|
    ensures Full(s[..k]) <= Full(s)
    decreases |s| - k
  {
    if k < |s| {
      FullGrows(s, k + 1);
      assert s[..k + 1] == s[..k] + [s[k]];
      FullSnoc(s[..k], s[k]);
    } else {
      assert s[..k] == s;
    }
  }

  lemma {:induction false} BytesMono(a: seq<Rune>, b: seq<Rune>)
    requires a <= b
    ensures Bytes(a) <= Bytes(b)
  {
    assert b == a + b[|a|..];
    BytesAdd(a, b[|a|..]);
  }

  // ---- the scan -------------------------------------------------------------------------

  /** After `i` runes: everything so far fits and was written, with its last rune not a space. */
  ghost predicate Scanned(s: seq<Rune>, i: nat, out: seq<Rune>, maxLen: int) {
    i <= |s| && out == Full(s[..i]) && Bytes(out) <= Limit(maxLen) && (out != [] ==> !out[|out| - 1].space)
  }

  lemma ScanSpace(s: seq<Rune>, i: nat, out: seq<Rune>, maxLen: int)
    requires Scanned(s, i, out, maxLen) && i < |s| && s[i].space
    ensures Scanned(s, i + 1, out, maxLen)
  {
    assert s[..i + 1] == s[..i] + [s[i]];
    FullSnoc(s[..i], s[i]);
  }

  /** The next rune that is not white space, with the space due before it. */
  function Next(s: seq<Rune>, i: nat, out: seq<Rune>): seq<Rune>
    requires i < |s|
  {
    Gap(i > 0 && s[i - 1].space && out != []) + [s[i]]
  }

  lemma ScanRune(s: seq<Rune>, i: nat, out: seq<Rune>, maxLen: int)
    requires Scanned(s, i, out, maxLen) && i < |s| && !s[i].space
    ensures Full(s[..i + 1]) == out + Next(s, i, out)
    ensures Bytes(out + Next(s, i, out)) == Bytes(out) + |Next(s, i, out)| - 1 + s[i].width
    ensures Bytes(out + Next(s, i, out)) <= Limit(maxLen) ==> Scanned(s, i + 1, out + Next(s, i, out), maxLen)
  {
    assert s[..i + 1] == s[..i] + [s[i]];
    FullSnoc(s[..i], s[i]);
    assert out + Gap(i > 0 && s[i - 1].space && out != []) + [s[i]] == out + Next(s, i, out);
    BytesAdd(out, Next(s, i, out));
    BytesAdd(Gap(i > 0 && s[i - 1].space && out != []), [s[i]]);
    assert [s[i]][1..] == [] && [SPACE][1..] == [];
  }

  /** If the next rune does not fit, what was written is the cut. */
  lemma CutHere(s: seq<Rune>, i: nat, out: seq<Rune>, maxLen: int)
    requires Scanned(s, i, out, maxLen) && i < |s| && !s[i].space
    requires Bytes(out + Next(s, i, out)) > Limit(maxLen)
    ensures Bytes(Full(s)) > Limit(maxLen) && IsCut(Full(s), Limit(maxLen), out)
  {
    var more := out + Next(s, i, out);
    ScanRune(s, i, out, maxLen);
    FullGrows(s, i + 1);
    FullGrows(s, i);
    BytesMono(more, Full(s));
    forall p | Fits(Full(s), Limit(maxLen), p) ensures |p| <= |out| {
      if |p| > |out| {
        LongerTooBig(Full(s), more, p, |out|);
      }
    }
  }

  /** A piece longer than what was written that does not end in a space reaches past the next rune. */
  lemma LongerTooBig(full: seq<Rune>, more: seq<Rune>, p: seq<Rune>, n: nat)
    requires more <= full && p <= full && n < |p| && (|more| == n + 1 || (|more| == n + 2 && more[n].space))
    requires !p[|p| - 1].space
    ensures Bytes(p) >= Bytes(more)
  {
    assert p[n] == full[n] && more[n] == full[n];
    if |p| >= |more| {
      assert more <= p;
      BytesMono(more, p);
    }
  }

  /** Scans once, stopping at the first rune that proves the text too long. The result is the whole text with
      its words joined by single spaces if that fits, and its cut, marked as such, if it does not. */
  method NormalizeWhitespaceLimited(s: seq<Rune>, maxLen: int) returns (out: seq<Rune>, truncated: bool)
    ensures truncated == (Bytes(Full(s)) > Limit(maxLen))
    ensures !truncated ==> out == Full(s)
    ensures truncated ==> IsCut(Full(s), Limit(maxLen), out)
    ensures Bytes(out) <= if maxLen < 0 then 0 else maxLen
  {
    out := [];
    var wrote, started, inSpace, atLimit := 0, false, true, false;
    for i := 0 to |s|
      invariant Scanned(s, i, out, maxLen) && wrote == Bytes(out)
      invariant started == (out != []) && inSpace == (i == 0 || s[i - 1].space)
      invariant atLimit ==> wrote == maxLen
    {
      var r := s[i];
      if r.space {
        ScanSpace(s, i, out, maxLen);
        inSpace := true;
        continue;
      }
      ScanRune(s, i, out, maxLen);
      if atLimit {
        CutHere(s, i, out, maxLen);
        return out, true;
      }
      if maxLen == 0 {
        CutHere(s, i, out, maxLen);
        return [], true;
      }
      var rl := r.width;
      ghost var next := out + Next(s, i, out);
      if inSpace && started {
        if wrote + 1 + rl > maxLen {
          CutHere(s, i, out, maxLen);
          return out, true;
        }
        out := out + [SPACE];
        wrote := wrote + 1;
      }
      if wrote + rl > maxLen {
        CutHere(s, i, out, maxLen);
        return out, true;
      }
      inSpace := false;
      out := out + [r];
      assert out == next;
      wrote := wrote + rl;
      started := true;
      if wrote == maxLen {
        atLimit := true;
      }
    }
    assert s[..|s|] == s;
    return out, false;
  }

  method GenerateIntro(text: seq<Rune>, maxLen: int) returns (r: seq<Rune>)
    ensures Bytes(Full(text)) <= Limit(maxLen) ==> r == Full(text)
    ensures Bytes(Full(text)) > Limit(maxLen) ==>
              |r| >= 3 && r[|r| - 3..] == [DOT, DOT, DOT] && IsCut(Full(text), Limit(maxLen), r[..|r| - 3])
    ensures maxLen <= 0 && Full(text) != [] ==> r == [DOT, DOT, DOT]
  {
    var limit := if maxLen < 0 then 0 else maxLen;
    var normalized, truncated := NormalizeWhitespaceLimited(text, limit);
    if truncated {
      r := normalized + [DOT, DOT, DOT];
      assert r[..|r| - 3] == normalized;
    } else {
      r := normalized;
    }
  }
}
