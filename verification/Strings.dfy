/** Trimming and lower-casing, over the ASCII range. */
module Strings {

  predicate IsSpace(c: char) {
    c == ' ' || '\t' <= c <= '\r'
  }

  function LowerChar(c: char): char {
    if 'A' <= c <= 'Z' then (c as int + 32) as char else c
  }

  function ToLower(s: string): (r: string)
    ensures |r| == |s|
    ensures forall i :: 0 <= i < |s| ==> r[i] == LowerChar(s[i])
  {
    seq(|s|, i requires 0 <= i < |s| => LowerChar(s[i]))
  }

  function TrimLeft(s: string): string {
    if s != "" && IsSpace(s[0]) then TrimLeft(s[1..]) else s
  }

  function TrimRight(s: string): string {
    if s != "" && IsSpace(s[|s| - 1]) then TrimRight(s[..|s| - 1]) else s
  }

  function TrimSpace(s: string): string {
    TrimRight(TrimLeft(s))
  }

  /** Lower-case without surrounding space: how addresses and domain names are compared. */
  function Normalize(s: string): string {
    ToLower(TrimSpace(s))
  }

  /** No space at either end. */
  predicate Trimmed(s: string) {
    s == "" || (!IsSpace(s[0]) && !IsSpace(s[|s| - 1]))
  }

  lemma {:induction false} TrimLeftTrims(s: string)
    ensures TrimLeft(s) == "" || !IsSpace(TrimLeft(s)[0])
  {
    if s != "" && IsSpace(s[0]) {
      TrimLeftTrims(s[1..]);
    }
  }

  lemma {:induction false} TrimRightTrims(s: string)
    ensures TrimRight(s) == "" || !IsSpace(TrimRight(s)[|TrimRight(s)| - 1])
    ensures TrimRight(s) <= s
  {
    if s != "" && IsSpace(s[|s| - 1]) {
      TrimRightTrims(s[..|s| - 1]);
    }
  }

  /** Trimming leaves nothing to trim, only drops, and keeps a text without space at its ends. */
  lemma TrimTwice(s: string)
    ensures Trimmed(TrimSpace(s)) && TrimSpace(TrimSpace(s)) == TrimSpace(s)
    ensures Trimmed(s) ==> TrimSpace(s) == s
  {
    TrimLeftTrims(s);
    TrimRightTrims(TrimLeft(s));
    var t := TrimSpace(s);
    assert TrimLeft(t) == t && TrimRight(t) == t;
  }

  lemma {:induction false} TrimLeftDrops(s: string, c: char)
    ensures |TrimLeft(s)| <= |s| && (c in TrimLeft(s) ==> c in s)
  {
    if s != "" && IsSpace(s[0]) {
      TrimLeftDrops(s[1..], c);
    }
  }

  lemma TrimDrops(s: string, c: char)
    ensures |TrimSpace(s)| <= |s| && (c in TrimSpace(s) ==> c in s)
  {
    TrimLeftDrops(s, c);
    TrimRightTrims(TrimLeft(s));
  }

  /** Normalizing twice is normalizing once, so normalized names can be compared directly. */
  lemma NormalizeTwice(s: string)
    ensures Trimmed(Normalize(s)) && Normalize(Normalize(s)) == Normalize(s)
  {
    TrimLeftTrims(s);
    TrimRightTrims(TrimLeft(s));
    var n := Normalize(s);
    assert Trimmed(TrimSpace(s));
    assert Trimmed(n);
    assert TrimLeft(n) == n && TrimRight(n) == n;
    assert ToLower(n) == n;
  }

  // ---- what comparing normalized names ignores ------------------------------------------

  /** The same character, or the same ASCII letter in the other case. */
  predicate SameLetter(c: char, d: char) {
    c == d || ('A' <= c <= 'Z' && d as int == c as int + 32) || ('A' <= d <= 'Z' && c as int == d as int + 32)
  }

  /** Lower-casing identifies two texts exactly if they differ in nothing but the case of letters. */
  lemma LowerExactly(s: string, t: string)
    ensures ToLower(s) == ToLower(t) <==> |s| == |t| && forall i :: 0 <= i < |s| ==> SameLetter(s[i], t[i])
  {
    if ToLower(s) == ToLower(t) {
      forall i | 0 <= i < |s| ensures SameLetter(s[i], t[i]) {
        assert ToLower(s)[i] == ToLower(t)[i];
      }
    }
  }

  /** White space only. */
  predicate Blank(s: string) {
    forall i :: 0 <= i < |s| ==> s[i] in {' ', '\t', '\n', 11 as char, 12 as char, '\r'}
  }

  lemma {:induction false} TrimLeftAppend(s: string, right: string)
    ensures TrimLeft(s + right) == if TrimLeft(s) == "" then TrimLeft(right) else TrimLeft(s) + right
  {
    if s == "" {
      assert s + right == right;
    } else if IsSpace(s[0]) {
      assert (s + right)[1..] == s[1..] + right;
      TrimLeftAppend(s[1..], right);
    }
  }

  lemma {:induction false} TrimLeftBlank(s: string)
    requires Blank(s)
    ensures TrimLeft(s) == ""
  {
    if s != "" {
      TrimLeftBlank(s[1..]);
    }
  }

  lemma {:induction false} TrimRightBlank(s: string, right: string)
    requires Blank(right)
    ensures TrimRight(s + right) == TrimRight(s)
  {
    if right == "" {
      assert s + right == s;
    } else {
      assert (s + right)[..|s + right| - 1] == s + right[..|right| - 1];
      TrimRightBlank(s, right[..|right| - 1]);
    }
  }

  lemma TrimLeftSkips(left: string, s: string)
    requires Blank(left)
    ensures TrimLeft(left + s) == TrimLeft(s)
  {
    TrimLeftBlank(left);
    TrimLeftAppend(left, s);
  }

  lemma TrimRightSkips(s: string, right: string)
    requires Blank(right)
    ensures TrimSpace(s + right) == TrimSpace(s)
  {
    TrimLeftBlank(right);
    TrimLeftAppend(s, right);
    TrimRightBlank(TrimLeft(s), right);
  }

  /** White space around a text does not matter. */
  lemma SpaceDoesNotMatter(left: string, s: string, right: string)
    requires Blank(left) && Blank(right)
    ensures TrimSpace(left + s + right) == TrimSpace(s)
  {
    var t := s + right;
    assert left + s + right == left + t;
    TrimLeftSkips(left, t);
    TrimRightSkips(s, right);
  }

  /** Nothing else is trimmed. */
  lemma OnlySpaceIsTrimmed(s: string)
    requires s != "" ==> !Blank([s[0]]) && !Blank([s[|s| - 1]])
    ensures TrimSpace(s) == s
  {
    if s != "" {
      assert !IsSpace(s[0]) && !IsSpace(s[|s| - 1]);
    }
  }
}
