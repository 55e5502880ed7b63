/** Matching a domain name against configured domains, the most specific parent first
    (internal/domainutil/domainutil.go). */
module Domains {
  import opened Strings
  import opened Wrappers

  // ---- labels ---------------------------------------------------------------------------

  /** `strings.Split(s, ".")`. */
  function Split(s: string): (parts: seq<string>)
    ensures parts != []
  {
    if s == "" then [""]
    else if s[0] == '.' then [""] + Split(s[1..])
    else [[s[0]] + Split(s[1..])[0]] + Split(s[1..])[1..]
  }

  /** `strings.Join(parts, ".")`. */
  function Join(parts: seq<string>): string {
    if parts == [] then "" else if |parts| == 1 then parts[0] else parts[0] + "." + Join(parts[1..])
  }

  predicate Labels(parts: seq<string>) {
    forall p :: p in parts ==> '.' !in p
  }

  lemma {:induction false} SplitJoin(s: string)
    ensures Join(Split(s)) == s && Labels(Split(s))
  {
    if s == "" {
    } else {
      var rest := Split(s[1..]);
      SplitJoin(s[1..]);
      assert s == [s[0]] + s[1..];
      if s[0] == '.' {
        assert ([""] + rest)[1..] == rest;
      } else {
        assert ([[s[0]] + rest[0]] + rest[1..])[1..] == rest[1..];
        LabelsCons([s[0]] + rest[0], rest);
      }
    }
  }

  lemma LabelsCons(part: string, rest: seq<string>)
    requires Labels(rest) && rest != [] && '.' !in part
    ensures Labels([part] + rest[1..])
  {
    forall p | p in [part] + rest[1..] ensures '.' !in p {
      assert p == part || p in rest;
    }
  }

  // ---- suffixes -------------------------------------------------------------------------

  /** What follows the first dot. */
  function AfterDot(d: string): (r: string)
    ensures d != "" ==> |r| < |d|
  {
    if d == "" then "" else if d[0] == '.' then d[1..] else AfterDot(d[1..])
  }

  /** The name, and in turn what follows each dot, as long as something does. */
  function Tails(d: string): seq<string>
    decreases |d|
  {
    if d == "" then [] else [d] + Tails(AfterDot(d))
  }

  /** A non-empty piece of `d` up to its end that starts `d` or comes right after a dot. */
  predicate StartsAt(d: string, k: nat, c: string) {
    k < |d| && c == d[k..] && (k == 0 || d[k - 1] == '.')
  }

  ghost predicate IsParent(d: string, c: string) {
    exists k: nat :: StartsAt(d, k, c)
  }

  lemma {:induction false} AfterDotIs(d: string)
    ensures var k := |d| - |AfterDot(d)|; AfterDot(d) == d[k..] && (AfterDot(d) != "" ==> k > 0 && d[k - 1] == '.')
    ensures forall i :: 0 <= i < |d| - |AfterDot(d)| - 1 ==> d[i] != '.'
  {
    if d != "" && d[0] != '.' {
      AfterDotIs(d[1..]);
      assert d == [d[0]] + d[1..];
      assert forall i :: 0 < i < |d| ==> d[i] == d[1..][i - 1];
    }
  }

  /** The candidates are exactly the non-empty suffixes at label boundaries. */
  lemma {:induction false} TailsExact(d: string, c: string)
    ensures c in Tails(d) <==> IsParent(d, c)
    decreases |d|
  {
    if d != "" {
      var rest := AfterDot(d);
      var m := |d| - |rest|;
      AfterDotIs(d);
      TailsExact(rest, c);
      if IsParent(rest, c) {
        var k: nat :| StartsAt(rest, k, c);
        assert StartsAt(d, m + k, c);
      }
      if IsParent(d, c) {
        var k: nat :| StartsAt(d, k, c);
        if k == 0 {
          assert c == d;
        } else {
          assert d[k - 1] == '.';
          assert StartsAt(rest, k - m, c);
        }
      }
      if c == d {
        assert StartsAt(d, 0, c);
      }
    }
  }

  /** They come longest first. */
  lemma {:induction false} TailsShrink(d: string, i: nat, j: nat)
    requires i < j < |Tails(d)|
    ensures |Tails(d)[i]| > |Tails(d)[j]| && |Tails(d)[j]| < |d|
    decreases |d|
  {
    var rest := AfterDot(d);
    if i > 0 {
      TailsShrink(rest, i - 1, j - 1);
    } else if j > 1 {
      TailsShrink(rest, 0, j - 1);
    }
  }

  lemma {:induction false} AfterFirst(part: string, rest: string)
    requires '.' !in part
    ensures AfterDot(part + "." + rest) == rest && AfterDot(part) == ""
  {
    if part == "" {
      assert (part + "." + rest)[1..] == rest;
    } else {
      assert (part + "." + rest)[1..] == part[1..] + "." + rest;
      assert part == [part[0]] + part[1..];
      AfterFirst(part[1..], rest);
    }
  }

  lemma TailsOfParts(parts: seq<string>)
    requires parts != [] && Labels(parts)
    ensures var s := Join(parts); Tails(s) == (if s == "" then [] else [s]) + Tails(Join(parts[1..]))
  {
    assert parts[0] in parts;
    if |parts| > 1 {
      AfterFirst(parts[0], Join(parts[1..]));
    } else {
      AfterFirst(parts[0], "");
    }
  }

  /** From the exact name up through its parents. */
  method Candidates(domain: string) returns (out: seq<string>)
    ensures out == Tails(Normalize(domain))
  {
    var d := Normalize(domain);
    if d == "" {
      return [];
    }
    var parts := Split(d);
    SplitJoin(d);
    out := [];
    assert parts[0..] == parts;
    for i := 0 to |parts|
      invariant out + Tails(Join(parts[i..])) == Tails(d)
    {
      assert parts[i..][1..] == parts[i + 1..];
      TailsOfParts(parts[i..]);
      var candidate := Join(parts[i..]);
      if candidate == "" {
        continue;
      }
      assert out + ([candidate] + Tails(Join(parts[i + 1..]))) == (out + [candidate]) + Tails(Join(parts[i + 1..]));
      out := out + [candidate];
    }
    assert Tails("") == [] && out + [] == out;
  }

  // ---- matching -------------------------------------------------------------------------

  function FirstIn(cs: seq<string>, keys: set<string>): Option<string> {
    if cs == [] then None else if cs[0] in keys then Some(cs[0]) else FirstIn(cs[1..], keys)
  }

  /** The match of a normalised name. */
  function Best(d: string, keys: set<string>): Option<string> {
    FirstIn(Tails(d), keys)
  }

  /** Candidate `i` is a key and none before it is. */
  predicate FirstAt(cs: seq<string>, keys: set<string>, i: int) {
    0 <= i < |cs| && cs[i] in keys && forall j :: 0 <= j < i ==> cs[j] !in keys
  }

  lemma {:induction false} FirstInIs(cs: seq<string>, keys: set<string>)
    ensures FirstIn(cs, keys) == None ==> forall i :: 0 <= i < |cs| ==> cs[i] !in keys
    ensures FirstIn(cs, keys) != None ==> exists i :: FirstAt(cs, keys, i) && cs[i] == FirstIn(cs, keys).value
  {
    if cs != [] {
      if cs[0] in keys {
        assert FirstAt(cs, keys, 0);
      } else {
        FirstInIs(cs[1..], keys);
        assert cs == [cs[0]] + cs[1..];
        if FirstIn(cs, keys) != None {
          var i :| FirstAt(cs[1..], keys, i) && cs[1..][i] == FirstIn(cs, keys).value;
          assert FirstAt(cs, keys, i + 1);
        }
      }
    }
  }

  /** There is a match exactly when a parent is among the keys, and it is the longest such parent. */
  lemma BestIsLongest(d: string, keys: set<string>, c: string)
    requires IsParent(d, c) && c in keys
    ensures Best(d, keys).Some? && |Best(d, keys).value| >= |c|
  {
    var cs := Tails(d);
    TailsExact(d, c);
    FirstInIs(cs, keys);
    var at :| 0 <= at < |cs| && cs[at] == c;
    var i :| FirstAt(cs, keys, i) && cs[i] == FirstIn(cs, keys).value;
    if i < at {
      TailsShrink(d, i, at);
    }
  }

  lemma BestIsParent(d: string, keys: set<string>)
    requires Best(d, keys).Some?
    ensures IsParent(d, Best(d, keys).value) && Best(d, keys).value in keys
  {
    FirstInIs(Tails(d), keys);
    TailsExact(d, Best(d, keys).value);
  }

  lemma ParentOfLonger(p: string, d: string, c: string)
    requires IsParent(d, c)
    ensures IsParent(p + "." + d, c)
  {
    var k: nat :| StartsAt(d, k, c);
    assert (p + "." + d)[|p| + 1..] == d;
    assert StartsAt(p + "." + d, |p| + 1 + k, c);
  }

  /** Putting further labels before a normalised name changes only them. */
  lemma NormalizeLonger(p: string, d: string)
    requires d != "" && Normalize(d) == d && (p != "" ==> !IsSpace(p[0]))
    ensures Normalize(p + "." + d) == ToLower(p) + "." + d
  {
    NormalizeTwice(d);
    var s := p + "." + d;
    assert s[|s| - 1] == d[|d| - 1];
    assert TrimLeft(s) == s && TrimRight(s) == s;
    assert TrimLeft(d) == d && TrimRight(d) == d;
    assert ToLower(d) == d;
    assert ToLower(s) == ToLower(p) + "." + ToLower(d);
  }

  /** A subdomain of a matching name matches too, at least as specifically. */
  lemma SubdomainMatches(p: string, d: string, keys: set<string>)
    requires d != "" && Normalize(d) == d && (p != "" ==> !IsSpace(p[0])) && Best(d, keys).Some?
    ensures Best(Normalize(p + "." + d), keys).Some?
    ensures |Best(Normalize(p + "." + d), keys).value| >= |Best(d, keys).value|
  {
    NormalizeLonger(p, d);
    BestIsParent(d, keys);
    ParentOfLonger(ToLower(p), d, Best(d, keys).value);
    BestIsLongest(ToLower(p) + "." + d, keys, Best(d, keys).value);
  }

  lemma NoKeys(cs: seq<string>)
    ensures FirstIn(cs, {}) == None
  {
  }

  /** The loop both matchers run. */
  method FirstMatch(candidates: seq<string>, keys: set<string>) returns (best: string, ok: bool)
    ensures FirstIn(candidates, keys) == (if ok then Some(best) else None) && (ok || best == "")
  {
    for i := 0 to |candidates|
      invariant FirstIn(candidates[i..], keys) == FirstIn(candidates, keys)
    {
      if candidates[i] in keys {
        return candidates[i], true;
      }
      assert candidates[i..][1..] == candidates[i + 1..];
    }
    return "", false;
  }

  method MatchSet(domain: string, allowed: set<string>) returns (best: string, ok: bool)
    ensures Best(Normalize(domain), allowed) == (if ok then Some(best) else None) && (ok || best == "")
  {
    if |allowed| == 0 {
      NoKeys(Tails(Normalize(domain)));
      return "", false;
    }
    var candidates := Candidates(domain);
    best, ok := FirstMatch(candidates, allowed);
  }

  method MatchMapKey<T>(domain: string, values: map<string, T>) returns (best: string, ok: bool)
    ensures Best(Normalize(domain), values.Keys) == (if ok then Some(best) else None) && (ok || best == "")
  {
    if |values| == 0 {
      assert values.Keys == {};
      NoKeys(Tails(Normalize(domain)));
      return "", false;
    }
    var candidates := Candidates(domain);
    best, ok := FirstMatch(candidates, values.Keys);
  }

  /** The names of a list that count: normalised, neither empty nor the wildcard. */
  function NamesOf(allowed: seq<string>): set<string> {
    set item | item in allowed && Normalize(item) != "" && Normalize(item) != "*" :: Normalize(item)
  }

  method MatchSlice(domain: string, allowed: seq<string>) returns (best: string, ok: bool)
    ensures Best(Normalize(domain), NamesOf(allowed)) == (if ok then Some(best) else None) && (ok || best == "")
  {
    if |allowed| == 0 {
      NoKeys(Tails(Normalize(domain)));
      assert NamesOf(allowed) == {};
      return "", false;
    }
    var names := {};
    for i := 0 to |allowed|
      invariant names == NamesOf(allowed[..i])
    {
      assert allowed[..i + 1] == allowed[..i] + [allowed[i]];
      var item := Normalize(allowed[i]);
      if item == "" || item == "*" {
        assert NamesOf(allowed[..i + 1]) == names;
        continue;
      }
      assert NamesOf(allowed[..i + 1]) == names + {item};
      names := names + {item};
    }
    assert allowed[..|allowed|] == allowed;
    best, ok := MatchSet(domain, names);
  }

  // ---- resolving ------------------------------------------------------------------------

  datatype Domain = Domain(name: string, isActive: bool, isPrivate: bool)

  /** The entry counts and its normalised name is `name`. */
  predicate Names(d: Domain, name: string) {
    d.isActive && Normalize(d.name) == name && name != ""
  }

  /** The index maps every name that counts to the last entry with it. */
  ghost predicate Indexes(domains: seq<Domain>, index: map<string, int>) {
    (forall name :: name in index ==> 0 <= index[name] < |domains| && Names(domains[index[name]], name)) &&
    (forall i, name :: 0 <= i < |domains| && Names(domains[i], name) ==> name in index && i <= index[name])
  }

  lemma IndexGrows(domains: seq<Domain>, d: Domain, index: map<string, int>, next: map<string, int>)
    requires Indexes(domains, index)
    requires next == if d.isActive && Normalize(d.name) != "" then index[Normalize(d.name) := |domains|] else index
    ensures Indexes(domains + [d], next)
  {
    var all := domains + [d];
    forall i, name | 0 <= i < |all| && Names(all[i], name) ensures name in next && i <= next[name] {
      if i < |domains| {
        assert Names(domains[i], name);
      }
    }
  }

  /** The names of the active domains. */
  function ActiveNames(domains: seq<Domain>): set<string> {
    set d | d in domains && d.isActive && Normalize(d.name) != "" :: Normalize(d.name)
  }

  lemma IndexedNames(domains: seq<Domain>, index: map<string, int>)
    requires Indexes(domains, index)
    ensures index.Keys == ActiveNames(domains)
  {
    forall name ensures name in index <==> name in ActiveNames(domains) {
      if name in index {
        assert domains[index[name]] in domains;
      }
      if name in ActiveNames(domains) {
        var d :| d in domains && d.isActive && Normalize(d.name) != "" && name == Normalize(d.name);
        var i :| 0 <= i < |domains| && domains[i] == d;
        assert Names(domains[i], name);
      }
    }
  }

  /** The loop over the domains: the last active entry of a name wins. */
  method IndexDomains(domains: seq<Domain>) returns (index: map<string, int>)
    ensures Indexes(domains, index)
  {
    index := map[];
    for i := 0 to |domains|
      invariant Indexes(domains[..i], index)
    {
      ghost var before := index;
      if domains[i].isActive {
        var name := Normalize(domains[i].name);
        if name != "" {
          index := index[name := i];
        }
      }
      IndexGrows(domains[..i], domains[i], before, index);
      assert domains[..i + 1] == domains[..i] + [domains[i]];
    }
    assert domains[..|domains|] == domains;
  }

  lemma LastOfName(domains: seq<Domain>, index: map<string, int>, name: string)
    requires Indexes(domains, index) && name in index
    ensures 0 <= index[name] < |domains| && Names(domains[index[name]], name)
    ensures forall i :: index[name] < i < |domains| ==> !Names(domains[i], name)
  {
  }

  /** The answer names the most specific active parent, and the entry is the last active one of that name. */
  method ResolveDomain(domain: string, domains: seq<Domain>) returns (found: Option<nat>, best: string)
    ensures found == None ==> best == "" && Best(Normalize(domain), ActiveNames(domains)) == None
    ensures found.Some? ==>
              Best(Normalize(domain), ActiveNames(domains)) == Some(best) &&
              found.value < |domains| && Names(domains[found.value], best) &&
              forall i :: found.value < i < |domains| ==> !Names(domains[i], best)
  {
    if |domains| == 0 {
      assert ActiveNames(domains) == {};
      NoKeys(Tails(Normalize(domain)));
      return None, "";
    }
    var index := IndexDomains(domains);
    IndexedNames(domains, index);
    var candidates := Candidates(domain);
    var m, ok := FirstMatch(candidates, index.Keys);
    if !ok {
      return None, "";
    }
    BestIsParent(Normalize(domain), index.Keys);
    LastOfName(domains, index, m);
    found, best := Some(index[m]), m;
  }

  // ---- which entries count --------------------------------------------------------------

  /** A name is resolved exactly if an active entry, in any case and with any space around it, is one of its parents
      or the name itself; then to one of these, and to none shorter than another. */
  lemma ResolvedExactly(domains: seq<Domain>, d: string)
    ensures Best(d, ActiveNames(domains)).Some? <==>
              exists i :: 0 <= i < |domains| && domains[i].isActive && IsParent(d, Normalize(domains[i].name))
    ensures forall i :: 0 <= i < |domains| && domains[i].isActive && IsParent(d, Normalize(domains[i].name)) ==>
              Best(d, ActiveNames(domains)).Some? &&
              |Best(d, ActiveNames(domains)).value| >= |Normalize(domains[i].name)|
  {
    var names := ActiveNames(domains);
    if Best(d, names).Some? {
      BestIsParent(d, names);
      var i :| 0 <= i < |domains| && domains[i].isActive && Normalize(domains[i].name) == Best(d, names).value;
    }
    forall i | 0 <= i < |domains| && domains[i].isActive && IsParent(d, Normalize(domains[i].name))
      ensures Best(d, names).Some? && |Best(d, names).value| >= |Normalize(domains[i].name)|
    {
      assert domains[i] in domains;
      BestIsLongest(d, names, Normalize(domains[i].name));
    }
  }

  /** The same for a list of allowed names, in which a blank one and the wildcard match nothing. */
  lemma AllowedExactly(allowed: seq<string>, d: string)
    ensures Best(d, NamesOf(allowed)).Some? <==>
              exists i :: 0 <= i < |allowed| && Normalize(allowed[i]) != "*" && IsParent(d, Normalize(allowed[i]))
  {
    var names := NamesOf(allowed);
    if Best(d, names).Some? {
      BestIsParent(d, names);
      var i :| 0 <= i < |allowed| && Normalize(allowed[i]) == Best(d, names).value;
    }
    forall i | 0 <= i < |allowed| && Normalize(allowed[i]) != "*" && IsParent(d, Normalize(allowed[i]))
      ensures Best(d, names).Some?
    {
      assert allowed[i] in allowed;
      BestIsLongest(d, names, Normalize(allowed[i]));
    }
  }
}
