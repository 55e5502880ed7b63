/** The order in which messages are listed, newest first, and the store's sorted find with a limit. */
module MailOrder {

  /** The sort key of a message: creation time in milliseconds, then id. Keys are unique because ids are. */
  datatype Key = Key(createdAt: int, id: nat)

  /** `x` is listed before `y`: createdAt descending, then _id descending. */
  predicate Before(x: Key, y: Key) {
    x.createdAt > y.createdAt || (x.createdAt == y.createdAt && x.id > y.id)
  }

  predicate Descending(q: seq<Key>) {
    forall i, j :: 0 <= i < j < |q| ==> Before(q[i], q[j])
  }

  ghost function Newest(keys: set<Key>): (k: Key)
    requires keys != {}
    ensures k in keys && forall o :: o in keys && o != k ==> Before(k, o)
    decreases |keys|
  {
    var c :| c in keys;
    if keys == {c} then c
    else
      assert keys == {c} + (keys - {c});
      var m := Newest(keys - {c});
      assert forall o :: o in keys ==> o == c || o in keys - {c};
      if Before(c, m) then c else m
  }

  /** All keys, newest first. */
  ghost function Sort(keys: set<Key>): seq<Key>
    decreases |keys|
  {
    if keys == {} then []
    else
      var k := Newest(keys);
      [k] + Sort(keys - {k})
  }

  function Elements(q: seq<Key>): set<Key>
  {
    set k | k in q
  }

  lemma PrependElements(k: Key, q: seq<Key>)
    ensures Elements([k] + q) == {k} + Elements(q)
  {
  }

  /** The listing holds exactly the keys of the set, each before all later ones. */
  lemma {:induction false} SortFacts(keys: set<Key>)
    ensures |Sort(keys)| == |keys| && Elements(Sort(keys)) == keys && Descending(Sort(keys))
    decreases |keys|
  {
    if keys != {} {
      var k := Newest(keys);
      var rest := Sort(keys - {k});
      SortFacts(keys - {k});
      PrependElements(k, rest);
      forall i | 0 <= i < |rest| ensures Before(k, rest[i]) {
        assert rest[i] in Elements(rest);
      }
    }
  }

  /** A descending listing holds nothing twice, so a suffix holds what the prefix does not. */
  lemma SuffixElements(q: seq<Key>, n: nat)
    requires Descending(q) && n <= |q|
    ensures Elements(q[n..]) == Elements(q) - Elements(q[..n])
  {
    var head := q[..n];
    forall k | k in q && k !in head ensures k in q[n..] {
      var i :| 0 <= i < |q| && q[i] == k;
      assert i < n ==> k in head;
      assert q[n..][i - n] == k;
    }
    forall k | k in q[n..] ensures k in q && k !in q[..n] {
      var i :| 0 <= i < |q[n..]| && q[n..][i] == k;
      assert q[n + i] == k;
      forall j | 0 <= j < n ensures q[j] != k { assert Before(q[j], q[n + i]); }
    }
  }

  lemma SameHead(p: seq<Key>, q: seq<Key>)
    requires Descending(p) && Descending(q) && Elements(p) == Elements(q) && p != []
    ensures q != [] && p[0] == q[0]
  {
    assert p[0] in Elements(q);
    var i :| 0 <= i < |q| && q[i] == p[0];
    assert q[0] in Elements(p);
    var j :| 0 <= j < |p| && p[j] == q[0];
    assert i == 0 || Before(q[0], p[0]);
    assert j == 0 || Before(p[0], q[0]);
  }

  /** A set has only one descending listing. */
  lemma {:induction false} DescendingUnique(p: seq<Key>, q: seq<Key>)
    requires Descending(p) && Descending(q) && Elements(p) == Elements(q)
    ensures p == q
    decreases |p|
  {
    if p == [] {
      if q != [] {
        SameHead(q, p);
      }
    } else {
      SameHead(p, q);
      SuffixElements(p, 1);
      SuffixElements(q, 1);
      assert p[..1] == q[..1];
      DescendingUnique(p[1..], q[1..]);
      assert p == [p[0]] + p[1..] && q == [q[0]] + q[1..];
    }
  }

  /** A descending listing of a set is its sorted listing. */
  lemma SortUnique(q: seq<Key>, keys: set<Key>)
    requires Descending(q) && Elements(q) == keys
    ensures q == Sort(keys)
  {
    SortFacts(keys);
    DescendingUnique(q, Sort(keys));
  }

  /** Dropping a prefix of the listing lists the rest of the set. */
  lemma SortDrop(keys: set<Key>, n: nat)
    requires n <= |Sort(keys)|
    ensures Sort(keys - Elements(Sort(keys)[..n])) == Sort(keys)[n..]
  {
    SortFacts(keys);
    SuffixElements(Sort(keys), n);
    SortUnique(Sort(keys)[n..], keys - Elements(Sort(keys)[..n]));
  }

  /** The keys listed after `c`: the `$or` filter of a seek page. */
  function After(keys: set<Key>, c: Key): set<Key> {
    set k | k in keys && (k.createdAt < c.createdAt || (k.createdAt == c.createdAt && k.id < c.id))
  }

  lemma AfterElements(q: seq<Key>, i: nat)
    requires Descending(q) && i < |q|
    ensures After(Elements(q), q[i]) == Elements(q[i + 1..])
  {
    forall k | k in After(Elements(q), q[i]) ensures k in q[i + 1..] {
      var j :| 0 <= j < |q| && q[j] == k;
      var c := q[i];
      assert j < i ==> Before(k, c);
      assert q[i + 1..][j - i - 1] == k;
    }
    forall k | k in q[i + 1..] ensures k in After(Elements(q), q[i]) {
      var j :| 0 <= j < |q[i + 1..]| && q[i + 1..][j] == k;
      assert k == q[i + 1 + j] && Before(q[i], q[i + 1 + j]);
    }
  }

  /** Seeking past the element at position `i` continues the listing right behind it. */
  lemma SortAfter(keys: set<Key>, i: nat)
    requires i < |Sort(keys)|
    ensures Sort(After(keys, Sort(keys)[i])) == Sort(keys)[i + 1..]
  {
    SortFacts(keys);
    AfterElements(Sort(keys), i);
    SortUnique(Sort(keys)[i + 1..], After(keys, Sort(keys)[i]));
  }

  /** At most `n` elements from the front. */
  function Take<T>(q: seq<T>, n: nat): seq<T> {
    if |q| <= n then q else q[..n]
  }

  /** At most `n` elements dropped from the front. */
  function Skip<T>(q: seq<T>, n: nat): seq<T> {
    if |q| <= n then [] else q[n..]
  }

  lemma SortHead(keys: set<Key>)
    requires keys != {}
    ensures Sort(keys)[0] == Newest(keys)
  {
  }

  /** What is left of the set behind the first `n` of its listing. */
  ghost function Rest(keys: set<Key>, n: nat): set<Key>
    requires n <= |Sort(keys)|
  {
    keys - Elements(Sort(keys)[..n])
  }

  /** Taking the newest of what is left extends the listing by one. */
  lemma SortNext(keys: set<Key>, n: nat)
    requires n <= |Sort(keys)|
    ensures |Rest(keys, n)| == |Sort(keys)| - n
    ensures Rest(keys, n) != {} ==> n < |Sort(keys)| && Sort(keys)[n] == Newest(Rest(keys, n))
  {
    SortDrop(keys, n);
    SortFacts(Rest(keys, n));
    if Rest(keys, n) != {} {
      SortHead(Rest(keys, n));
      assert Sort(keys)[n..][0] == Sort(keys)[n];
    }
  }

  lemma RestNext(keys: set<Key>, n: nat)
    requires n < |Sort(keys)|
    ensures Sort(keys)[..n + 1] == Sort(keys)[..n] + [Sort(keys)[n]]
    ensures Rest(keys, n + 1) == Rest(keys, n) - {Sort(keys)[n]}
  {
    assert Sort(keys)[..n + 1] == Sort(keys)[..n] + [Sort(keys)[n]];
  }

  lemma FindDone(keys: set<Key>, n: nat)
    requires n <= |Sort(keys)|
    ensures Rest(keys, n) == {} ==> n == |Sort(keys)|
  {
    SortNext(keys, n);
  }

  lemma SortMember(keys: set<Key>, i: nat)
    requires i < |Sort(keys)|
    ensures Sort(keys)[i] in keys
  {
    SortFacts(keys);
    assert Sort(keys)[i] in Elements(Sort(keys));
  }

  /** The last element of a page cut out of `q`, and what follows it. */
  lemma SliceLast<T>(q: seq<T>, start: nat, n: nat)
    requires Take(Skip(q, start), n) != []
    ensures var last := start + |Take(Skip(q, start), n)| - 1;
            last < |q| && Take(Skip(q, start), n)[|Take(Skip(q, start), n)| - 1] == q[last] &&
            q[last + 1..] == Skip(q, start + n)
  {
  }

  /** The sorted find of the database: the newest `limit` of the matching keys, in order. */
  method Find(keys: set<Key>, limit: nat) returns (q: seq<Key>)
    ensures q == Take(Sort(keys), limit)
  {
    q := [];
    var rest := keys;
    assert Rest(keys, 0) == keys;
    while rest != {} && |q| < limit
      invariant |q| <= |Sort(keys)| && |q| <= limit
      invariant q == Sort(keys)[..|q|]
      invariant rest == Rest(keys, |q|)
      decreases |rest|
    {
      SortNext(keys, |q|);
      RestNext(keys, |q|);
      var k := PickNewest(rest);
      q := q + [k];
      rest := rest - {k};
    }
    FindDone(keys, |q|);
  }

  /** The first key of a scan over a non-empty set. */
  method PickNewest(keys: set<Key>) returns (k: Key)
    requires keys != {}
    ensures k == Newest(keys)
  {
    k :| k in keys;
    var rest := keys - {k};
    while rest != {}
      invariant rest <= keys && k in keys && k !in rest
      invariant forall o :: o in keys && o !in rest && o != k ==> Before(k, o)
    {
      var o :| o in rest;
      if Before(o, k) {
        k := o;
      }
      rest := rest - {o};
    }
    assert k == Newest(keys);
  }
}
