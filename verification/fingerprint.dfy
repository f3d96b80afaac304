/**
  itemSetHash: the item hashes sorted and written one after another, each
  ended by a NUL byte. Up to the digest itself the result identifies the
  multiset of hashes.
 */
module Fingerprint {
  import opened Prelude
  import opened Catalog

  const NUL: char := 0 as char

  predicate NulFree(h: string) {
    forall i :: 0 <= i < |h| ==> h[i] != NUL
  }

  // --------------------------------------------------------------- string order

  /** The order of sort.Strings. */
  predicate AtMost(a: string, b: string) {
    a == "" || (b != "" && (a[0] < b[0] || (a[0] == b[0] && AtMost(a[1..], b[1..]))))
  }

  lemma {:induction false} AtMostTotal(a: string, b: string)
    ensures AtMost(a, b) || AtMost(b, a)
    ensures AtMost(a, b) && AtMost(b, a) ==> a == b
  {
    if a != "" && b != "" && a[0] == b[0] {
      AtMostTotal(a[1..], b[1..]);
      assert a == [a[0]] + a[1..] && b == [b[0]] + b[1..];
    }
  }

  lemma {:induction false} AtMostTransitive(a: string, b: string, c: string)
    requires AtMost(a, b) && AtMost(b, c)
    ensures AtMost(a, c)
  {
    if a != "" && a[0] == b[0] == c[0] {
      AtMostTransitive(a[1..], b[1..], c[1..]);
    }
  }

  ghost predicate Ascending(s: seq<string>) {
    forall i, j :: 0 <= i < j < |s| ==> AtMost(s[i], s[j])
  }

  function Insert(x: string, s: seq<string>): seq<string> {
    if s == [] || AtMost(x, s[0]) then [x] + s else [s[0]] + Insert(x, s[1..])
  }

  function Sort(s: seq<string>): seq<string> {
    if s == [] then [] else Insert(s[0], Sort(s[1..]))
  }

  lemma {:induction false} InsertKeeps(x: string, s: seq<string>)
    ensures multiset(Insert(x, s)) == multiset(s) + multiset{x}
  {
    if s != [] && !AtMost(x, s[0]) {
      InsertKeeps(x, s[1..]);
      assert s == [s[0]] + s[1..];
    }
  }

  /** What is inserted is the new string or an old one. */
  lemma {:induction false} InsertElements(x: string, s: seq<string>)
    ensures forall y :: y in Insert(x, s) ==> y == x || y in s
  {
    if s != [] && !AtMost(x, s[0]) {
      InsertElements(x, s[1..]);
    }
  }

  lemma ConsAscending(x: string, s: seq<string>)
    requires Ascending(s) && forall y :: y in s ==> AtMost(x, y)
    ensures Ascending([x] + s)
  {
    var t := [x] + s;
    forall i, j | 0 <= i < j < |t| ensures AtMost(t[i], t[j]) {
      assert t[j] == s[j - 1] && (i > 0 ==> t[i] == s[i - 1]);
    }
  }

  lemma {:induction false} InsertAscending(x: string, s: seq<string>)
    requires Ascending(s)
    ensures Ascending(Insert(x, s))
  {
    if s == [] {
    } else if AtMost(x, s[0]) {
      forall y | y in s ensures AtMost(x, y) {
        if y != s[0] {
          AtMostTransitive(x, s[0], y);
        }
      }
      ConsAscending(x, s);
    } else {
      InsertAscending(x, s[1..]);
      InsertElements(x, s[1..]);
      AtMostTotal(x, s[0]);
      ConsAscending(s[0], Insert(x, s[1..]));
    }
  }

  lemma {:induction false} SortSound(s: seq<string>)
    ensures Ascending(Sort(s)) && multiset(Sort(s)) == multiset(s)
  {
    if s != [] {
      SortSound(s[1..]);
      InsertAscending(s[0], Sort(s[1..]));
      InsertKeeps(s[0], Sort(s[1..]));
      assert s == [s[0]] + s[1..];
    }
  }

  lemma HeadsEqual(s: seq<string>, t: seq<string>)
    requires Ascending(s) && Ascending(t) && s != [] && t != []
    requires s[0] in multiset(t) && t[0] in multiset(s)
    ensures s[0] == t[0]
  {
    var i :| 0 <= i < |t| && t[i] == s[0];
    var j :| 0 <= j < |s| && s[j] == t[0];
    AtMostTotal(s[0], t[0]);
  }

  lemma TailOf(s: seq<string>)
    requires s != []
    ensures multiset(s[1..]) == multiset(s) - multiset{s[0]}
  {
    assert s == [s[0]] + s[1..];
  }

  /** A multiset has one ascending arrangement. */
  lemma {:induction false} AscendingUnique(s: seq<string>, t: seq<string>)
    requires Ascending(s) && Ascending(t) && multiset(s) == multiset(t)
    ensures s == t
    decreases |s|
  {
    assert |s| == |multiset(s)| && |t| == |multiset(t)|;
    if s != [] {
      assert s[0] in multiset(s) && t[0] in multiset(t);
      HeadsEqual(s, t);
      TailOf(s);
      TailOf(t);
      AscendingUnique(s[1..], t[1..]);
      assert s == [s[0]] + s[1..] && t == [t[0]] + t[1..];
    }
  }

  // ------------------------------------------------------------- concatenation

  function Joined(s: seq<string>): string {
    if s == [] then "" else s[0] + [NUL] + Joined(s[1..])
  }

  ghost predicate AllNulFree(s: seq<string>) {
    forall i :: 0 <= i < |s| ==> NulFree(s[i])
  }

  predicate EndsAt(l: string, n: nat) {
    n < |l| && l[n] == NUL && forall i :: 0 <= i < n ==> l[i] != NUL
  }

  lemma SameHead(a: string, b: string, x: string, y: string)
    requires NulFree(a) && NulFree(b) && a + [NUL] + x == b + [NUL] + y
    ensures a == b && x == y
  {
    var l, r := a + [NUL] + x, b + [NUL] + y;
    assert EndsAt(l, |a|) && EndsAt(r, |b|);
    assert a == l[..|a|] && b == r[..|b|];
    assert x == l[|a| + 1..] && y == r[|b| + 1..];
  }

  lemma {:induction false} JoinedInjective(s: seq<string>, t: seq<string>)
    requires AllNulFree(s) && AllNulFree(t) && Joined(s) == Joined(t)
    ensures s == t
  {
    assert (s == [] <==> |Joined(s)| == 0) && (t == [] <==> |Joined(t)| == 0);
    if s != [] {
      SameHead(s[0], t[0], Joined(s[1..]), Joined(t[1..]));
      JoinedInjective(s[1..], t[1..]);
      assert s == [s[0]] + s[1..] && t == [t[0]] + t[1..];
    }
  }

  lemma {:induction false} JoinedNext(s: seq<string>, h: string)
    ensures Joined(s + [h]) == Joined(s) + h + [NUL]
  {
    if s == [] {
      assert [h][1..] == [];
      assert Joined([h]) == h + [NUL] + Joined([]);
    } else {
      assert (s + [h])[1..] == s[1..] + [h];
      JoinedNext(s[1..], h);
      assert Joined(s + [h]) == s[0] + [NUL] + (Joined(s[1..]) + h + [NUL]);
    }
  }

  // ------------------------------------------------------------ the fingerprint

  function Hashes(items: seq<Item>): (r: seq<string>)
    ensures |r| == |items| && forall i :: 0 <= i < |r| ==> r[i] == items[i].hash
  {
    seq(|items|, i requires 0 <= i < |items| => items[i].hash)
  }

  function ItemSet(items: seq<Item>): string {
    Joined(Sort(Hashes(items)))
  }

  /** itemSetHash without the digest. */
  method ItemSetHash(items: seq<Item>) returns (h: string)
    ensures h == ItemSet(items)
  {
    if |items| == 0 {
      return "";
    }
    var hashes: seq<string> := [];
    var i := 0;
    while i < |items|
      invariant i <= |items| && hashes == Hashes(items[..i])
    {
      hashes := hashes + [items[i].hash];
      i := i + 1;
    }
    assert items[..i] == items;
    hashes := Sort(hashes);
    h := "";
    i := 0;
    while i < |hashes|
      invariant i <= |hashes| && h == Joined(hashes[..i])
    {
      JoinedNext(hashes[..i], hashes[i]);
      assert hashes[..i + 1] == hashes[..i] + [hashes[i]];
      h := h + hashes[i] + [NUL];
      i := i + 1;
    }
    assert hashes[..i] == hashes;
  }

  ghost predicate NulFreeItems(items: seq<Item>) {
    forall i :: 0 <= i < |items| ==> NulFree(items[i].hash)
  }

  lemma SortedNulFree(items: seq<Item>)
    requires NulFreeItems(items)
    ensures AllNulFree(Sort(Hashes(items)))
  {
    var s := Sort(Hashes(items));
    SortSound(Hashes(items));
    forall i | 0 <= i < |s| ensures NulFree(s[i]) {
      assert s[i] in multiset(s) && s[i] in multiset(Hashes(items));
    }
  }

  /** Two polls have the same fingerprint exactly when they bring the same items, in whatever order. */
  lemma SameFingerprintIff(a: seq<Item>, b: seq<Item>)
    requires NulFreeItems(a) && NulFreeItems(b)
    ensures ItemSet(a) == ItemSet(b) <==> multiset(Hashes(a)) == multiset(Hashes(b))
  {
    SortSound(Hashes(a));
    SortSound(Hashes(b));
    if ItemSet(a) == ItemSet(b) {
      SortedNulFree(a);
      SortedNulFree(b);
      JoinedInjective(Sort(Hashes(a)), Sort(Hashes(b)));
    }
    if multiset(Hashes(a)) == multiset(Hashes(b)) {
      AscendingUnique(Sort(Hashes(a)), Sort(Hashes(b)));
    }
  }

  /** Only the empty poll has the empty fingerprint. */
  lemma EmptyFingerprintIff(items: seq<Item>)
    ensures ItemSet(items) == "" <==> items == []
  {
  }
}
