/** Lexicographic order on text, and the sorted listing of a set of keys. */
module Ordering {

  /** The order Go's `<` gives on strings. */
  predicate Less(a: string, b: string) {
    |b| > 0 && (|a| == 0 || a[0] < b[0] || (a[0] == b[0] && Less(a[1..], b[1..])))
  }

  lemma {:induction false} LessIrreflexive(a: string)
    ensures !Less(a, a)
  {
    if a != "" { LessIrreflexive(a[1..]); }
  }

  lemma {:induction false} LessTransitive(a: string, b: string, c: string)
    requires Less(a, b) && Less(b, c)
    ensures Less(a, c)
  {
    if a != "" && a[0] == b[0] == c[0] { LessTransitive(a[1..], b[1..], c[1..]); }
  }

  lemma {:induction false} LessTotal(a: string, b: string)
    ensures a == b || Less(a, b) || Less(b, a)
  {
    if a != "" && b != "" && a[0] == b[0] {
      LessTotal(a[1..], b[1..]);
      assert a == [a[0]] + a[1..] && b == [b[0]] + b[1..];
    }
  }

  lemma LessAsymmetric(a: string, b: string)
    requires Less(a, b)
    ensures !Less(b, a)
  {
    if Less(b, a) {
      LessTransitive(a, b, a);
      LessIrreflexive(a);
    }
  }

  predicate StrictlySorted(xs: seq<string>) {
    forall i, j :: 0 <= i < j < |xs| ==> Less(xs[i], xs[j])
  }

  /** `xs` lists exactly the members of `keys`, each once, in increasing order. */
  ghost predicate Lists(xs: seq<string>, keys: set<string>) {
    StrictlySorted(xs) && forall k :: k in xs <==> k in keys
  }

  /** A set of keys has only one sorted listing, so the order in which a map was visited leaves no trace. */
  lemma {:induction false} ListingIsUnique(xs: seq<string>, ys: seq<string>, keys: set<string>)
    requires Lists(xs, keys) && Lists(ys, keys)
    ensures xs == ys
    decreases |xs|
  {
    ListingLength(xs, keys);
    ListingLength(ys, keys);
    if xs != [] {
      assert xs[0] in keys;
      HeadIsLeast(xs, keys);
      HeadIsLeast(ys, keys);
      if xs[0] != ys[0] {
        assert ys[0] in keys;
        LessAsymmetric(xs[0], ys[0]);
      }
      TailLists(xs, keys);
      TailLists(ys, keys);
      ListingIsUnique(xs[1..], ys[1..], keys - {xs[0]});
      assert xs == [xs[0]] + xs[1..] && ys == [ys[0]] + ys[1..];
    }
  }

  lemma HeadIsLeast(xs: seq<string>, keys: set<string>)
    requires Lists(xs, keys) && xs != []
    ensures forall k :: k in keys && k != xs[0] ==> Less(xs[0], k)
  {
    forall k | k in keys && k != xs[0]
      ensures Less(xs[0], k)
    {
      assert k in xs;
      var i :| 0 <= i < |xs| && xs[i] == k;
    }
  }

  lemma TailLists(xs: seq<string>, keys: set<string>)
    requires Lists(xs, keys) && xs != []
    ensures Lists(xs[1..], keys - {xs[0]})
  {
    forall k
      ensures k in xs[1..] <==> k in keys - {xs[0]}
    {
      if k in xs[1..] {
        var i :| 0 <= i < |xs| - 1 && xs[1..][i] == k;
        assert xs[i + 1] == k;
        LessIrreflexive(k);
      }
      if k in keys && k != xs[0] {
        assert k in xs;
        var i :| 0 <= i < |xs| && xs[i] == k;
        assert xs[1..][i - 1] == k;
      }
    }
  }

  /** Puts a new key at its place in a sorted listing. */
  function Insert(xs: seq<string>, k: string): (r: seq<string>)
    requires StrictlySorted(xs) && k !in xs
    ensures StrictlySorted(r)
    ensures forall x :: x in r <==> x == k || x in xs
    ensures |r| == |xs| + 1
  {
    if xs == [] || Less(k, xs[0]) then
      assert StrictlySorted([k] + xs) by { PrependSorted(xs, k); }
      [k] + xs
    else
      LessTotal(k, xs[0]);
      var rest := Insert(xs[1..], k);
      assert StrictlySorted([xs[0]] + rest) by {
        forall j | 0 <= j < |rest| ensures Less(xs[0], rest[j]) {
          assert rest[j] in rest;
          if rest[j] != k { var i :| 0 <= i < |xs| - 1 && xs[1..][i] == rest[j]; assert xs[i + 1] == rest[j]; }
        }
      }
      assert xs == [xs[0]] + xs[1..];
      [xs[0]] + rest
  }

  lemma PrependSorted(xs: seq<string>, k: string)
    requires StrictlySorted(xs)
    requires xs != [] ==> Less(k, xs[0])
    ensures StrictlySorted([k] + xs)
  {
    forall j | 0 <= j < |xs| ensures Less(k, xs[j]) {
      if j > 0 { LessTransitive(k, xs[0], xs[j]); }
    }
  }

  /** Collects the keys of a map in whatever order they are visited, then sorts them. */
  method SortedKeys(keys: set<string>) returns (xs: seq<string>)
    ensures Lists(xs, keys)
  {
    xs := [];
    var rest := keys;
    while rest != {}
      invariant rest <= keys
      invariant StrictlySorted(xs)
      invariant forall k :: k in xs <==> k in keys - rest
      decreases |rest|
    {
      var k :| k in rest;
      xs := Insert(xs, k);
      rest := rest - {k};
    }
  }

  /** The sorted listing as a value. */
  ghost function Listing(keys: set<string>): (xs: seq<string>)
    ensures Lists(xs, keys)
    decreases |keys|
  {
    if keys == {} then []
    else
      var k :| k in keys;
      Insert(Listing(keys - {k}), k)
  }

  lemma {:induction false} ListingLength(xs: seq<string>, keys: set<string>)
    requires Lists(xs, keys)
    ensures |xs| == |keys|
    decreases |xs|
  {
    if xs == [] {
      assert forall k :: k in keys ==> k in xs;
      assert keys == {};
    } else {
      assert xs[0] in keys;
      TailLists(xs, keys);
      ListingLength(xs[1..], keys - {xs[0]});
    }
  }

  /** Binary search for the first index at which a monotone test holds, as `sort.Search` does it. */
  method SearchSorted(xs: seq<string>, key: string) returns (index: nat)
    requires StrictlySorted(xs)
    ensures index <= |xs|
    ensures forall i :: 0 <= i < index ==> Less(xs[i], key)
    ensures forall i :: index <= i < |xs| ==> !Less(xs[i], key)
  {
    var lo, hi := 0, |xs|;
    while lo < hi
      invariant 0 <= lo <= hi <= |xs|
      invariant forall i :: 0 <= i < lo ==> Less(xs[i], key)
      invariant forall i :: hi <= i < |xs| ==> !Less(xs[i], key)
    {
      var mid := (lo + hi) / 2;
      if Less(xs[mid], key) {
        forall i | 0 <= i < mid ensures Less(xs[i], key) { LessTransitive(xs[i], xs[mid], key); }
        lo := mid + 1;
      } else {
        forall i | mid < i < |xs| ensures !Less(xs[i], key) {
          if Less(xs[i], key) { LessTransitive(xs[mid], xs[i], key); }
        }
        hi := mid;
      }
    }
    index := lo;
  }
}
