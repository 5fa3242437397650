/** Enumeration of triangular schemes: for every key A, every neighbour B of A
    and every neighbour C of B, the scheme (A,B), (B,C), (C,A) is emitted when A
    is a neighbour of C. Rotations and mirrors are deliberately not merged. */
module Detector {
  import opened Basics
  import opened Asset
  import opened MarketGraph

  /** A triangular scheme: the three pairs of one cycle, in trading order. */
  datatype Scheme = Scheme(first: Pair, second: Pair, third: Pair)

  /** The scheme as the three-element list the cycle resolver receives. */
  function Legs(s: Scheme): (r: seq<Pair>)
    ensures |r| == 3 && r[0] == s.first && r[1] == s.second && r[|r| - 1] == s.third
  {
    [s.first, s.second, s.third]
  }

  /** The scheme walking A -> B -> C -> A. */
  function Tri(a: Coin, b: Coin, c: Coin): (s: Scheme)
    ensures Closed(s)
    ensures s.first.base == a && s.second.base == b && s.third.base == c
  {
    Scheme(Pair(a, b), Pair(b, c), Pair(c, a))
  }

  /** Leg closure: each leg starts where the previous one ended, and the last
      leg returns to the first coin. */
  predicate Closed(s: Scheme) {
    s.first.quote == s.second.base && s.second.quote == s.third.base && s.third.quote == s.first.base
  }

  /** A, B, C form a triangle of the graph in this walking order. */
  predicate IsTriangle(g: Graph, a: Coin, b: Coin, c: Coin) {
    b in GetQuotes(g, a) && c in GetQuotes(g, b) && a in GetQuotes(g, c)
  }

  /** `GetTriangularSchemes`: the three nested loops, in key and list order. */
  function Schemes(g: Graph): (r: seq<Scheme>)
    ensures forall k :: 0 <= k < |r| ==> Closed(r[k])
    ensures forall k :: 0 <= k < |r| ==>
      r[k].first.base in GetKeys(g) && IsTriangle(g, r[k].first.base, r[k].second.base, r[k].third.base)
  {
    FromKeysSound(g, GetKeys(g));
    FromKeys(g, GetKeys(g))
  }

  /** The outer loop, over the keys `ks`. */
  function FromKeys(g: Graph, ks: seq<Coin>): seq<Scheme> {
    if ks == [] then []
    else FromFirst(g, ks[0], GetQuotes(g, ks[0])) + FromKeys(g, ks[1..])
  }

  /** The middle loop, over the neighbours `bs` of the first coin `a`. */
  function FromFirst(g: Graph, a: Coin, bs: seq<Coin>): seq<Scheme> {
    if bs == [] then []
    else FromSecond(g, a, bs[0], GetQuotes(g, bs[0])) + FromFirst(g, a, bs[1..])
  }

  /** The inner loop, over the neighbours `cs` of the second coin `b`. */
  function FromSecond(g: Graph, a: Coin, b: Coin, cs: seq<Coin>): seq<Scheme> {
    if cs == [] then []
    else (if a in GetQuotes(g, cs[0]) then [Tri(a, b, cs[0])] else []) + FromSecond(g, a, b, cs[1..])
  }

  /** Everything the inner loop emits closes at `a` through some `c` of `cs`. */
  lemma {:induction false} FromSecondSound(g: Graph, a: Coin, b: Coin, cs: seq<Coin>)
    ensures forall s: Scheme | s in FromSecond(g, a, b, cs) ::
      s == Tri(a, b, s.third.base) && s.third.base in cs && a in GetQuotes(g, s.third.base)
  {
    if cs != [] {
      FromSecondSound(g, a, b, cs[1..]);
    }
  }

  /** Everything the middle loop emits starts at `a` and passes through some `b` of `bs`. */
  lemma {:induction false} FromFirstSound(g: Graph, a: Coin, bs: seq<Coin>)
    ensures forall s: Scheme | s in FromFirst(g, a, bs) ::
      s == Tri(a, s.second.base, s.third.base) && s.second.base in bs
      && s.third.base in GetQuotes(g, s.second.base) && a in GetQuotes(g, s.third.base)
  {
    if bs != [] {
      FromSecondSound(g, a, bs[0], GetQuotes(g, bs[0]));
      FromFirstSound(g, a, bs[1..]);
    }
  }

  /** Everything the outer loop emits is a triangle starting at some key of `ks`. */
  lemma {:induction false} FromKeysSound(g: Graph, ks: seq<Coin>)
    ensures forall s: Scheme | s in FromKeys(g, ks) ::
      s == Tri(s.first.base, s.second.base, s.third.base)
      && s.first.base in ks && IsTriangle(g, s.first.base, s.second.base, s.third.base)
  {
    if ks != [] {
      FromFirstSound(g, ks[0], GetQuotes(g, ks[0]));
      FromKeysSound(g, ks[1..]);
    }
  }

  /** How often the inner loop emits `Tri(x, y, z)`. */
  lemma {:induction false} FromSecondCount(g: Graph, a: Coin, b: Coin, cs: seq<Coin>, x: Coin, y: Coin, z: Coin)
    ensures multiset(FromSecond(g, a, b, cs))[Tri(x, y, z)] ==
      if a == x && b == y && x in GetQuotes(g, z) then multiset(cs)[z] else 0
  {
    if cs != [] {
      FromSecondCount(g, a, b, cs[1..], x, y, z);
      assert cs == [cs[0]] + cs[1..];
    }
  }

  /** The arithmetic of one loop step: the count of the first iteration plus
      the count of the rest is the count over the whole list. */
  lemma CombineCounts(first: int, rest: int, cond: bool, hit: bool, k: int, m: int, n: int)
    requires first == if cond && hit then m else 0
    requires rest == if cond then k * m else 0
    requires n == k + (if hit then 1 else 0)
    ensures first + rest == if cond then n * m else 0
  {
    if hit {
      assert n * m == k * m + m;
    }
  }

  /** How often the middle loop emits `Tri(x, y, z)`. */
  lemma {:induction false} FromFirstCount(g: Graph, a: Coin, bs: seq<Coin>, x: Coin, y: Coin, z: Coin)
    ensures multiset(FromFirst(g, a, bs))[Tri(x, y, z)] ==
      if a == x && x in GetQuotes(g, z) then multiset(bs)[y] * multiset(GetQuotes(g, y))[z] else 0
  {
    if bs != [] {
      var t := Tri(x, y, z);
      FromFirstSplit(g, a, bs, t);
      FromFirstCount(g, a, bs[1..], x, y, z);
      FromSecondCount(g, a, bs[0], GetQuotes(g, bs[0]), x, y, z);
      HeadCount(bs, y);
      CombineCounts(multiset(FromSecond(g, a, bs[0], GetQuotes(g, bs[0])))[t], multiset(FromFirst(g, a, bs[1..]))[t],
        a == x && x in GetQuotes(g, z), bs[0] == y,
        multiset(bs[1..])[y], multiset(GetQuotes(g, y))[z], multiset(bs)[y]);
    }
  }

  /** The middle loop's output counts split into the first neighbour's share and the rest. */
  lemma FromFirstSplit(g: Graph, a: Coin, bs: seq<Coin>, t: Scheme)
    requires bs != []
    ensures multiset(FromFirst(g, a, bs))[t] ==
      multiset(FromSecond(g, a, bs[0], GetQuotes(g, bs[0])))[t] + multiset(FromFirst(g, a, bs[1..]))[t]
  {
    assert FromFirst(g, a, bs) == FromSecond(g, a, bs[0], GetQuotes(g, bs[0])) + FromFirst(g, a, bs[1..]);
  }

  /** How often the outer loop emits `Tri(x, y, z)`. */
  lemma {:induction false} FromKeysCount(g: Graph, ks: seq<Coin>, x: Coin, y: Coin, z: Coin)
    ensures multiset(FromKeys(g, ks))[Tri(x, y, z)] ==
      if x in GetQuotes(g, z) then multiset(ks)[x] * Paths(g, x, y, z) else 0
  {
    if ks != [] {
      FromKeysCount(g, ks[1..], x, y, z);
      FromKeysStep(g, ks, x, y, z);
    }
  }

  /** The number of walks x -> y -> z along the adjacency lists, duplicates counted. */
  function Paths(g: Graph, x: Coin, y: Coin, z: Coin): int {
    multiset(GetQuotes(g, x))[y] * multiset(GetQuotes(g, y))[z]
  }

  /** One step of the outer loop, given the count over the remaining keys. */
  lemma FromKeysStep(g: Graph, ks: seq<Coin>, x: Coin, y: Coin, z: Coin)
    requires ks != []
    requires multiset(FromKeys(g, ks[1..]))[Tri(x, y, z)] ==
      if x in GetQuotes(g, z) then multiset(ks[1..])[x] * Paths(g, x, y, z) else 0
    ensures multiset(FromKeys(g, ks))[Tri(x, y, z)] ==
      if x in GetQuotes(g, z) then multiset(ks)[x] * Paths(g, x, y, z) else 0
  {
    var t := Tri(x, y, z);
    FromKeysSplit(g, ks, t);
    FromFirstCount(g, ks[0], GetQuotes(g, ks[0]), x, y, z);
    HeadCount(ks, x);
    CombineCounts(multiset(FromFirst(g, ks[0], GetQuotes(g, ks[0])))[t], multiset(FromKeys(g, ks[1..]))[t],
      x in GetQuotes(g, z), ks[0] == x, multiset(ks[1..])[x], Paths(g, x, y, z), multiset(ks)[x]);
  }

  /** The outer loop's output counts split into the first key's share and the rest. */
  lemma FromKeysSplit(g: Graph, ks: seq<Coin>, t: Scheme)
    requires ks != []
    ensures multiset(FromKeys(g, ks))[t] ==
      multiset(FromFirst(g, ks[0], GetQuotes(g, ks[0])))[t] + multiset(FromKeys(g, ks[1..]))[t]
  {
    assert FromKeys(g, ks) == FromFirst(g, ks[0], GetQuotes(g, ks[0])) + FromKeys(g, ks[1..]);
  }

  /** The occurrences of `x` in a list are those in its tail, plus one if the head is `x`. */
  lemma HeadCount(ks: seq<Coin>, x: Coin)
    requires ks != []
    ensures multiset(ks)[x] == multiset(ks[1..])[x] + (if ks[0] == x then 1 else 0)
  {
    assert ks == [ks[0]] + ks[1..];
  }

  /** Completeness with multiplicity: on a valid graph with duplicate-free lists,
      every triangle A -> B -> C -> A starting at a key is emitted exactly once,
      and nothing else is emitted. */
  lemma SchemesExactlyOnce(g: Graph, a: Coin, b: Coin, c: Coin)
    requires Valid(g) && NoDuplicates(g)
    ensures multiset(Schemes(g))[Tri(a, b, c)] == if a in g.adj && IsTriangle(g, a, b, c) then 1 else 0
  {
    FromKeysCount(g, g.keys, a, b, c);
    DistinctOccursOnce(g.keys, a);
    DistinctOccursOnce(GetQuotes(g, a), b);
    DistinctOccursOnce(GetQuotes(g, b), c);
  }

  /** Completeness: every triangle starting at a key is emitted, whatever the lists hold. */
  lemma SchemesComplete(g: Graph, a: Coin, b: Coin, c: Coin)
    requires a in g.keys && IsTriangle(g, a, b, c)
    ensures Tri(a, b, c) in Schemes(g)
  {
    FromKeysCount(g, g.keys, a, b, c);
    var p := multiset(g.keys)[a];
    var q := multiset(GetQuotes(g, a))[b];
    var r := multiset(GetQuotes(g, b))[c];
    assert p >= 1 && q >= 1 && r >= 1;
    PositiveProduct(q, r);
    PositiveProduct(p, Paths(g, a, b, c));
  }

  /** A product of positive counts is positive. */
  lemma PositiveProduct(p: int, q: int)
    requires p >= 1 && q >= 1
    ensures p * q >= 1
  {
  }

  /** Emitted schemes are exactly the triangles of the graph starting at a key. */
  lemma SchemesCharacterised(g: Graph, s: Scheme)
    ensures s in Schemes(g) <==>
      (s == Tri(s.first.base, s.second.base, s.third.base)
       && s.first.base in g.keys && IsTriangle(g, s.first.base, s.second.base, s.third.base))
  {
    if s == Tri(s.first.base, s.second.base, s.third.base)
       && s.first.base in g.keys && IsTriangle(g, s.first.base, s.second.base, s.third.base) {
      SchemesComplete(g, s.first.base, s.second.base, s.third.base);
    }
  }

  /** No deduplication: on a valid graph both other rotations of a found
      triangle, and its mirror A -> C -> B -> A, are emitted as well. */
  lemma RotationsAndMirrorEmitted(g: Graph, a: Coin, b: Coin, c: Coin)
    requires Valid(g)
    requires Tri(a, b, c) in Schemes(g)
    ensures Tri(b, c, a) in Schemes(g)
    ensures Tri(c, a, b) in Schemes(g)
    ensures Tri(a, c, b) in Schemes(g)
  {
    SchemesCharacterised(g, Tri(a, b, c));
    SymmetricQuotes(g, a, b);
    SymmetricQuotes(g, b, c);
    SymmetricQuotes(g, c, a);
    SchemesComplete(g, b, c, a);
    SchemesComplete(g, c, a, b);
    SchemesComplete(g, a, c, b);
  }

  /** Without self-loops the three coins of every scheme are pairwise distinct. */
  lemma SchemeCoinsDistinct(g: Graph, s: Scheme)
    requires NoSelfLoops(g)
    requires s in Schemes(g)
    ensures s.first.base != s.second.base && s.second.base != s.third.base && s.third.base != s.first.base
  {
  }
}
