/** Coins and trading pairs, with the two symbol spellings exchanges use:
    "BASE_QUOTE" (Poloniex) and "BASEQUOTE" (Binance). */
module Asset {
  import opened Basics

  /** A coin is identified by its ticker name alone. */
  datatype Coin = Coin(name: string)

  /** An ordered (base, quote) pair of coins. */
  datatype Pair = Pair(base: Coin, quote: Coin)

  /** The separator of the Poloniex spelling. */
  const Separator: char := '_'

  /** `Coin.ToString`: the coin's name, nothing added. */
  function CoinToString(c: Coin): (r: string)
    ensures |r| == |c.name|
    ensures forall d: Coin :: d.name == r <==> d == c
  {
    c.name
  }

  /** `Coin.Equals(object)`: `None` stands for null or an object that is not a
      coin; otherwise the names are compared. */
  function CoinEquals(c: Coin, obj: Option<Coin>): (r: bool)
    ensures r <==> obj == Some(c)
  {
    match obj
    case Some(other) => c.name == other.name
    case None => false
  }

  /** `Coin.GetHashCode`: the hash of the name, with the string hash supplied
      by the caller since its values are the runtime's business. */
  function CoinHash(c: Coin, stringHash: string -> int): int {
    stringHash(c.name)
  }

  /** Equality of coins is an equivalence relation. */
  lemma CoinEqualsIsEquivalence(a: Coin, b: Coin, c: Coin)
    ensures CoinEquals(a, Some(a))
    ensures CoinEquals(a, Some(b)) <==> CoinEquals(b, Some(a))
    ensures CoinEquals(a, Some(b)) && CoinEquals(b, Some(c)) ==> CoinEquals(a, Some(c))
  {
  }

  /** Equal coins hash equally, whatever the string hash is. */
  lemma EqualCoinsHashEqually(a: Coin, b: Coin, stringHash: string -> int)
    requires CoinEquals(a, Some(b))
    ensures CoinHash(a, stringHash) == CoinHash(b, stringHash)
  {
  }

  /** `new Pair(base, quote)`. */
  function NewPair(baseCoin: Coin, quoteCoin: Coin): (p: Pair)
    ensures p.base == baseCoin && p.quote == quoteCoin
  {
    Pair(baseCoin, quoteCoin)
  }

  /** The pair with base and quote exchanged. */
  function Swap(p: Pair): (r: Pair)
    ensures r.base == p.quote && r.quote == p.base
  {
    Pair(p.quote, p.base)
  }

  /** `Pair.ToString`: the Poloniex spelling "BASE_QUOTE". */
  function PairToString(p: Pair): (r: string)
    ensures |r| == |PairToBinanceString(p)| + 1
    ensures r[..|p.base.name|] == p.base.name
    ensures r[|p.base.name|] == Separator
    ensures r[|p.base.name| + 1..] == p.quote.name
  {
    CoinToString(p.base) + [Separator] + CoinToString(p.quote)
  }

  /** `Pair.ToBinanceString`: the Binance spelling "BASEQUOTE". */
  function PairToBinanceString(p: Pair): (r: string)
    ensures |r| == |p.base.name| + |p.quote.name|
    ensures r[..|p.base.name|] == p.base.name
    ensures r[|p.base.name|..] == p.quote.name
  {
    CoinToString(p.base) + CoinToString(p.quote)
  }

  /** Neither coin name of the pair contains the separator. */
  predicate SeparatorFree(p: Pair) {
    Separator !in p.base.name && Separator !in p.quote.name
  }

  /** `string.Split(char)`: the pieces between occurrences of `sep`; an input
      without `sep` (the empty string included) is one piece. */
  function Split(s: string, sep: char): (r: seq<string>)
    ensures |r| >= 1
    ensures forall k :: 0 <= k < |r| ==> sep !in r[k]
    ensures Join(r, sep) == s
    decreases |s|
  {
    if |s| == 0 then [""]
    else
      var rest := Split(s[1..], sep);
      if s[0] == sep then [""] + rest
      else
        assert Join(rest, sep) == s[1..];
        JoinConsFirst(s[0], rest, sep);
        [[s[0]] + rest[0]] + rest[1..]
  }

  /** The inverse of `Split`: the pieces glued back with `sep` between them. */
  function Join(parts: seq<string>, sep: char): string
    requires |parts| >= 1
    decreases |parts|
  {
    if |parts| == 1 then parts[0]
    else parts[0] + [sep] + Join(parts[1..], sep)
  }

  /** Prefixing a character to the first piece prefixes it to the join. */
  lemma {:induction false} JoinConsFirst(c: char, parts: seq<string>, sep: char)
    requires |parts| >= 1
    ensures Join([[c] + parts[0]] + parts[1..], sep) == [c] + Join(parts, sep)
  {
    var q := [[c] + parts[0]] + parts[1..];
    assert q[1..] == parts[1..];
  }

  /** Splitting a separator-free string gives that string alone. */
  lemma {:induction false} SplitWithoutSeparator(s: string, sep: char)
    requires sep !in s
    ensures Split(s, sep) == [s]
    decreases |s|
  {
    if |s| > 0 {
      assert sep !in s[1..];
      SplitWithoutSeparator(s[1..], sep);
      assert [s[0]] + s[1..] == s;
    }
  }

  /** A separator-free head followed by the separator splits off as the first piece. */
  lemma {:induction false} SplitAfterHead(a: string, t: string, sep: char)
    requires sep !in a
    ensures Split(a + [sep] + t, sep) == [a] + Split(t, sep)
    decreases |a|
  {
    var s := a + [sep] + t;
    if |a| == 0 {
      assert s[1..] == t;
    } else {
      assert s[1..] == a[1..] + [sep] + t;
      assert sep !in a[1..];
      SplitAfterHead(a[1..], t, sep);
      assert [a[0]] + a[1..] == a;
    }
  }

  /** Round trip used by the Poloniex client: splitting "BASE_QUOTE" on '_'
      gives back the two names, provided neither contains '_'. */
  lemma PairToStringSplits(p: Pair)
    requires SeparatorFree(p)
    ensures Split(PairToString(p), Separator) == [p.base.name, p.quote.name]
  {
    SplitAfterHead(p.base.name, p.quote.name, Separator);
    SplitWithoutSeparator(p.quote.name, Separator);
  }

  /** On separator-free pairs the Poloniex spelling is injective. */
  lemma PairToStringInjective(p: Pair, q: Pair)
    requires SeparatorFree(p) && SeparatorFree(q)
    requires PairToString(p) == PairToString(q)
    ensures p == q
  {
    PairToStringSplits(p);
    PairToStringSplits(q);
  }

  /** The Binance spelling is not injective: "A"+"BC" and "AB"+"C" collide. */
  lemma BinanceStringNotInjective()
    ensures exists p: Pair, q: Pair :: p != q && PairToBinanceString(p) == PairToBinanceString(q)
  {
    var p := Pair(Coin("A"), Coin("BC"));
    var q := Pair(Coin("AB"), Coin("C"));
    assert PairToBinanceString(p) == "ABC" == PairToBinanceString(q);
    assert p.base != q.base by { assert |p.base.name| != |q.base.name|; }
  }
}
