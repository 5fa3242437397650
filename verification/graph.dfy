/** The undirected coin graph: an adjacency list from each coin to the coins it
    is directly tradable with. Keys are kept in insertion order, the order in
    which the enumeration of triangles visits them. */
module MarketGraph {
  import opened Basics
  import opened Asset

  datatype Graph = Graph(keys: seq<Coin>, adj: map<Coin, seq<Coin>>)

  /** The representation invariant every graph built by `AddCoin` keeps: the key
      order lists each key once, every neighbour is itself a key, and edges go
      both ways. */
  predicate Valid(g: Graph) {
    && Distinct(g.keys)
    && (forall c :: c in g.keys ==> c in g.adj)
    && (forall c :: c in g.adj ==> c in g.keys)
    && (forall a, b :: a in g.adj && b in g.adj[a] ==> b in g.adj && a in g.adj[b])
  }

  /** No adjacency list holds a coin twice. */
  predicate NoDuplicates(g: Graph) {
    forall c :: c in g.adj ==> Distinct(g.adj[c])
  }

  /** No coin is its own neighbour. */
  predicate NoSelfLoops(g: Graph) {
    forall c :: c in g.adj ==> c !in g.adj[c]
  }

  /** `new Graph()`. */
  function Empty(): (g: Graph)
    ensures Valid(g) && NoDuplicates(g) && NoSelfLoops(g)
    ensures g.adj == map[]
  {
    Graph([], map[])
  }

  /** `GetQuotes`: the neighbours of `c`, or nothing for a coin that is not a key. */
  function GetQuotes(g: Graph, c: Coin): (r: seq<Coin>)
    ensures c !in g.adj ==> r == []
    ensures c in g.adj ==> r == g.adj[c]
  {
    if c in g.adj then g.adj[c] else []
  }

  /** `GetKeys`: every node of the graph, each once, in insertion order. */
  function GetKeys(g: Graph): (r: seq<Coin>)
    ensures Valid(g) ==> Distinct(r)
    ensures Valid(g) ==> forall c :: c in r <==> c in g.adj
  {
    g.keys
  }

  /** Inserts `c` with an empty list unless it is already a key. */
  function EnsureKey(g: Graph, c: Coin): (r: Graph)
    ensures c in r.adj && r.adj.Keys == g.adj.Keys + {c}
    ensures forall d :: d in g.adj ==> d in r.adj && r.adj[d] == g.adj[d]
    ensures c !in g.adj ==> r.adj[c] == [] && r.keys == g.keys + [c]
    ensures c in g.adj ==> r == g
  {
    if c in g.adj then g else Graph(g.keys + [c], g.adj[c := []])
  }

  /** `AddCoin(base, quote)`: both coins become keys; unless either list already
      holds the other coin, `quote` is appended to the list of `base` and then
      `base` to the list of `quote`. */
  function AddCoin(g: Graph, baseCoin: Coin, quoteCoin: Coin): (r: Graph)
    // both coins are keys afterwards and no key is lost
    ensures r.adj.Keys == g.adj.Keys + {baseCoin, quoteCoin}
    // the lists of every other coin are untouched
    ensures forall c :: c in g.adj && c != baseCoin && c != quoteCoin ==> r.adj[c] == g.adj[c]
    // an edge already present in either orientation changes no list
    ensures quoteCoin in GetQuotes(g, baseCoin) || baseCoin in GetQuotes(g, quoteCoin) ==>
      r.adj[baseCoin] == GetQuotes(g, baseCoin) && r.adj[quoteCoin] == GetQuotes(g, quoteCoin)
    // a new edge appends each coin at the end of the other's list
    ensures quoteCoin !in GetQuotes(g, baseCoin) && baseCoin !in GetQuotes(g, quoteCoin) && baseCoin != quoteCoin ==>
      r.adj[baseCoin] == GetQuotes(g, baseCoin) + [quoteCoin] && r.adj[quoteCoin] == GetQuotes(g, quoteCoin) + [baseCoin]
    // a new self-loop appends the coin to its own list twice
    ensures baseCoin !in GetQuotes(g, baseCoin) && baseCoin == quoteCoin ==>
      r.adj[baseCoin] == GetQuotes(g, baseCoin) + [baseCoin, baseCoin]
  {
    var g1 := EnsureKey(g, baseCoin);
    var g2 := EnsureKey(g1, quoteCoin);
    if quoteCoin in g2.adj[baseCoin] || baseCoin in g2.adj[quoteCoin] then g2
    else Link(g2, baseCoin, quoteCoin)
  }

  /** Appends `quote` to the list of `base`, then `base` to the list of `quote`. */
  function Link(g: Graph, baseCoin: Coin, quoteCoin: Coin): Graph
    requires baseCoin in g.adj && quoteCoin in g.adj
  {
    var m := g.adj[baseCoin := g.adj[baseCoin] + [quoteCoin]];
    Graph(g.keys, m[quoteCoin := m[quoteCoin] + [baseCoin]])
  }

  /** The key order grows by the coins that were new, base first. */
  lemma AddCoinKeyOrder(g: Graph, baseCoin: Coin, quoteCoin: Coin)
    requires Valid(g)
    ensures AddCoin(g, baseCoin, quoteCoin).keys ==
      g.keys + (if baseCoin in g.adj then [] else [baseCoin])
             + (if quoteCoin in g.adj || quoteCoin == baseCoin then [] else [quoteCoin])
  {
  }

  /** After `AddCoin` the two coins are neighbours of each other. */
  lemma AddCoinLinks(g: Graph, baseCoin: Coin, quoteCoin: Coin)
    requires Valid(g)
    ensures var r := AddCoin(g, baseCoin, quoteCoin);
      quoteCoin in GetQuotes(r, baseCoin) && baseCoin in GetQuotes(r, quoteCoin)
  {
  }

  /** `AddCoin` keeps the representation invariant, symmetry included. */
  lemma AddCoinPreservesValid(g: Graph, baseCoin: Coin, quoteCoin: Coin)
    requires Valid(g)
    ensures Valid(AddCoin(g, baseCoin, quoteCoin))
  {
    var g1 := EnsureKey(g, baseCoin);
    EnsureKeyPreservesValid(g, baseCoin);
    var g2 := EnsureKey(g1, quoteCoin);
    EnsureKeyPreservesValid(g1, quoteCoin);
    if !(quoteCoin in g2.adj[baseCoin] || baseCoin in g2.adj[quoteCoin]) {
      LinkPreservesValid(g2, baseCoin, quoteCoin);
    }
  }

  /** Linking two keys keeps the representation invariant. */
  lemma LinkPreservesValid(g: Graph, baseCoin: Coin, quoteCoin: Coin)
    requires Valid(g) && baseCoin in g.adj && quoteCoin in g.adj
    ensures Valid(Link(g, baseCoin, quoteCoin))
  {
    var r := Link(g, baseCoin, quoteCoin);
    assert r.adj.Keys == g.adj.Keys;
    forall a, b | a in r.adj && b in r.adj[a] ensures b in r.adj && a in r.adj[b] {
      if b in g.adj[a] {
        assert a in g.adj[b];
      }
    }
  }

  /** Inserting a key keeps the representation invariant. */
  lemma EnsureKeyPreservesValid(g: Graph, c: Coin)
    requires Valid(g)
    ensures Valid(EnsureKey(g, c))
  {
    var r := EnsureKey(g, c);
    if c !in g.adj {
      forall i, j | 0 <= i < j < |r.keys| ensures r.keys[i] != r.keys[j] {
        if j == |g.keys| {
          assert r.keys[i] == g.keys[i];
        }
      }
    }
  }

  /** Symmetry read through `GetQuotes`: `c` neighbours `a` iff `a` neighbours `c`. */
  lemma SymmetricQuotes(g: Graph, a: Coin, c: Coin)
    requires Valid(g)
    ensures c in GetQuotes(g, a) <==> a in GetQuotes(g, c)
  {
  }

  /** On a valid graph, neighbourhoods after `AddCoin` are the old ones plus the new edge. */
  lemma AddCoinNeighbours(g: Graph, baseCoin: Coin, quoteCoin: Coin, a: Coin, c: Coin)
    requires Valid(g)
    ensures c in GetQuotes(AddCoin(g, baseCoin, quoteCoin), a) <==>
      c in GetQuotes(g, a) || (a == baseCoin && c == quoteCoin) || (a == quoteCoin && c == baseCoin)
  {
  }

  /** Re-adding an existing edge, in either orientation, is a no-op. */
  lemma AddCoinExistingEdge(g: Graph, baseCoin: Coin, quoteCoin: Coin)
    requires Valid(g)
    requires quoteCoin in GetQuotes(g, baseCoin) || baseCoin in GetQuotes(g, quoteCoin)
    ensures AddCoin(g, baseCoin, quoteCoin) == g
  {
  }

  /** `AddCoin(q, b)` or `AddCoin(b, q)` after `AddCoin(b, q)` changes nothing. */
  lemma AddCoinIdempotent(g: Graph, baseCoin: Coin, quoteCoin: Coin)
    requires Valid(g)
    ensures var r := AddCoin(g, baseCoin, quoteCoin);
      AddCoin(r, quoteCoin, baseCoin) == r && AddCoin(r, baseCoin, quoteCoin) == r
  {
    var r := AddCoin(g, baseCoin, quoteCoin);
    AddCoinPreservesValid(g, baseCoin, quoteCoin);
    AddCoinLinks(g, baseCoin, quoteCoin);
    AddCoinExistingEdge(r, quoteCoin, baseCoin);
    AddCoinExistingEdge(r, baseCoin, quoteCoin);
  }

  /** Adding an edge between two different coins never duplicates a neighbour. */
  lemma AddCoinKeepsListsDistinct(g: Graph, baseCoin: Coin, quoteCoin: Coin)
    requires NoDuplicates(g)
    requires baseCoin != quoteCoin
    ensures NoDuplicates(AddCoin(g, baseCoin, quoteCoin))
  {
  }

  /** Adding an edge between two different coins creates no self-loop. */
  lemma AddCoinKeepsLoopFree(g: Graph, baseCoin: Coin, quoteCoin: Coin)
    requires NoSelfLoops(g)
    requires baseCoin != quoteCoin
    ensures NoSelfLoops(AddCoin(g, baseCoin, quoteCoin))
  {
  }
}
