/** The `tokenList` ordering: the comparator handed to `Array.prototype.sort`, the
    proof that it is a total preorder, and the sort itself as a stable insertion
    sort over the token keys. */
module Ranking {
  import opened JsValues
  import opened Text
  import opened Tokens

  /** What the comparator reads of one key: the lower-cased symbol and the USD amount. */
  datatype SortKey = SortKey(symbol: string, usd: Option<real>)

  /** `'ETH'.toLowerCase()`: the comparator recognises ETH by its symbol. */
  const EthSymbol: string := "eth"

  /** The comparator: negative when `a` goes first, positive when `b` does. */
  function Compare(a: SortKey, b: SortKey): (r: int)
    ensures -1 <= r <= 1
  {
    if a.symbol == EthSymbol || b.symbol == EthSymbol then
      (if a.symbol == b.symbol then 0 else if a.symbol == EthSymbol then -1 else 1)
    else if a.usd.Some? && b.usd.None? then -1
    else if b.usd.Some? && a.usd.None? then 1
    else if a.usd.Some? && b.usd.Some? then
      (if a.usd.value > b.usd.value then -1 else if a.usd.value < b.usd.value then 1 else 0)
    else if StrLess(a.symbol, b.symbol) then -1
    else if StrLess(b.symbol, a.symbol) then 1
    else 0
  }

  // ---------------------------------------------------------------------------
  // The ranking rules, one by one.

  /** A token whose symbol is "eth" goes before every other token; two of them tie. */
  lemma EthFirst(a: SortKey, b: SortKey)
    requires a.symbol == EthSymbol
    ensures b.symbol != EthSymbol ==> Compare(a, b) == -1 && Compare(b, a) == 1
    ensures b.symbol == EthSymbol ==> Compare(a, b) == 0
  {
  }

  /** Among the other tokens, one with a USD value (zero included) goes before one without. */
  lemma PricedBeforeUnpriced(a: SortKey, b: SortKey)
    requires a.symbol != EthSymbol && b.symbol != EthSymbol
    requires a.usd.Some? && b.usd.None?
    ensures Compare(a, b) == -1 && Compare(b, a) == 1
  {
  }

  /** Two priced tokens go by value, largest first; equal values tie whatever the symbols. */
  lemma ByValueDescending(a: SortKey, b: SortKey)
    requires a.symbol != EthSymbol && b.symbol != EthSymbol
    requires a.usd.Some? && b.usd.Some?
    ensures Compare(a, b) < 0 <==> a.usd.value > b.usd.value
    ensures Compare(a, b) == 0 <==> a.usd.value == b.usd.value
  {
  }

  /** Two unpriced tokens go by lower-cased symbol, in JavaScript string order. */
  lemma UnpricedBySymbol(a: SortKey, b: SortKey)
    requires a.symbol != EthSymbol && b.symbol != EthSymbol
    requires a.usd.None? && b.usd.None?
    ensures Compare(a, b) < 0 <==> StrLess(a.symbol, b.symbol)
    ensures Compare(a, b) == 0 <==> a.symbol == b.symbol
  {
    StrLessAsymmetric(a.symbol, b.symbol);
    StrLessIrreflexive(a.symbol);
    StrLessTotal(a.symbol, b.symbol);
  }

  // ---------------------------------------------------------------------------
  // The comparator is a total preorder.

  /** When two keys tie: both ETH, or two other tokens with equal values, or two
      other unpriced tokens with the same symbol. */
  predicate Tied(a: SortKey, b: SortKey) {
    if a.symbol == EthSymbol || b.symbol == EthSymbol then a.symbol == b.symbol
    else if a.usd.Some? && b.usd.Some? then a.usd.value == b.usd.value
    else a.usd.None? && b.usd.None? && a.symbol == b.symbol
  }

  lemma CompareZeroIffTied(a: SortKey, b: SortKey)
    ensures Compare(a, b) == 0 <==> Tied(a, b)
  {
    StrLessAsymmetric(a.symbol, b.symbol);
    StrLessIrreflexive(a.symbol);
    StrLessTotal(a.symbol, b.symbol);
  }

  lemma CompareReflexive(a: SortKey)
    ensures Compare(a, a) == 0
  {
    StrLessIrreflexive(a.symbol);
  }

  lemma CompareAntisymmetric(a: SortKey, b: SortKey)
    ensures Compare(a, b) == -Compare(b, a)
  {
    StrLessAsymmetric(a.symbol, b.symbol);
  }

  lemma CompareTransitive(a: SortKey, b: SortKey, c: SortKey)
    requires Compare(a, b) <= 0 && Compare(b, c) <= 0
    ensures Compare(a, c) <= 0
  {
    StrLessAsymmetric(a.symbol, b.symbol);
    StrLessAsymmetric(b.symbol, c.symbol);
    StrLessAsymmetric(a.symbol, c.symbol);
    StrLessTransitive(a.symbol, b.symbol, c.symbol);
    StrLessTransitive(c.symbol, b.symbol, a.symbol);
    StrLessTransitive(b.symbol, a.symbol, c.symbol);
    StrLessTransitive(a.symbol, c.symbol, b.symbol);
    StrLessTotal(a.symbol, b.symbol);
    StrLessTotal(b.symbol, c.symbol);
    StrLessIrreflexive(a.symbol);
  }

  /** Tying is an equivalence: two keys tied with a third are tied with each other. */
  lemma TiedTransitive(a: SortKey, b: SortKey, c: SortKey)
    requires Compare(a, b) == 0 && Compare(b, c) == 0
    ensures Compare(a, c) == 0
  {
    CompareAntisymmetric(a, b);
    CompareAntisymmetric(b, c);
    CompareTransitive(a, b, c);
    CompareTransitive(c, b, a);
    CompareAntisymmetric(a, c);
  }

  // ---------------------------------------------------------------------------
  // Sorting the keys of `allTokens`.

  /** What the comparator reads for each key, computed once from `allTokens` and
      `usdAmounts`. */
  datatype Ranker = Ranker(ranks: map<string, SortKey>)

  /** `allTokens[k].symbol.toLowerCase()` and `usdAmounts[k]` (undefined, hence
      unpriced, for a key the lookup lacks), for every key of `allTokens`. */
  function MakeRanker(tokens: map<string, Token>, usd: map<string, Option<real>>): (rk: Ranker)
    ensures rk.ranks.Keys == tokens.Keys
    ensures forall k :: k in tokens ==>
      rk.ranks[k] == SortKey(Lower(tokens[k].symbol), if k in usd then usd[k] else None)
  {
    Ranker(map k | k in tokens :: SortKey(Lower(tokens[k].symbol), if k in usd then usd[k] else None))
  }

  function KeyOf(rk: Ranker, k: string): SortKey
    requires k in rk.ranks
  {
    rk.ranks[k]
  }

  function Cmp(rk: Ranker, a: string, b: string): int
    requires a in rk.ranks && b in rk.ranks
  {
    Compare(KeyOf(rk, a), KeyOf(rk, b))
  }

  predicate Known(rk: Ranker, s: seq<string>) {
    forall i :: 0 <= i < |s| ==> s[i] in rk.ranks
  }

  /** No key is ranked after one that should follow it. */
  ghost predicate Sorted(rk: Ranker, s: seq<string>)
    requires Known(rk, s)
  {
    forall i, j :: 0 <= i < j < |s| ==> Cmp(rk, s[i], s[j]) <= 0
  }

  /** Insert `x` before the first key it does not follow; ties keep `x` in front. */
  function Insert(rk: Ranker, x: string, s: seq<string>): (r: seq<string>)
    requires x in rk.ranks && Known(rk, s)
    ensures multiset(r) == multiset(s) + multiset{x}
    ensures Known(rk, r)
  {
    if |s| == 0 then [x]
    else if Cmp(rk, x, s[0]) <= 0 then [x] + s
    else
      assert s == [s[0]] + s[1..];
      [s[0]] + Insert(rk, x, s[1..])
  }

  /** `a` may stand before every key of `s`. */
  ghost predicate Leads(rk: Ranker, a: string, s: seq<string>)
    requires a in rk.ranks && Known(rk, s)
  {
    forall j :: 0 <= j < |s| ==> Cmp(rk, a, s[j]) <= 0
  }

  lemma SortedCons(rk: Ranker, a: string, s: seq<string>)
    requires a in rk.ranks && Known(rk, s) && Sorted(rk, s) && Leads(rk, a, s)
    ensures Known(rk, [a] + s) && Sorted(rk, [a] + s)
  {
    var r := [a] + s;
    forall i, j | 0 <= i < j < |r| ensures Cmp(rk, r[i], r[j]) <= 0 {
      assert r[j] == s[j - 1];
      if i > 0 { assert r[i] == s[i - 1]; }
    }
  }

  /** A key that leads every key of `s` and `x` leads what inserting `x` gives. */
  lemma LeadsInsert(rk: Ranker, a: string, x: string, s: seq<string>)
    requires a in rk.ranks && x in rk.ranks && Known(rk, s)
    requires Leads(rk, a, s) && Cmp(rk, a, x) <= 0
    ensures Leads(rk, a, Insert(rk, x, s))
  {
    var t := Insert(rk, x, s);
    forall j | 0 <= j < |t| ensures Cmp(rk, a, t[j]) <= 0 {
      assert t[j] in multiset(s) + multiset{x};
      if t[j] != x {
        assert t[j] in s;
      }
    }
  }

  /** Inserting into a sorted list keeps it sorted. */
  lemma {:induction false} InsertSorted(rk: Ranker, x: string, s: seq<string>)
    requires x in rk.ranks && Known(rk, s) && Sorted(rk, s)
    ensures Sorted(rk, Insert(rk, x, s))
  {
    if |s| == 0 {
    } else if Cmp(rk, x, s[0]) <= 0 {
      forall j | 0 <= j < |s| ensures Cmp(rk, x, s[j]) <= 0 {
        if j > 0 {
          assert Cmp(rk, s[0], s[j]) <= 0;
          CompareTransitive(KeyOf(rk, x), KeyOf(rk, s[0]), KeyOf(rk, s[j]));
        }
      }
      SortedCons(rk, x, s);
    } else {
      var t := Insert(rk, x, s[1..]);
      InsertSorted(rk, x, s[1..]);
      CompareAntisymmetric(KeyOf(rk, x), KeyOf(rk, s[0]));
      assert Leads(rk, s[0], s[1..]) by {
        forall j | 0 <= j < |s[1..]| ensures Cmp(rk, s[0], s[1..][j]) <= 0 {
          assert s[1..][j] == s[j + 1];
        }
      }
      LeadsInsert(rk, s[0], x, s[1..]);
      SortedCons(rk, s[0], t);
    }
  }

  /** `Object.keys(allTokens).sort(comparator)`, as a stable insertion sort. */
  function Sort(rk: Ranker, s: seq<string>): (r: seq<string>)
    requires Known(rk, s)
    ensures multiset(r) == multiset(s)
    ensures Known(rk, r) && Sorted(rk, r)
  {
    if |s| == 0 then []
    else
      assert s == [s[0]] + s[1..];
      var rest := Sort(rk, s[1..]);
      InsertSorted(rk, s[0], rest);
      Insert(rk, s[0], rest)
  }

  // ---------------------------------------------------------------------------
  // Stability: keys that tie keep the order they had in `Object.keys(allTokens)`.

  /** The keys of `s` that tie with `x`, in the order of `s`. */
  ghost function Peers(rk: Ranker, s: seq<string>, x: string): seq<string>
    requires x in rk.ranks && Known(rk, s)
  {
    if |s| == 0 then []
    else (if Cmp(rk, s[0], x) == 0 then [s[0]] else []) + Peers(rk, s[1..], x)
  }

  lemma PeersCons(rk: Ranker, a: string, s: seq<string>, x: string)
    requires x in rk.ranks && a in rk.ranks && Known(rk, s)
    ensures Known(rk, [a] + s)
    ensures Peers(rk, [a] + s, x) == (if Cmp(rk, a, x) == 0 then [a] else []) + Peers(rk, s, x)
  {
    assert ([a] + s)[0] == a && ([a] + s)[1..] == s;
  }

  /** A key that the comparator puts strictly after another cannot tie with the
      same third key as that other. */
  lemma NotBothPeers(rk: Ranker, y: string, z: string, x: string)
    requires x in rk.ranks && y in rk.ranks && z in rk.ranks
    requires Cmp(rk, y, z) > 0
    ensures !(Cmp(rk, y, x) == 0 && Cmp(rk, z, x) == 0)
  {
    if Cmp(rk, y, x) == 0 && Cmp(rk, z, x) == 0 {
      CompareAntisymmetric(KeyOf(rk, z), KeyOf(rk, x));
      TiedTransitive(KeyOf(rk, y), KeyOf(rk, x), KeyOf(rk, z));
    }
  }

  lemma {:induction false} InsertPeers(rk: Ranker, y: string, s: seq<string>, x: string)
    requires x in rk.ranks && y in rk.ranks && Known(rk, s)
    ensures Peers(rk, Insert(rk, y, s), x) == (if Cmp(rk, y, x) == 0 then [y] else []) + Peers(rk, s, x)
  {
    if |s| == 0 {
      PeersCons(rk, y, [], x);
    } else if Cmp(rk, y, s[0]) <= 0 {
      PeersCons(rk, y, s, x);
    } else {
      var t := Insert(rk, y, s[1..]);
      InsertPeers(rk, y, s[1..], x);
      NotBothPeers(rk, y, s[0], x);
      PeersCons(rk, s[0], t, x);
      PeersCons(rk, s[0], s[1..], x);
      assert s == [s[0]] + s[1..];
    }
  }

  /** The sort is stable: for every key, the keys tied with it come out in the
      order they went in. */
  lemma {:induction false} SortIsStable(rk: Ranker, s: seq<string>, x: string)
    requires x in rk.ranks && Known(rk, s)
    ensures Peers(rk, Sort(rk, s), x) == Peers(rk, s, x)
  {
    if |s| > 0 {
      SortIsStable(rk, s[1..], x);
      InsertPeers(rk, s[0], Sort(rk, s[1..]), x);
    }
  }

  // ---------------------------------------------------------------------------
  // What the sorted list looks like.

  /** Tokens with the symbol "eth" form a prefix of the ranking. */
  lemma SortedEthLeads(rk: Ranker, s: seq<string>, i: int, j: int)
    requires Known(rk, s) && Sorted(rk, s)
    requires 0 <= i < j < |s|
    requires KeyOf(rk, s[j]).symbol == EthSymbol
    ensures KeyOf(rk, s[i]).symbol == EthSymbol
  {
    assert Cmp(rk, s[i], s[j]) <= 0;
  }

  /** Among the other tokens, priced ones lead, by value descending, and the
      unpriced ones follow by symbol. */
  lemma SortedOthers(rk: Ranker, s: seq<string>, i: int, j: int)
    requires Known(rk, s) && Sorted(rk, s)
    requires 0 <= i < j < |s|
    requires KeyOf(rk, s[i]).symbol != EthSymbol && KeyOf(rk, s[j]).symbol != EthSymbol
    ensures KeyOf(rk, s[j]).usd.Some? ==> KeyOf(rk, s[i]).usd.Some?
    ensures KeyOf(rk, s[i]).usd.Some? && KeyOf(rk, s[j]).usd.Some? ==>
      KeyOf(rk, s[i]).usd.value >= KeyOf(rk, s[j]).usd.value
    ensures KeyOf(rk, s[i]).usd.None? && KeyOf(rk, s[j]).usd.None? ==>
      !StrLess(KeyOf(rk, s[j]).symbol, KeyOf(rk, s[i]).symbol)
  {
    assert Cmp(rk, s[i], s[j]) <= 0;
    StrLessAsymmetric(KeyOf(rk, s[i]).symbol, KeyOf(rk, s[j]).symbol);
    StrLessIrreflexive(KeyOf(rk, s[i]).symbol);
  }
}
