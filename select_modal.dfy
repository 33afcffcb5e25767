/** `CurrencySelectModal`: the ranked and filtered token list it renders, the USD
    label of each row, and the search query its input box produces. */
module CurrencySelectModal {
  import opened JsValues
  import opened Text
  import opened Tokens
  import opened Ranking
  import opened Rows
  import opened Search

  /** One render's inputs: `allTokens`, `allBalances` (an absent `allBalances` behaves
      as an empty one) and the ETH price in USD from `useUSDPrice`. */
  datatype Snapshot = Snapshot(table: TokenTable, balances: map<string, Balance>, ethPrice: Option<real>)

  /** `usdAmounts` of this render. */
  function UsdAmountsOf(snap: Snapshot): map<string, Option<real>>
    requires snap.table.Valid()
  {
    UsdAmounts(snap.table, snap.balances, snap.ethPrice)
  }

  function RankerOf(snap: Snapshot): Ranker
    requires snap.table.Valid()
  {
    MakeRanker(snap.table.details, UsdAmountsOf(snap))
  }

  /** The keys in ranked order. */
  function RankedKeys(snap: Snapshot): (r: seq<string>)
    requires snap.table.Valid()
    ensures Known(RankerOf(snap), r)
  {
    assert Known(RankerOf(snap), snap.table.keys);
    Sort(RankerOf(snap), snap.table.keys)
  }

  /** `tokenList`: the rows of the ranked keys. */
  function TokenList(snap: Snapshot, fmt: Formatters): seq<Row>
    requires snap.table.Valid()
  {
    BuildRows(snap.table.details, snap.balances, UsdAmountsOf(snap), fmt, RankedKeys(snap))
  }

  /** `filteredTokenList` */
  function FilteredTokenList(snap: Snapshot, fmt: Formatters, query: string): seq<Row>
    requires snap.table.Valid()
  {
    FilterRows(TokenList(snap, fmt), query)
  }

  // ---------------------------------------------------------------------------
  // The token list.

  /** The rows list every token exactly once and in comparator order. */
  lemma TokenListRanked(snap: Snapshot, fmt: Formatters)
    requires snap.table.Valid()
    ensures var rows := TokenList(snap, fmt);
      && multiset(Addresses(rows)) == multiset(snap.table.keys)
      && Known(RankerOf(snap), Addresses(rows))
      && forall i, j :: 0 <= i < j < |rows| ==> Cmp(RankerOf(snap), rows[i].address, rows[j].address) <= 0
  {
    var keys := RankedKeys(snap);
    AddressesOfRows(snap.table.details, snap.balances, UsdAmountsOf(snap), fmt, keys);
    assert Known(RankerOf(snap), snap.table.keys);
  }

  /** Rows that tie under the comparator keep the order of `Object.keys(allTokens)`. */
  lemma TokenListStable(snap: Snapshot, fmt: Formatters, x: string)
    requires snap.table.Valid() && x in snap.table.details
    ensures Known(RankerOf(snap), Addresses(TokenList(snap, fmt)))
    ensures Peers(RankerOf(snap), Addresses(TokenList(snap, fmt)), x) == Peers(RankerOf(snap), snap.table.keys, x)
  {
    var keys := RankedKeys(snap);
    AddressesOfRows(snap.table.details, snap.balances, UsdAmountsOf(snap), fmt, keys);
    assert Known(RankerOf(snap), snap.table.keys);
    SortIsStable(RankerOf(snap), snap.table.keys, x);
  }

  /** What row `i` holds: the token's own name and symbol, its key as address, and a
      balance and USD value only when a balance record exists, the latter being the
      token's USD value. */
  lemma TokenListRow(snap: Snapshot, fmt: Formatters, i: int)
    requires snap.table.Valid()
    requires 0 <= i < |TokenList(snap, fmt)|
    ensures var row := TokenList(snap, fmt)[i];
      && row.address in snap.table.details
      && row.name == snap.table.details[row.address].name
      && row.symbol == snap.table.details[row.address].symbol
      && (row.address !in snap.balances ==> row.balance == Undefined && row.usdBalance == Unset)
      && (row.address in snap.balances ==>
            var v := UsdOf(snap.table, snap.balances, snap.ethPrice, row.address);
            (v.None? ==> row.usdBalance == NoPrice) && (v.Some? ==> row.usdBalance == Usd(v.value)))
  {
    var keys := RankedKeys(snap);
    var k := keys[i];
    BuildRowSpec(snap.table.details, snap.balances, UsdAmountsOf(snap), fmt, k);
  }

  /** The rows whose lower-cased symbol is "eth" come before all others. */
  lemma EthSymbolRowsLead(snap: Snapshot, fmt: Formatters, i: int, j: int)
    requires snap.table.Valid()
    requires 0 <= i < j < |TokenList(snap, fmt)|
    requires Lower(TokenList(snap, fmt)[j].symbol) == EthSymbol
    ensures Lower(TokenList(snap, fmt)[i].symbol) == EthSymbol
  {
    var rows := TokenList(snap, fmt);
    var keys := RankedKeys(snap);
    BuildRowSpec(snap.table.details, snap.balances, UsdAmountsOf(snap), fmt, keys[i]);
    BuildRowSpec(snap.table.details, snap.balances, UsdAmountsOf(snap), fmt, keys[j]);
    SortedEthLeads(RankerOf(snap), keys, i, j);
  }

  // ---------------------------------------------------------------------------
  // The filtered list.

  /** The filtered list is the token list with the non-matching rows taken out. */
  lemma FilteredIsSublist(snap: Snapshot, fmt: Formatters, query: string)
    requires snap.table.Valid()
    ensures IsSubsequence(FilteredTokenList(snap, fmt, query), TokenList(snap, fmt))
    ensures forall row :: row in FilteredTokenList(snap, fmt, query) <==>
      row in TokenList(snap, fmt) && RowMatches(row, query)
  {
  }

  /** With an empty search box every token is listed. */
  lemma EmptyQueryListsAll(snap: Snapshot, fmt: Formatters)
    requires snap.table.Valid()
    ensures FilteredTokenList(snap, fmt, "") == TokenList(snap, fmt)
  {
    EmptyQueryKeepsAll(TokenList(snap, fmt));
  }

  // ---------------------------------------------------------------------------
  // The search query and the USD label.

  /** `isAddress(input) || input`: the checksummed address when the input is one,
      the raw text otherwise. `checksummed` is what `isAddress` returned. */
  function SearchQuery(input: string, checksummed: Option<string>): (q: string)
    ensures checksummed.None? ==> q == input
    ensures checksummed.Some? && checksummed.value != "" ==> q == checksummed.value
    ensures checksummed == Some("") ==> q == input
  {
    if checksummed.Some? && checksummed.value != "" then checksummed.value else input
  }

  const LessThanOneCent: string := "<$0.01"

  /** The USD cell of a row; `formatToUsd` is the imported formatter. */
  function UsdLabel(c: UsdCell, formatToUsd: real -> string): (shown: string)
    ensures shown == "" <==> !c.Usd?
    ensures shown == LessThanOneCent <==> c.Usd? && c.value < 0.01
    ensures c.Usd? && c.value >= 0.01 ==> shown[0] == '$' && shown[1..] == formatToUsd(c.value)
  {
    match c
    case Usd(v) =>
      if v < 0.01 then LessThanOneCent
      else
        var dollars := "$" + formatToUsd(v);
        assert dollars[0] != LessThanOneCent[0];
        dollars
    case _ => ""
  }

  /** A zero USD value is shown, as less than one cent, not hidden. */
  lemma ZeroValueShowsLessThanOneCent(formatToUsd: real -> string)
    ensures UsdLabel(Usd(0.0), formatToUsd) == LessThanOneCent
  {
  }
}
