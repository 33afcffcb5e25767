# Token picker of the currency input panel, modelled in Dafny

The currency input panel of this exchange front end pairs an amount field with a
token picker. The picker lists every known token with its balance and USD value and
filters the list by a search text. This project models the deterministic part of
that picker and proves properties of it:

- the USD value of each token's balance, and the key → value lookup built from it;
- the ranking comparator, shown to be a total preorder, and the sort of the token
  keys, shown to be a sorted, stable permutation;
- the display rows built from the ranked keys;
- the search filter, shown to be an order-preserving sublist that keeps exactly the
  rows with a matching string field;
- the unlock control, the USD label of a row and the search query derived from
  the input box;
- the state the panel changes step by step: whether the selector is open, and the
  current search text.

Modules, one per concern:

- `JsValues` (jsvalues.dfy): `Option`, and a JavaScript value as `typeof` sees it.
- `Text` (text.dfy): ASCII `toLowerCase`, JavaScript's `<` on strings, and literal case-insensitive search.
- `Tokens` (tokens.dfy): the inputs (`allTokens`, `allBalances`, the ETH price), `UsdValue` and `UsdAmounts`.
- `Ranking` (ranking.dfy): the comparator, its order properties, the insertion sort and its stability.
- `Rows` (rows.dfy): the row built for each key.
- `Search` (search.dfy): the filter.
- `CurrencySelectModal` (select_modal.dfy): the pipeline of one render, the USD label and the search query.
- `CurrencyInputPanel` (input_panel.dfy): the unlock control and the `TokenPicker` state class.

BigNumber quantities are `real`s. Dafny's `real` is exact, so the model divides by
`10^decimals` exactly. The imported formatters (`formatEthBalance`,
`formatTokenBalance`, `formatToUsd`) and the address validator `isAddress` are
parameters of the model. Nothing is assumed about what they compute.

ETH is recognised in two different ways in the source. The comparator looks at the
lower-cased symbol (`"eth"`). The row builder and the unlock control look at the
key `'ETH'`. The model keeps both tests as written, as `Ranking.EthSymbol` and
`Rows.EthKey`. A token under some other key whose symbol is "ETH" is therefore
ranked first, yet its balance goes through the generic token formatter.

`Array.prototype.sort` is modelled as a stable insertion sort. The comparator is
proved to be a total preorder, and for such a comparator every stable sort gives the
same order. That last fact is standard but is not proved here.

## Model

| member | source | states |
|---|---|---|
| `Text.Lower` | web/src/components/CurrencyInputPanel/index.js:499-500 | lower-casing keeps the length and maps each character through the ASCII lower-case map, so the result has no upper-case letter |
| `Text.LowerIdempotent` | web/src/components/CurrencyInputPanel/index.js:499-500 | lower-casing a lower-cased symbol changes nothing |
| `Text.StrLessIsLexLess` | web/src/components/CurrencyInputPanel/index.js:520 | the string `<` of the comparator holds exactly when the first string is a proper prefix of the second, or the two first differ at a position where the first has the smaller character |
| `Text.StrLessIrreflexive` | web/src/components/CurrencyInputPanel/index.js:520 | no symbol sorts before itself |
| `Text.StrLessAsymmetric` | web/src/components/CurrencyInputPanel/index.js:520 | two symbols are never each before the other |
| `Text.StrLessTransitive` | web/src/components/CurrencyInputPanel/index.js:520 | the string order is transitive |
| `Text.StrLessTotal` | web/src/components/CurrencyInputPanel/index.js:520 | two different symbols are always ordered one way or the other |
| `Text.OccursIffSlice` | web/src/components/CurrencyInputPanel/index.js:549 | the position-by-position search of the escaped pattern succeeds exactly when the query is a contiguous slice of the field |
| `Text.EmptyOccurs` | web/src/components/CurrencyInputPanel/index.js:549 | the empty query matches every string |
| `Text.DotIsLiteral` | web/src/components/CurrencyInputPanel/index.js:549 | escaping makes the query literal: "a.c" matches "A.C" but not "abc" |
| `Tokens.UsdValue` | web/src/components/CurrencyInputPanel/index.js:472-488 | a token has a USD value exactly when the ETH price, its balance record, a non-NaN rate and its balance are all present, and then the value times 10^decimals equals balance × (price × rate) |
| `Tokens.NoPriceNoValue` | web/src/components/CurrencyInputPanel/index.js:474 | without an ETH price no token has a USD value |
| `Tokens.ZeroBalanceIsPriced` | web/src/components/CurrencyInputPanel/index.js:479-484 | a zero balance with a price and a rate is valued at 0, not left unpriced |
| `Tokens.UsdValueNonNegative` | web/src/components/CurrencyInputPanel/index.js:481-483 | with a non-negative price and rate the USD value is present and non-negative |
| `Tokens.UsdList` | web/src/components/CurrencyInputPanel/index.js:472-488 | `_usdAmounts` holds one entry per key, in key order, each the USD value of that key |
| `Tokens.ReduceKeys` | web/src/components/CurrencyInputPanel/index.js:489-494 | folding the keys with `Object.assign({[key]: value}, accumulator)` yields a lookup whose keys are exactly the listed keys |
| `Tokens.ReduceFirstWins` | web/src/components/CurrencyInputPanel/index.js:492 | because the accumulator is copied over the new pair, the lookup maps a key to the value at its first occurrence |
| `Tokens.UsdAmounts` | web/src/components/CurrencyInputPanel/index.js:489-494 | `usdAmounts` maps every token key, and nothing else, to that token's USD value |
| `Ranking.Compare` | web/src/components/CurrencyInputPanel/index.js:498-521 | the comparator returns -1, 0 or 1 |
| `Ranking.EthFirst` | web/src/components/CurrencyInputPanel/index.js:499-504 | a token whose lower-cased symbol is "eth" goes before every other token, and two such tokens compare 0 |
| `Ranking.PricedBeforeUnpriced` | web/src/components/CurrencyInputPanel/index.js:506-510 | among the other tokens, one with a USD value (zero included) goes before one without |
| `Ranking.ByValueDescending` | web/src/components/CurrencyInputPanel/index.js:513-518 | two priced tokens go by value, largest first, and equal values compare 0 whatever the symbols |
| `Ranking.UnpricedBySymbol` | web/src/components/CurrencyInputPanel/index.js:520 | two unpriced tokens go by lower-cased symbol ascending, and compare 0 only on equal symbols |
| `Ranking.CompareZeroIffTied` | web/src/components/CurrencyInputPanel/index.js:498-521 | the comparator returns 0 exactly for two ETH tokens, two priced tokens of equal value, or two unpriced tokens of the same symbol |
| `Ranking.CompareReflexive` | web/src/components/CurrencyInputPanel/index.js:498-521 | every token compares 0 with itself |
| `Ranking.CompareAntisymmetric` | web/src/components/CurrencyInputPanel/index.js:498-521 | swapping the arguments negates the result |
| `Ranking.CompareTransitive` | web/src/components/CurrencyInputPanel/index.js:498-521 | if a is not after b and b is not after c, then a is not after c |
| `Ranking.TiedTransitive` | web/src/components/CurrencyInputPanel/index.js:498-521 | comparing 0 is transitive, so ties form equivalence classes |
| `Ranking.MakeRanker` | web/src/components/CurrencyInputPanel/index.js:499-500 | the comparator reads, for every token key, the lower-cased symbol and the `usdAmounts` entry, unpriced when there is none |
| `Ranking.Insert` | web/src/components/CurrencyInputPanel/index.js:497-521 | inserting a key adds exactly that key, as a multiset |
| `Ranking.InsertSorted` | web/src/components/CurrencyInputPanel/index.js:497-521 | inserting into a sorted list keeps it sorted |
| `Ranking.Sort` | web/src/components/CurrencyInputPanel/index.js:497-521 | the sorted keys are a permutation of the token keys, and no key comes after one that the comparator puts after it |
| `Ranking.InsertPeers` | web/src/components/CurrencyInputPanel/index.js:497-521 | an inserted key goes before every key it ties with |
| `Ranking.SortIsStable` | web/src/components/CurrencyInputPanel/index.js:497-521 | keys that tie keep the order they have in `Object.keys(allTokens)` |
| `Ranking.SortedEthLeads` | web/src/components/CurrencyInputPanel/index.js:499-504 | in a sorted list the "eth"-symbol keys form a prefix |
| `Ranking.SortedOthers` | web/src/components/CurrencyInputPanel/index.js:506-520 | in a sorted list, among the other keys, priced ones come first, by value descending, then unpriced ones by symbol |
| `Rows.UsdCellOf` | web/src/components/CurrencyInputPanel/index.js:528 | the stored `usdAmounts[k]` is undefined for a key the lookup lacks, null for an unpriced key, and the value for a priced key |
| `Rows.BuildRowSpec` | web/src/components/CurrencyInputPanel/index.js:522-540 | a row copies name, symbol and key; balance and USD value are undefined without a balance record; with one, the USD value is `usdAmounts[k]`, and the balance comes from the ETH formatter for key 'ETH' and from the token formatter otherwise |
| `Rows.BuildRows` | web/src/components/CurrencyInputPanel/index.js:522-540 | one row per ranked key, in the ranked order |
| `Rows.AddressesOfRows` | web/src/components/CurrencyInputPanel/index.js:536 | the rows' addresses read back the list of keys they were built from |
| `Search.UsdAsJs` | web/src/components/CurrencyInputPanel/index.js:548 | a row's `usdBalance` is never a string |
| `Search.RowMatchesIff` | web/src/components/CurrencyInputPanel/index.js:544-553 | a row matches exactly when its name, symbol, address or string balance contains the query, ignoring ASCII case |
| `Search.EmptyQueryMatches` | web/src/components/CurrencyInputPanel/index.js:544-553 | every row matches the empty query, through its address |
| `Search.FilterRows` | web/src/components/CurrencyInputPanel/index.js:543-555 | the filtered rows are a sublist of the rows in the same order, a row is kept exactly when it matches, and each kept row is kept as often as it occurs |
| `Search.EmptyQueryKeepsAll` | web/src/components/CurrencyInputPanel/index.js:543-555 | the empty query keeps every row |
| `Search.FilterIdempotent` | web/src/components/CurrencyInputPanel/index.js:543-555 | filtering twice by the same query gives the same list as filtering once |
| `CurrencySelectModal.RankedKeys` | web/src/components/CurrencyInputPanel/index.js:497-521 | every ranked key names a known token |
| `CurrencySelectModal.TokenListRanked` | web/src/components/CurrencyInputPanel/index.js:496-541 | `tokenList` lists every token key exactly once, in comparator order |
| `CurrencySelectModal.TokenListStable` | web/src/components/CurrencyInputPanel/index.js:496-541 | rows that tie keep the order of `Object.keys(allTokens)` |
| `CurrencySelectModal.TokenListRow` | web/src/components/CurrencyInputPanel/index.js:522-540 | each row carries its token's name and symbol; without a balance record it has no balance and no USD value; with one, its USD value is null or equals the token's computed USD value |
| `CurrencySelectModal.EthSymbolRowsLead` | web/src/components/CurrencyInputPanel/index.js:499-504 | rows whose lower-cased symbol is "eth" come before all other rows |
| `CurrencySelectModal.FilteredIsSublist` | web/src/components/CurrencyInputPanel/index.js:543-555 | `filteredTokenList` is an order-preserving sublist of `tokenList` holding exactly its matching rows |
| `CurrencySelectModal.EmptyQueryListsAll` | web/src/components/CurrencyInputPanel/index.js:543-555 | with an empty search text the whole `tokenList` is shown |
| `CurrencySelectModal.SearchQuery` | web/src/components/CurrencyInputPanel/index.js:598-602 | the query is the checksummed address when `isAddress` accepts the input, and the raw input otherwise |
| `CurrencySelectModal.UsdLabel` | web/src/components/CurrencyInputPanel/index.js:587 | the USD cell is empty exactly when there is no value, "<$0.01" exactly when the value is below 0.01, and otherwise "$" followed by the formatted value |
| `CurrencySelectModal.ZeroValueShowsLessThanOneCent` | web/src/components/CurrencyInputPanel/index.js:587 | a zero USD value is shown as "<$0.01", not hidden |
| `CurrencyInputPanel.UnlockButton` | web/src/components/CurrencyInputPanel/index.js:322-350 | no control when unlocking is disabled or not shown or the selection is 'ETH' or empty; otherwise a pending control exactly when an approval is pending; otherwise an unlock whose click approves the exchange for the selected token with the maximum uint256 allowance |
| `CurrencyInputPanel.NoApprovalWhilePendingOrForEth` | web/src/components/CurrencyInputPanel/index.js:322-349 | no approval can be submitted while one is pending for the token, nor for ETH |
| `CurrencyInputPanel.TokenPicker.constructor` | web/src/components/CurrencyInputPanel/index.js:308 | a panel starts with the selector closed and an empty search text |
| `CurrencyInputPanel.TokenPicker.SetDisableTokenSelect` | web/src/components/CurrencyInputPanel/index.js:444-453 | a new `disableTokenSelect` prop keeps `modalIsOpen`; turning it on unmounts the modal and discards its search text, so a later re-enable shows the modal with an empty search |
| `CurrencyInputPanel.TokenPicker.HiddenListsAll` | web/src/components/CurrencyInputPanel/index.js:543-555 | whenever the search box is not on screen (selector closed or selection disabled) the search text is empty, so showing it lists every token |
| `CurrencyInputPanel.TokenPicker.OpenSelector` | web/src/components/CurrencyInputPanel/index.js:370-374 | a click opens the selector unless token selection is disabled, and leaves the search text alone |
| `CurrencyInputPanel.TokenPicker.Input` | web/src/components/CurrencyInputPanel/index.js:598-602 | typing sets the search text to the checksummed address or the raw input |
| `CurrencyInputPanel.TokenPicker.SelectToken` | web/src/components/CurrencyInputPanel/index.js:557-561 | choosing a token clears the search text, reports that token's address and closes the selector |
| `CurrencyInputPanel.TokenPicker.ClearInputAndDismiss` | web/src/components/CurrencyInputPanel/index.js:604-607 | dismissing clears the search text and closes the selector |

## Left out

- The approval transaction: gas estimation, the gas margin `GAS_MARGIN`, `calculateGasMargin`, the `approve` call and `addTransaction` (index.js:28, 329-341) are wallet and network I/O. The model records only what a click would submit, as `ApprovalRequest`.
- `formatEthBalance`, `formatTokenBalance`, `formatToUsd` and `isAddress` are imported and are not part of this model. They are parameters, and nothing is assumed about their results.
- The data hooks `useUSDPrice`, `useAllTokenDetails`, `useTokenDetails`, `usePendingApproval` and `useWeb3Context` are not modelled. Their results are inputs. The lookup that `useTokenDetails(searchQuery)` starts (index.js:463) is not modelled.
- The rounding of BigNumber's `div` (index.js:483) is not modelled. The quotient is exact.
- An `ethRate` of Infinity is not modelled. A rate is missing, NaN or a finite decimal.
- The balance cell (index.js:579-585) is not modelled. Its `balance > 0` test converts a formatted string to a floating-point number.
- `toLowerCase`, the regular expression's `i` flag and the string `<` are modelled on ASCII case and on Dafny characters. Non-ASCII case folding is not modelled. UTF-16 ordering of characters outside the Basic Multilingual Plane is not modelled either.
- `Object.keys` lists integer-like keys before the others. Token keys are addresses and 'ETH', so the model takes insertion order.
- An undefined `allBalances` behaves exactly like an empty map, and is modelled as one.
- Token names and symbols are modelled as strings. A non-string name would be skipped by the search, and a non-string symbol would make the comparator throw.
- Rendering, styling, the modal, tooltips, logos, `useMemo` and the translated labels are not modelled, and neither is the selected-token label (index.js:379).
- CurrencyInputPanel.TokenPicker.Input: requires the modal to be mounted and open, because the search box is rendered only there.
