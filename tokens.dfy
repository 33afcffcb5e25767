/** The picker's inputs and the USD value of each token's balance
    (the `_usdAmounts` list and the `usdAmounts` lookup of `CurrencySelectModal`).
    BigNumber quantities are exact `real`s here, so the quotient by `10^decimals`
    is exact rather than rounded. */
module Tokens {
  import opened JsValues

  /** What the token registry knows about one token. */
  datatype Token = Token(name: string, symbol: string, decimals: nat)

  /** A BigNumber.js exchange rate to ETH: missing, not-a-number, or a decimal. */
  datatype EthRate = NoRate | NaN | Rate(value: real)

  /** One entry of `allBalances`: a raw balance (an ethers BigNumber, truthy even when
      zero, so present whenever it is defined) and a rate to ETH. */
  datatype Balance = Balance(balance: Option<nat>, ethRate: EthRate)

  /** The `allTokens` object: its keys in insertion order, and what each maps to. */
  datatype TokenTable = TokenTable(keys: seq<string>, details: map<string, Token>) {
    predicate Valid() {
      Distinct(keys) && details.Keys == set k | k in keys
    }
  }

  function Pow10(n: nat): (r: nat)
    ensures r > 0
  {
    if n == 0 then 1 else 10 * Pow10(n - 1)
  }

  /** The USD value of the balance of token `key`, or None (the source's `null`)
      when the price, the balance record, a usable rate or the balance is missing. */
  function UsdValue(ethPrice: Option<real>, balances: map<string, Balance>, key: string, decimals: nat): (r: Option<real>)
    ensures r.Some? <==>
      ethPrice.Some? && key in balances && balances[key].ethRate.Rate? && balances[key].balance.Some?
    ensures r.Some? ==>
      r.value * (Pow10(decimals) as real)
        == (balances[key].balance.value as real) * (ethPrice.value * balances[key].ethRate.value)
  {
    if ethPrice.Some? && key in balances && balances[key].ethRate.Rate? && balances[key].balance.Some? then
      var usdRate := ethPrice.value * balances[key].ethRate.value;
      Some((balances[key].balance.value as real) * usdRate / (Pow10(decimals) as real))
    else
      None
  }

  /** Without a USD price for ETH no token has a USD value. */
  lemma NoPriceNoValue(balances: map<string, Balance>, key: string, decimals: nat)
    ensures UsdValue(None, balances, key, decimals) == None
  {
  }

  /** A zero balance with a price and a rate is valued at zero, not left unpriced. */
  lemma ZeroBalanceIsPriced(price: real, rate: real, balances: map<string, Balance>, key: string, decimals: nat)
    requires key in balances && balances[key] == Balance(Some(0), Rate(rate))
    ensures UsdValue(Some(price), balances, key, decimals) == Some(0.0)
  {
    var d := Pow10(decimals) as real;
    assert (0 as real) * (price * rate) == 0.0;
    assert 0.0 / d == 0.0;
  }

  /** With a non-negative price and rate the value is never negative. */
  lemma UsdValueNonNegative(price: real, balances: map<string, Balance>, key: string, decimals: nat)
    requires price >= 0.0
    requires key in balances && balances[key].ethRate.Rate? && balances[key].ethRate.value >= 0.0
    requires balances[key].balance.Some?
    ensures UsdValue(Some(price), balances, key, decimals).Some?
    ensures UsdValue(Some(price), balances, key, decimals).value >= 0.0
  {
    var b := balances[key].balance.value as real;
    var rate := balances[key].ethRate.value;
    assert b * (price * rate) >= 0.0;
  }

  /** The USD value of the token under `key` of the table. */
  function UsdOf(table: TokenTable, balances: map<string, Balance>, ethPrice: Option<real>, key: string): Option<real>
    requires key in table.details
  {
    UsdValue(ethPrice, balances, key, table.details[key].decimals)
  }

  /** `_usdAmounts`: one value per key, in key order. */
  function UsdList(table: TokenTable, balances: map<string, Balance>, ethPrice: Option<real>): (r: seq<Option<real>>)
    requires table.Valid()
    ensures |r| == |table.keys|
    ensures forall i :: 0 <= i < |r| ==> r[i] == UsdOf(table, balances, ethPrice, table.keys[i])
  {
    seq(|table.keys|, i requires 0 <= i < |table.keys| => UsdOf(table, balances, ethPrice, table.keys[i]))
  }

  /** The `reduce` that turns the list into a lookup: each step is
      `Object.assign({[key]: value}, accumulator)`, so what is already in the
      accumulator wins over the new pair. */
  function Reduce(keys: seq<string>, values: seq<Option<real>>): map<string, Option<real>>
    requires |keys| == |values|
    decreases |keys|
  {
    if |keys| == 0 then map[]
    else
      var n := |keys| - 1;
      map[keys[n] := values[n]] + Reduce(keys[..n], values[..n])
  }

  /** The lookup has exactly the keys of the list. */
  lemma {:induction false} ReduceKeys(keys: seq<string>, values: seq<Option<real>>)
    requires |keys| == |values|
    ensures forall k :: k in Reduce(keys, values) <==> k in keys
    decreases |keys|
  {
    if |keys| > 0 {
      var n := |keys| - 1;
      ReduceKeys(keys[..n], values[..n]);
      assert keys == keys[..n] + [keys[n]];
    }
  }

  /** The first occurrence of a key wins: the lookup maps the i-th key to the i-th
      value when that key does not occur earlier. */
  lemma {:induction false} ReduceFirstWins(keys: seq<string>, values: seq<Option<real>>, i: int)
    requires |keys| == |values| && 0 <= i < |keys|
    requires forall j :: 0 <= j < i ==> keys[j] != keys[i]
    ensures keys[i] in Reduce(keys, values) && Reduce(keys, values)[keys[i]] == values[i]
    decreases |keys|
  {
    var n := |keys| - 1;
    var init, initValues := keys[..n], values[..n];
    if i < n {
      assert keys[i] == init[i] && values[i] == initValues[i];
      ReduceFirstWins(init, initValues, i);
    } else {
      ReduceKeys(init, initValues);
      assert keys[n] !in init by {
        forall j | 0 <= j < n ensures init[j] != keys[n] {
          assert init[j] == keys[j];
        }
      }
    }
  }

  /** `usdAmounts`: every key of the table, mapped to its USD value. */
  function UsdAmounts(table: TokenTable, balances: map<string, Balance>, ethPrice: Option<real>): (r: map<string, Option<real>>)
    requires table.Valid()
    ensures forall k :: k in r <==> k in table.keys
    ensures forall k :: k in r ==> r[k] == UsdOf(table, balances, ethPrice, k)
  {
    var values := UsdList(table, balances, ethPrice);
    var r := Reduce(table.keys, values);
    ReduceKeys(table.keys, values);
    assert forall k :: k in r ==> r[k] == UsdOf(table, balances, ethPrice, k) by {
      forall k | k in r ensures r[k] == UsdOf(table, balances, ethPrice, k) {
        var i :| 0 <= i < |table.keys| && table.keys[i] == k;
        ReduceFirstWins(table.keys, values, i);
      }
    }
    r
  }
}
