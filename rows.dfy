/** The display rows of the token list: the `map` that turns each ranked key into
    `{name, symbol, address, balance, usdBalance}`. */
module Rows {
  import opened JsValues
  import opened Tokens

  /** `usdBalance` of a row: left undefined, the `null` of an unpriced token, or a BigNumber. */
  datatype UsdCell = Unset | NoPrice | Usd(value: real)

  datatype Row = Row(name: string, symbol: string, address: string, balance: JsValue, usdBalance: UsdCell)

  /** The imported `formatEthBalance` and `formatTokenBalance`, whose bodies are not
      part of this model: whatever they return becomes the row's `balance`. */
  datatype Formatters = Formatters(
    ethBalance: Option<nat> -> JsValue,
    tokenBalance: (Option<nat>, nat) -> JsValue)

  /** The key under which `allTokens` and `allBalances` keep ETH itself. */
  const EthKey: string := "ETH"

  /** `usdAmounts[k]` as the row stores it. */
  function UsdCellOf(usd: map<string, Option<real>>, k: string): (c: UsdCell)
    ensures c.Unset? <==> k !in usd
    ensures c.NoPrice? <==> k in usd && usd[k].None?
    ensures c.Usd? <==> k in usd && usd[k].Some?
    ensures c.Usd? ==> c.value == usd[k].value
  {
    if k !in usd then Unset
    else match usd[k]
      case None => NoPrice
      case Some(v) => Usd(v)
  }

  function BuildRow(tokens: map<string, Token>, balances: map<string, Balance>,
                    usd: map<string, Option<real>>, fmt: Formatters, k: string): Row
    requires k in tokens
  {
    var t := tokens[k];
    if k == EthKey && k in balances then
      Row(t.name, t.symbol, k, fmt.ethBalance(balances[k].balance), UsdCellOf(usd, k))
    else if k in balances then
      Row(t.name, t.symbol, k, fmt.tokenBalance(balances[k].balance, t.decimals), UsdCellOf(usd, k))
    else
      Row(t.name, t.symbol, k, Undefined, Unset)
  }

  /** Each row copies name, symbol and key; balance and USD value are filled exactly
      when a balance record exists, with ETH's balance formatted by the ETH formatter. */
  lemma BuildRowSpec(tokens: map<string, Token>, balances: map<string, Balance>,
                     usd: map<string, Option<real>>, fmt: Formatters, k: string)
    requires k in tokens
    ensures var r := BuildRow(tokens, balances, usd, fmt, k);
      && r.name == tokens[k].name && r.symbol == tokens[k].symbol && r.address == k
      && (k !in balances ==> r.balance == Undefined && r.usdBalance == Unset)
      && (k in balances ==> r.usdBalance == UsdCellOf(usd, k))
      && (k in balances && k == EthKey ==> r.balance == fmt.ethBalance(balances[k].balance))
      && (k in balances && k != EthKey ==> r.balance == fmt.tokenBalance(balances[k].balance, tokens[k].decimals))
  {
  }

  /** The rows of a list of keys, one per key, in the same order. */
  function BuildRows(tokens: map<string, Token>, balances: map<string, Balance>,
                     usd: map<string, Option<real>>, fmt: Formatters, keys: seq<string>): (r: seq<Row>)
    requires forall i :: 0 <= i < |keys| ==> keys[i] in tokens
    ensures |r| == |keys|
    ensures forall i :: 0 <= i < |keys| ==> r[i] == BuildRow(tokens, balances, usd, fmt, keys[i])
  {
    seq(|keys|, i requires 0 <= i < |keys| => BuildRow(tokens, balances, usd, fmt, keys[i]))
  }

  function Addresses(rows: seq<Row>): (r: seq<string>)
    ensures |r| == |rows|
    ensures forall i :: 0 <= i < |rows| ==> r[i] == rows[i].address
  {
    seq(|rows|, i requires 0 <= i < |rows| => rows[i].address)
  }

  /** Building rows keeps the keys: the addresses read back the key list. */
  lemma AddressesOfRows(tokens: map<string, Token>, balances: map<string, Balance>,
                        usd: map<string, Option<real>>, fmt: Formatters, keys: seq<string>)
    requires forall i :: 0 <= i < |keys| ==> keys[i] in tokens
    ensures Addresses(BuildRows(tokens, balances, usd, fmt, keys)) == keys
  {
    var rows := BuildRows(tokens, balances, usd, fmt, keys);
    forall i | 0 <= i < |keys| ensures Addresses(rows)[i] == keys[i] {
      BuildRowSpec(tokens, balances, usd, fmt, keys[i]);
    }
  }
}
