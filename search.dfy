/** The search filter: `filteredTokenList` keeps the rows some string-valued field
    of which contains the query, literally and ignoring ASCII case. */
module Search {
  import opened JsValues
  import opened Text
  import opened Rows

  /** How `usdBalance` looks to `typeof`: never a string. */
  function UsdAsJs(c: UsdCell): (v: JsValue)
    ensures !v.Str?
  {
    match c
    case Unset => Undefined
    case NoPrice => Null
    case Usd(_) => Object
  }

  /** `Object.keys(tokenEntry)` mapped to the values: the fields in declaration order. */
  function RowFields(row: Row): seq<JsValue> {
    [Str(row.name), Str(row.symbol), Str(row.address), row.balance, UsdAsJs(row.usdBalance)]
  }

  /** `typeof v === 'string' && !!v.match(new RegExp(escapeStringRegex(query), 'i'))` */
  predicate FieldMatches(v: JsValue, query: string) {
    v.Str? && ContainsIgnoreCase(v.s, query)
  }

  /** `regexMatches.some(m => m)` */
  predicate RowMatches(row: Row, query: string) {
    exists i :: 0 <= i < |RowFields(row)| && FieldMatches(RowFields(row)[i], query)
  }

  /** Only the name, the symbol, the address and a string balance are searched. */
  lemma RowMatchesIff(row: Row, query: string)
    ensures RowMatches(row, query) <==>
      || ContainsIgnoreCase(row.name, query)
      || ContainsIgnoreCase(row.symbol, query)
      || ContainsIgnoreCase(row.address, query)
      || (row.balance.Str? && ContainsIgnoreCase(row.balance.s, query))
  {
    var f := RowFields(row);
    if ContainsIgnoreCase(row.name, query) { assert FieldMatches(f[0], query); }
    if ContainsIgnoreCase(row.symbol, query) { assert FieldMatches(f[1], query); }
    if ContainsIgnoreCase(row.address, query) { assert FieldMatches(f[2], query); }
    if row.balance.Str? && ContainsIgnoreCase(row.balance.s, query) { assert FieldMatches(f[3], query); }
  }

  /** The empty query matches every row, since the address is always a string. */
  lemma EmptyQueryMatches(row: Row)
    ensures RowMatches(row, "")
  {
    EmptyOccurs(Lower(row.address));
    assert FieldMatches(RowFields(row)[2], "");
  }

  /** `a` can be obtained from `b` by deleting elements. */
  predicate IsSubsequence<T(==)>(a: seq<T>, b: seq<T>)
    decreases |b|
  {
    if |a| == 0 then true
    else if |b| == 0 then false
    else if a[0] == b[0] then IsSubsequence(a[1..], b[1..])
    else IsSubsequence(a, b[1..])
  }

  /** `tokenList.filter(...)` */
  function FilterRows(rows: seq<Row>, query: string): (r: seq<Row>)
    ensures IsSubsequence(r, rows)
    ensures forall row :: row in r <==> row in rows && RowMatches(row, query)
    ensures forall row :: multiset(r)[row] == if RowMatches(row, query) then multiset(rows)[row] else 0
  {
    if |rows| == 0 then []
    else
      var rest := FilterRows(rows[1..], query);
      assert rows == [rows[0]] + rows[1..];
      if RowMatches(rows[0], query) then [rows[0]] + rest else rest
  }

  lemma {:induction false} EmptyQueryKeepsAll(rows: seq<Row>)
    ensures FilterRows(rows, "") == rows
  {
    if |rows| > 0 {
      EmptyQueryMatches(rows[0]);
      EmptyQueryKeepsAll(rows[1..]);
      assert rows == [rows[0]] + rows[1..];
    }
  }

  /** Filtering twice by the same query changes nothing more. */
  lemma {:induction false} FilterIdempotent(rows: seq<Row>, query: string)
    ensures FilterRows(FilterRows(rows, query), query) == FilterRows(rows, query)
  {
    if |rows| > 0 {
      FilterIdempotent(rows[1..], query);
      var rest := FilterRows(rows[1..], query);
      if RowMatches(rows[0], query) {
        assert ([rows[0]] + rest)[0] == rows[0];
        assert ([rows[0]] + rest)[1..] == rest;
      }
    }
  }
}
