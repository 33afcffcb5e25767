/** The few JavaScript value notions the token picker's logic depends on. */
module JsValues {

  /** A value that may be missing: `undefined`/`null` versus a present value. */
  datatype Option<+T> = None | Some(value: T)

  /** A row field as JavaScript sees it when the search filter asks `typeof v === 'string'`:
      undefined, null, a string, or any other object (a BigNumber, say). */
  datatype JsValue = Undefined | Null | Str(s: string) | Object

  /** True when the sequence holds no element twice (the keys of a JavaScript object). */
  predicate Distinct<T(==)>(s: seq<T>) {
    forall i, j :: 0 <= i < j < |s| ==> s[i] != s[j]
  }
}
