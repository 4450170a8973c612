/** Values shared by every module: the optional and failable results the
    services return, and the JSON values they pass through without looking inside. */
module Common {

  datatype Option<+T> = None | Some(value: T)

  /** The outcome of an operation that may throw: `Failure` carries the error message. */
  datatype Result<+T, +E> = Success(value: T) | Failure(error: E)

  /** A JSON value as the controllers receive it in a request body or from the
      language-model service. */
  datatype Json =
    | JNull
    | JBool(b: bool)
    | JNum(n: real)
    | JStr(s: string)
    | JArr(items: seq<Json>)
    | JObj(fields: map<string, Json>)

  /** JavaScript truthiness of a JSON value (`x || d` picks `d` exactly when `x`
      is not truthy). NaN is not a JSON value and is not modelled. */
  predicate Truthy(j: Json) {
    match j
    case JNull => false
    case JBool(b) => b
    case JNum(n) => n != 0.0
    case JStr(s) => s != ""
    case _ => true
  }

  /** `value || fallback` for an optional string field: absent and "" are falsy. */
  function StringOr(value: Option<string>, fallback: string): (r: string)
    ensures value.Some? && value.value != "" ==> r == value.value
    ensures value.None? || value.value == "" ==> r == fallback
  {
    if value.Some? && value.value != "" then value.value else fallback
  }

  /** The loop step of an accumulation: moving the next element `d` of what is
      still to come from the front of `whole` to the end of `acc`. Stated
      generically so that the elements' own definitions stay out of the proof. */
  lemma PushStep<T>(acc: seq<T>, d: T, rest: seq<T>, whole: seq<T>, total: seq<T>)
    requires whole == [d] + rest && acc + whole == total
    ensures (acc + [d]) + rest == total
  {
    assert (acc + [d]) + rest == acc + ([d] + rest);
  }
}
