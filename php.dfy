/** The few pieces of PHP's value semantics that the handlers rely on. */
module Php {

  /** A PHP value that may be null. */
  datatype Option<+T> = None | Some(value: T)

  /** The request body ($_POST): field name to submitted string. */
  type Form = map<string, string>

  /** PHP's truthiness of a string: everything except "" and "0" is true. */
  predicate Truthy(s: string) {
    s != "" && s != "0"
  }

  /** Truthiness of a value that may be null: null is false. */
  predicate TruthyOption(v: Option<string>) {
    v.Some? && Truthy(v.value)
  }

  /** PHP's `empty($post[key])`: the field is missing, "" or "0". */
  predicate IsEmpty(post: Form, key: string) {
    key !in post || !Truthy(post[key])
  }

  /** `$m[key] ?? null`. */
  function Lookup(m: map<string, string>, key: string): (r: Option<string>)
    ensures r.Some? <==> key in m
    ensures r.Some? ==> r.value == m[key]
  {
    if key in m then Some(m[key]) else None
  }
}
