/** Value wrappers shared by every part of the model: optional values, the outcome of a
    remote call (the Keystone, Trove and Neutron clients are oracles here), the outcome of
    a view method, and the dynamically typed values that Python dictionaries hold. */
module Wrappers {

  /** Python's None, or an absent dictionary key or attribute, is `None`. */
  datatype Option<+T> = None | Some(value: T)

  /** What a remote client call did: it returned a value or it raised. */
  datatype Remote<+T> = Returned(value: T) | Failed

  /** How a view method ends: with a value, with a redirect raised by
      `exceptions.handle(..., redirect=...)`, or with an exception the view does not catch. */
  datatype Outcome<+T> = Done(value: T) | Redirected | Raised

  /** The Python values that form data and workflow contexts carry. */
  datatype Value = Null | Bool(b: bool) | Int(i: int) | Str(s: string) | List(items: seq<Value>)

  /** Python truthiness of an optional string: present and non-empty. */
  predicate Truthy(o: Option<string>)
  {
    o.Some? && o.value != ""
  }
}
