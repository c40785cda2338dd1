/**
 * The little of JavaScript value semantics that the handlers depend on:
 * truthiness of request fields and the `x || default` idiom.
 */
module Js {
  import opened Wrappers

  /** A JSON request value as the handlers see it (NaN and fractions are not modelled). */
  datatype Value = Undefined | Null | Bool(b: bool) | Num(n: int) | Str(s: string)

  /** JavaScript truthiness of a request value. */
  predicate Truthy(v: Value) {
    match v
    case Undefined => false
    case Null => false
    case Bool(b) => b
    case Num(n) => n != 0
    case Str(s) => s != ""
  }

  /** `v ? 1 : 0`, the way flags are stored in the tables. */
  function AsFlag(v: Value): (f: int)
    ensures f == 0 || f == 1
    ensures f == 1 <==> Truthy(v)
  {
    if Truthy(v) then 1 else 0
  }

  /** A text field is present when it is neither absent/null nor the empty string. */
  predicate Present(o: Option<string>) {
    o.Some? && o.value != ""
  }

  /** An id field is present when it is neither absent/null nor the number 0. */
  predicate IdPresent(o: Option<int>) {
    o.Some? && o.value != 0
  }

  /**
   * A request field handed to the database driver as it stands: absent
   * from the body (`undefined`), JSON `null`, or a value. The driver
   * accepts `null` as SQL NULL but refuses `undefined`.
   */
  datatype Field<T> = Absent | JsonNull | Given(value: T) {
    /** The SQL value the field binds to; an absent field cannot be bound. */
    function Bound(): (r: Option<T>)
      requires !Absent?
      ensures r.None? <==> JsonNull?
      ensures Given? ==> r.value == value
    {
      if Given? then Some(value) else None
    }
  }

  /** `o || fallback` on a text field. */
  function OrElse(o: Option<string>, fallback: string): (r: string)
    ensures Present(o) ==> r == o.value
    ensures !Present(o) ==> r == fallback
  {
    if Present(o) then o.value else fallback
  }

  /** `o || null` on a text field: the empty string becomes null. */
  function OrNull(o: Option<string>): (r: Option<string>)
    ensures r.None? <==> !Present(o)
    ensures r.Some? ==> r == o
  {
    if Present(o) then o else None
  }
}
