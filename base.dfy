/** Identifiers, optional values and the error taxonomy shared by every handler. */
module Base {

  /** A document id. The store hands ids out in increasing order, so id order is creation order. */
  type Id = nat

  datatype Option<T> = None | Some(value: T)

  /** What a handler's `throw new Error(...)` amounts to. */
  datatype Error =
    | NotFound          // a referenced document or actor is absent
    | PermissionDenied  // the actor's role or identity does not allow the action
    | InvalidArgument   // out-of-range rating, too many images, wrong review target
    | InvalidState      // already answered request, last admin leaving, duplicate friendship
    | NotUnique         // a `.unique()` lookup met more than one document
    | Unauthenticated   // no identity or no session e-mail
    | TypeError         // the handler calls something the query object does not provide

  /** The outcome of a handler that returns `true` on success. */
  datatype Outcome = Pass | Fail(error: Error)

  /** The outcome of a handler that returns a value on success. */
  datatype Result<T> = Ok(value: T) | Err(error: Error)

  /** JavaScript truthiness of an optional string: present and not "". */
  predicate Given(s: Option<string>)
  {
    s.Some? && s.value != ""
  }

  function Digit(d: nat): (c: char)
    requires d < 10
  {
    ('0' as int + d) as char
  }

  function DigitValue(c: char): nat
  {
    if '0' <= c <= '9' then c as int - '0' as int else 0
  }

  /** The decimal rendering of an id, as `${id}` produces it in a template string. */
  function IdText(id: Id): (s: string)
    ensures s != []
    ensures forall i :: 0 <= i < |s| ==> '0' <= s[i] <= '9'
  {
    if id < 10 then [Digit(id)] else IdText(id / 10) + [Digit(id % 10)]
  }

  /** Reads a string of decimal digits back as a number. */
  function DecimalValue(s: string): nat
  {
    if s == [] then 0 else DecimalValue(s[..|s| - 1]) * 10 + DigitValue(s[|s| - 1])
  }

  /** Rendering an id and reading it back gives the id: distinct ids render differently. */
  lemma {:induction false} IdTextRoundTrip(id: Id)
    ensures DecimalValue(IdText(id)) == id
  {
    if id >= 10 {
      IdTextRoundTrip(id / 10);
      var s := IdText(id / 10) + [Digit(id % 10)];
      assert s[..|s| - 1] == IdText(id / 10);
    }
  }

  lemma IdTextInjective(a: Id, b: Id)
    requires IdText(a) == IdText(b)
    ensures a == b
  {
    IdTextRoundTrip(a);
    IdTextRoundTrip(b);
  }
}
