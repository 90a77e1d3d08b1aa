/** Shared vocabulary of the shop backend: optional values, HTTP replies,
    schema validation errors, request-field truthiness and sequence filtering. */
module Common {

  datatype Option<T> = None | Some(value: T)

  /** Document ids (MongoDB ObjectIds) are opaque strings compared by value. */
  type UserId = string
  type ProductId = string
  type OrderId = string

  /** Milliseconds since the epoch, as `Date.now()` yields them. */
  type Millis = int

  /** What a handler sends back: a status code with a JSON body, or an error
      status with the `message` of its JSON body. */
  datatype Reply<T> = Success(status: int, body: T) | Failure(status: int, message: string)

  const OK := 200
  const CREATED := 201
  const BAD_REQUEST := 400
  const UNAUTHORIZED := 401
  const FORBIDDEN := 403
  const NOT_FOUND := 404
  const SERVER_ERROR := 500

  /** One failed schema validator, named by the path it guards. */
  datatype FieldError =
    | Required(path: string)
    | TooLong(path: string, maxLength: int)
    | BelowMin(path: string, min: int)
    | AboveMax(path: string, max: int)
    | NotInEnum(path: string, value: string)

  /** The outcome of building a document from request fields. */
  datatype Checked<T> = Accepted(value: T) | Rejected(errors: seq<FieldError>)

  /** JavaScript truthiness of optional JSON fields: a missing field is falsy,
      a string is truthy when non-empty, a number when non-zero, an array always. */
  predicate TruthyString(v: Option<string>) { v.Some? && v.value != "" }
  predicate TruthyNumber(v: Option<real>) { v.Some? && v.value != 0.0 }

  /** `supplied || current` on a string field. */
  function OrString(supplied: Option<string>, current: string): (r: string)
    ensures TruthyString(supplied) ==> r == supplied.value
    ensures !TruthyString(supplied) ==> r == current
    ensures r == "" ==> current == ""
  {
    if TruthyString(supplied) then supplied.value else current
  }

  /** `supplied || current` on a number field. */
  function OrNumber(supplied: Option<real>, current: real): (r: real)
    ensures TruthyNumber(supplied) ==> r == supplied.value
    ensures !TruthyNumber(supplied) ==> r == current
    ensures r == 0.0 ==> current == 0.0
  {
    if TruthyNumber(supplied) then supplied.value else current
  }

  /** `supplied || current` on an array field: any supplied array wins, even an empty one. */
  function OrArray<T>(supplied: Option<seq<T>>, current: seq<T>): (r: seq<T>)
    ensures supplied.Some? ==> r == supplied.value
    ensures supplied.None? ==> r == current
  {
    if supplied.Some? then supplied.value else current
  }

  /** `Array.prototype.filter`: the elements that `keep` accepts, in their original order. */
  function Filter<T(!new)>(s: seq<T>, keep: T -> bool): (r: seq<T>)
    ensures |r| <= |s|
    ensures forall x :: x in r <==> x in s && keep(x)
  {
    if s == [] then []
    else (if keep(s[0]) then [s[0]] else []) + Filter(s[1..], keep)
  }

  /** Filtering a sequence extended at its end filters the prefix and then the last element. */
  lemma {:induction false} FilterAppend<T(!new)>(s: seq<T>, x: T, keep: T -> bool)
    ensures Filter(s + [x], keep) == Filter(s, keep) + (if keep(x) then [x] else [])
  {
    if s == [] {
      assert s + [x] == [x];
    } else {
      assert (s + [x])[1..] == s[1..] + [x];
      FilterAppend(s[1..], x, keep);
    }
  }

  /** A filter keeps every element when it accepts them all. */
  lemma {:induction false} FilterKeepsAll<T(!new)>(s: seq<T>, keep: T -> bool)
    requires forall x :: x in s ==> keep(x)
    ensures Filter(s, keep) == s
  {
    if s != [] {
      assert s == [s[0]] + s[1..];
      FilterKeepsAll(s[1..], keep);
    }
  }

  /** A filter keeps nothing when it accepts no element. */
  lemma {:induction false} FilterRejectsAll<T(!new)>(s: seq<T>, keep: T -> bool)
    requires forall x :: x in s ==> !keep(x)
    ensures Filter(s, keep) == []
  {
    if s != [] {
      assert s[0] in s;
      assert forall x :: x in s[1..] ==> x in s;
      FilterRejectsAll(s[1..], keep);
    }
  }

  /** Filtering twice by the same predicate is filtering once. */
  lemma FilterIdempotent<T(!new)>(s: seq<T>, keep: T -> bool)
    ensures Filter(Filter(s, keep), keep) == Filter(s, keep)
  {
    FilterKeepsAll(Filter(s, keep), keep);
  }
}
