/**
  The ContactSubmission record as it travels between the contact form and the
  `/api/contact` endpoint: six named fields of a JSON object.
 */
module Submission {

  /** The six keys of the record, in the order both schemas declare them. */
  datatype FieldName = FirstName | LastName | Email | Company | Service | Message

  /** The schemas' key order; zod reports issues in this order. */
  const Shape: seq<FieldName> := [FirstName, LastName, Email, Company, Service, Message]

  /** The position of a key in the schemas' key order. */
  function Position(f: FieldName): (i: nat)
    ensures i < |Shape| && Shape[i] == f
  {
    match f
    case FirstName => 0
    case LastName => 1
    case Email => 2
    case Company => 3
    case Service => 4
    case Message => 5
  }

  /**
    What one key of the request body holds: nothing (the key is absent or
    `undefined`), a string, or some other JSON value (null, a number, a
    boolean, an array or an object).
   */
  datatype Value = Missing | Text(s: string) | NonString

  /** A request body: a JSON object with (possibly absent) fields, or any other JSON value. */
  datatype Body =
    | Fields(firstName: Value, lastName: Value, email: Value,
             company: Value, service: Value, message: Value)
    | NonObject
  {
    /** The value stored under key `f`. */
    function Get(f: FieldName): Value
      requires Fields?
    {
      match f
      case FirstName => firstName
      case LastName => lastName
      case Email => email
      case Company => company
      case Service => service
      case Message => message
    }
  }
}
