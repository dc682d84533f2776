/**
  Browser and HTTP values shared by the API wrappers and the components: a JavaScript
  `Error`, a picked `File`, and the way every API wrapper turns a non-ok response into
  the `Error` it throws.
*/
module Web {
  import opened Wrappers
  import Text

  /** A JavaScript `Error`, identified by its message. */
  datatype Error = Error(message: string)

  /** A `File` as the components see it: its name and its size in bytes. */
  datatype File = File(name: string, size: nat)

  /**
    The body of a non-ok response as `await response.json()` reads it:
    - parsed JSON that is not `null`, with an optional string `message` field (a number, a
      string or an object without the field all read as no message; a non-string truthy
      `message` is not represented);
    - the JSON literal `null`, on which reading `error.message` throws a `TypeError`
      whose text the JavaScript engine chooses, given here as `typeError`;
    - a body that is not JSON, in which case the parser's own error is what gets thrown.
  */
  datatype ErrorBody =
    | JsonBody(message: Option<string>)
    | NullBody(typeError: Error)
    | Unparseable(parseError: Error)

  /**
    `throw new Error(error.message || fallback)` after reading the body of a non-ok
    response: the backend's message when it is present and non-empty, otherwise the
    wrapper's fixed fallback text; a `null` body throws the `TypeError` of reading its
    `message`, and a body that does not parse throws the parse error.
  */
  function ErrorFor(body: ErrorBody, fallback: string): (e: Error)
    ensures body.Unparseable? ==> e == body.parseError
    ensures body.NullBody? ==> e == body.typeError
    ensures body.JsonBody? && Text.Truthy(body.message) ==> e.message == body.message.value
    ensures body.JsonBody? && !Text.Truthy(body.message) ==> e.message == fallback
  {
    match body
    case Unparseable(parseError) => parseError
    case NullBody(typeError) => typeError
    case JsonBody(message) => Error(Text.OrElse(message, fallback))
  }

  /**
    A parsed error body always yields a non-empty message when the fallback is
    non-empty: the user is never shown an empty error.
  */
  lemma ParsedErrorHasMessage(message: Option<string>, fallback: string)
    requires fallback != ""
    ensures ErrorFor(JsonBody(message), fallback).message != ""
  {
  }
}
