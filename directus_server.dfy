/** The server-side CMS client: how a failed response becomes the message
    of the error it throws, and what an ok response yields. The request
    itself (URL, headers, fetch) is not modelled; a response is its status,
    its error body and its content. */
module Directus {
  import opened Common

  /** What `response.json()` makes of an error response: not JSON at all,
      or a JSON body whose `errors[0].message` is present or absent. */
  datatype ErrorBody = Unparsable | ErrorJson(firstMessage: Option<string>)

  const INVALID_LOGIN := "Invalid email " + "or password"
  const NO_PERMISSION := "You don't have " + "permission to access " + "this resource"
  const NOT_FOUND := "The requested " + "resource was not found"
  const TOO_MANY := "Too many requests, " + "please try again later"
  const SERVER_ERROR := "Server error, " + "please try again later"
  const GENERIC_ERROR := "An error occurred"

  /** The status chain both error paths share: 401, 403, 404, 429 and any
      status from 500 up have a fixed message; other statuses have none. */
  function StatusMessage(status: int): (m: Option<string>)
    ensures m.None? <==> status != 401 && status != 403 && status != 404 && status != 429 && status < 500
    ensures status == 401 ==> m == Some(INVALID_LOGIN)
    ensures status == 403 ==> m == Some(NO_PERMISSION)
    ensures status == 404 ==> m == Some(NOT_FOUND)
    ensures status == 429 ==> m == Some(TOO_MANY)
    ensures status >= 500 ==> m == Some(SERVER_ERROR)
  {
    if status == 401 then Some(INVALID_LOGIN)
    else if status == 403 then Some(NO_PERMISSION)
    else if status == 404 then Some(NOT_FOUND)
    else if status == 429 then Some(TOO_MANY)
    else if status >= 500 then Some(SERVER_ERROR)
    else None
  }

  /** A CMS message counts only when present and non-empty (`!errorMessage`). */
  predicate HasCmsMessage(body: ErrorBody) {
    body.ErrorJson? && body.firstMessage.Some? && body.firstMessage.value != ""
  }

  /** The message `directusRequest` throws for a non-ok response, AS
      WRITTEN: the error thrown inside the inner `try` is caught by its own
      `catch`, which rebuilds the message from the status alone. */
  function RequestErrorAsWritten(status: int, body: ErrorBody): (m: string)
    ensures StatusMessage(status).Some? ==> m == StatusMessage(status).value
    ensures StatusMessage(status).None? ==> m == GENERIC_ERROR
  {
    // Inner `try`: the message the code means to throw.
    var thrown := if HasCmsMessage(body) then body.firstMessage.value
                  else if StatusMessage(status).Some? then StatusMessage(status).value
                  else "Request failed (" + IntToString(status) + ")";
    // The inner `catch` receives `thrown` (or the JSON parse error) and
    // ignores it.
    if StatusMessage(status).Some? then StatusMessage(status).value else GENERIC_ERROR
  }

  /** The message the inner `try` evidently meant to throw: the CMS's own
      message when there is one, else the status message, else
      "Request failed (n)"; an unparsable body falls back to the `catch`. */
  function RequestErrorIntended(status: int, body: ErrorBody): (m: string)
    ensures HasCmsMessage(body) ==> m == body.firstMessage.value
    ensures body.ErrorJson? && !HasCmsMessage(body) && StatusMessage(status).None? ==>
              m == "Request failed (" + IntToString(status) + ")"
    ensures !HasCmsMessage(body) && StatusMessage(status).Some? ==> m == StatusMessage(status).value
    ensures body.Unparsable? ==> m == RequestErrorAsWritten(status, body)
  {
    match body
    case Unparsable =>
      if StatusMessage(status).Some? then StatusMessage(status).value else GENERIC_ERROR
    case ErrorJson(msg) =>
      if HasCmsMessage(body) then msg.value
      else if StatusMessage(status).Some? then StatusMessage(status).value
      else "Request failed (" + IntToString(status) + ")"
  }

  /** As written, the body never matters, no CMS message escapes unless it
      happens to equal the status message, and "Request failed (n)" never
      escapes at all. */
  lemma {:induction false} AsWrittenDropsCmsMessage(status: int, body: ErrorBody)
    ensures RequestErrorAsWritten(status, body) == RequestErrorAsWritten(status, Unparsable)
    ensures RequestErrorAsWritten(status, body) !=
            "Request failed (" + IntToString(status) + ")"
    ensures RequestErrorAsWritten(400, ErrorJson(Some("Invalid payload"))) == GENERIC_ERROR
    ensures RequestErrorIntended(400, ErrorJson(Some("Invalid payload"))) == "Invalid payload"
  {
    var m := RequestErrorAsWritten(status, body);
    var r := "Request failed (" + IntToString(status) + ")";
    assert r[0] == 'R';
    assert m[0] != 'R' by {
      assert INVALID_LOGIN[0] == 'I' && NO_PERMISSION[0] == 'Y' && NOT_FOUND[0] == 'T';
      assert TOO_MANY[0] == 'T' && SERVER_ERROR[0] == 'S' && GENERIC_ERROR[0] == 'A';
    }
  }

  /** The intended path: a 400 without a CMS message reports its status. */
  lemma {:induction false} IntendedReportsStatus()
    ensures RequestErrorIntended(400, ErrorJson(None)) == "Request failed (400)"
    ensures RequestErrorAsWritten(400, ErrorJson(None)) == GENERIC_ERROR
  {
    assert NatToString(4) == "4";
    assert NatToString(40) == "40";
    assert NatToString(400) == "400";
  }

  /** The message `uploadFile` throws for a non-ok response, AS WRITTEN:
      the same nesting sends every failure to the `catch`. */
  function UploadErrorAsWritten(status: int, body: ErrorBody): (m: string)
    ensures StartsWith(m, "File upload failed with status ")
    ensures m[|"File upload failed with status "|..] == IntToString(status)
  {
    var thrown := if HasCmsMessage(body) then body.firstMessage.value
                  else "Directus request failed with status " + IntToString(status);
    "File upload failed with status " + IntToString(status)
  }

  /** The upload message evidently intended: the CMS's message, else
      "Directus request failed with status n"; an unparsable body falls
      back to the `catch`. */
  function UploadErrorIntended(status: int, body: ErrorBody): (m: string)
    ensures HasCmsMessage(body) ==> m == body.firstMessage.value
    ensures body.ErrorJson? && !HasCmsMessage(body) ==>
              m == "Directus request failed with status " + IntToString(status)
    ensures body.Unparsable? ==> m == UploadErrorAsWritten(status, body)
  {
    match body
    case Unparsable => "File upload failed with status " + IntToString(status)
    case ErrorJson(msg) =>
      if HasCmsMessage(body) then msg.value
      else "Directus request failed with status " + IntToString(status)
  }

  /** As written, a CMS upload message is replaced; intended, it is kept. */
  lemma {:induction false} UploadDropsCmsMessage(status: int, msg: string)
    requires msg != "" && !StartsWith(msg, "File upload failed")
    ensures UploadErrorAsWritten(status, ErrorJson(Some(msg))) != msg
    ensures UploadErrorIntended(status, ErrorJson(Some(msg))) == msg
  {
    var m := UploadErrorAsWritten(status, ErrorJson(Some(msg)));
    assert m[..|"File upload failed"|] == "File upload failed";
  }

  /** What an ok response yields: its parsed JSON text, or the empty object. */
  datatype OkPayload = EmptyObject | JsonText(text: string)

  /** An ok response: JSON content with a non-empty body is parsed; an
      empty body, a missing content type or any non-JSON type gives `{}`.
      A JSON text that fails to parse is not modelled. */
  function OkBody(contentType: Option<string>, text: string): (r: OkPayload)
    ensures r == EmptyObject <==>
              contentType.None? || !Contains(contentType.value, "application/json") || text == ""
    ensures r.JsonText? ==> r.text == text
  {
    if contentType.Some? && Contains(contentType.value, "application/json") && text != ""
    then JsonText(text)
    else EmptyObject
  }

  /** A 204 reply (no content type, no body) and a JSON reply with an empty
      body both yield `{}`, as does a JSON body under a text content type. */
  lemma {:induction false} EmptyRepliesGiveEmptyObject(text: string)
    ensures OkBody(None, text) == EmptyObject
    ensures OkBody(Some("application/json; charset=utf-8"), "") == EmptyObject
    ensures OkBody(Some("text/plain"), text) == EmptyObject
    ensures text != "" ==> OkBody(Some("application/json"), text) == JsonText(text)
  {
    ContainsAt("application/json", "application/json", 0);
    NotContainsMissingChar("text/plain", "application/json", 12);
  }
}
