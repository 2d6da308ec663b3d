/** The slice of HTTP the switch protocol uses: status codes, method names,
    form values, and the two sides' views of one exchange. Wire bytes, URL
    encoding and JSON are not modelled; a form travels as its parsed values
    and a response body as the result of decoding it. */
module Http {
  import opened Wrappers

  const MethodGet: string := "GET"
  const MethodPost: string := "POST"

  const StatusOK: int := 200
  const StatusBadRequest: int := 400
  const StatusNotFound: int := 404
  const StatusMethodNotAllowed: int := 405
  const StatusInternalServerError: int := 500

  /** Parsed form fields, as `url.Values`: every key maps to its values in order. */
  type Values = map<string, seq<string>>

  /** The first value recorded under `key`, or the empty string when there is none,
      as `url.Values.Get` and `Request.FormValue` return it. */
  function FormValue(form: Values, key: string): string
  {
    if key in form && |form[key]| > 0 then form[key][0] else ""
  }

  /** `url.Values.Set`: replaces every value of `key` by the single `value`. */
  function SetValue(form: Values, key: string, value: string): (r: Values)
    ensures key in r && r[key] == [value]
    ensures FormValue(r, key) == value
    ensures r.Keys == form.Keys + {key}
    ensures forall k :: k in form && k != key ==> r[k] == form[k]
    ensures forall k :: k != key ==> FormValue(r, k) == FormValue(form, k)
  {
    form[key := [value]]
  }

  /** What a client hands to its HTTP transport. */
  datatype Call =
    | PostForm(url: string, form: Values)
    | Get(url: string)

  /** What a client gets back: a transport failure, or a status together with
      the outcome of decoding the body as a JSON object of booleans (None when
      the body is not such an object, an empty body included). */
  datatype Reply =
    | TransportError(cause: string)
    | Reply(status: int, decoded: Option<map<string, bool>>)

  /** An HTTP client performing one exchange. */
  type Transport = Call -> Reply

  /** The errors the clients return (wrapped with pkg/errors in the source). */
  datatype ClientError =
    | TransportFailed(doing: string, cause: string)  // "error doing <doing> request"
    | UnexpectedStatus(code: int)                     // "unexpected response status code <code>"
    | DecodeFailed                                    // "error decoding monitors response body"

  /** How a client must report the reply to a toggle request for `action`:
      success exactly on status 200; a transport failure is returned with its
      cause and the action's name, and no status is looked at; any other
      status is returned with its code. */
  ghost predicate ToggleReported(reply: Reply, action: string, r: Outcome<ClientError>)
  {
    && (r.Pass? <==> reply.Reply? && reply.status == StatusOK)
    && (reply.TransportError? ==> r == Fail(TransportFailed(action, reply.cause)))
    && (reply.Reply? && reply.status != StatusOK ==> r == Fail(UnexpectedStatus(reply.status)))
  }

  /** How a client must report the reply to a listing request: a transport
      failure or a status other than 200 is an error whatever the body holds;
      after a 200 the result is exactly the decoded body, or a decode error
      when the body is not a JSON object of booleans. */
  ghost predicate ListingReported(reply: Reply, r: Result<map<string, bool>, ClientError>)
  {
    && (reply.TransportError? ==> r == Failure(TransportFailed("monitors", reply.cause)))
    && (reply.Reply? && reply.status != StatusOK ==> r == Failure(UnexpectedStatus(reply.status)))
    && (reply.Reply? && reply.status == StatusOK && reply.decoded.None? ==> r == Failure(DecodeFailed))
    && (r.Success? <==> reply.Reply? && reply.status == StatusOK && reply.decoded.Some?)
    && (r.Success? ==> r.value == reply.decoded.value)
  }
}
