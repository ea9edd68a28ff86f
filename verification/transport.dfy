/** What a handler sees of the network: the JSON values the backend sends,
    the abstract outcome of one POST, and how `axios` and `fetch` turn that
    outcome into a resolved value or a thrown error. The HTTP exchange
    itself is not modelled; its outcome is a parameter. */
module Transport {
  import opened Optional
  import opened Multipart

  /** A parsed JSON value. Numbers are exact reals (no NaN, no rounding). */
  datatype Json =
    | JNull
    | JBool(b: bool)
    | JNum(n: real)
    | JStr(s: string)
    | JArr(items: seq<Json>)
    | JObj(fields: map<string, Json>)

  /** JavaScript truthiness of a JSON value: `null`, `false`, `0` and `""`
      are falsy; every array and object is truthy. */
  predicate Truthy(v: Json) {
    match v
    case JNull => false
    case JBool(b) => b
    case JNum(n) => n != 0.0
    case JStr(s) => s != ""
    case JArr(_) => true
    case JObj(_) => true
  }

  /** The object literal `{}`. */
  const EmptyObject: Json := JObj(map[])

  /** `v || d` where `v` may be `undefined` (`None`). */
  function OrElse(v: Option<Json>, d: Json): (r: Json)
    ensures v.Some? && Truthy(v.value) ==> r == v.value
    ensures !(v.Some? && Truthy(v.value)) ==> r == d
    ensures Truthy(d) ==> Truthy(r)
  {
    if v.Some? && Truthy(v.value) then v.value else d
  }

  /** `obj?.key`: only objects have own properties; on `null`, a string,
      a number, a boolean or an array the lookup is `undefined`. */
  function Property(v: Option<Json>, key: string): (r: Option<Json>)
    ensures r.Some? <==> v.Some? && v.value.JObj? && key in v.value.fields
    ensures r.Some? ==> r.value == v.value.fields[key]
  {
    match v
    case Some(JObj(fields)) => if key in fields then Some(fields[key]) else None
    case _ => None
  }

  /** The raw body of an HTTP response: JSON text, or text that does not
      parse as JSON (an empty body included). */
  datatype Body = JsonBody(value: Json) | TextBody(text: string)

  /** The outcome of one POST: a 2xx response, a response with any other
      status, or no response at all (connection failure, timeout). */
  datatype Outcome = Success(body: Body) | ServerError(body: Body) | NetworkError

  /** One outbound request: the path after the configured base URL and the
      multipart body. */
  datatype Request = Request(endpoint: string, payload: Payload)

  /** `response.data` under axios's default response transform: parsed JSON,
      or the raw text when it does not parse. */
  function AxiosData(b: Body): (r: Json)
    ensures b.JsonBody? ==> r == b.value
    ensures b.TextBody? ==> r == JStr(b.text)
  {
    match b
    case JsonBody(v) => v
    case TextBody(t) => JStr(t)
  }

  /** How `await axios.post(...)` settles: it resolves with `data` on a 2xx
      status and throws otherwise; the thrown error carries `response` only
      when a response arrived. */
  datatype AxiosSettled = Resolved(data: Json) | Thrown(response: Option<Json>)

  function Axios(o: Outcome): (r: AxiosSettled)
    ensures r.Resolved? <==> o.Success?
    ensures r.Resolved? ==> r.data == AxiosData(o.body)
    ensures r.Thrown? ==> (r.response.Some? <==> o.ServerError?)
    ensures r.Thrown? && o.ServerError? ==> r.response == Some(AxiosData(o.body))
  {
    match o
    case Success(b) => Resolved(AxiosData(b))
    case ServerError(b) => Thrown(Some(AxiosData(b)))
    case NetworkError => Thrown(None)
  }

  /** `error.response?.data?.error` for an error thrown by axios. */
  function ServerErrorField(response: Option<Json>): (r: Option<Json>)
    ensures r.Some? <==> response.Some? && response.value.JObj? && "error" in response.value.fields
    ensures r.Some? ==> r.value == response.value.fields["error"]
  {
    Property(response, "error")
  }

  /** `await (await fetch(...)).json()`: fetch resolves on every response,
      whatever its status, and `json()` throws when the body is not JSON;
      `None` is "an exception reached the catch block". */
  function FetchJson(o: Outcome): (r: Option<Json>)
    ensures r.Some? <==> !o.NetworkError? && o.body.JsonBody?
    ensures r.Some? ==> r.value == o.body.value
  {
    match o
    case NetworkError => None
    case Success(b) => if b.JsonBody? then Some(b.value) else None
    case ServerError(b) => if b.JsonBody? then Some(b.value) else None
  }
}
