/** Values shared by the three REST clients: optional values, results, the
    JSON values the clients put into request bodies, and the description of
    one HTTP request as the clients build it before handing it to the
    transport. */
module Common {

  datatype Option<+T> = None | Some(value: T)

  datatype Result<+T, +E> = Ok(value: T) | Err(error: E)

  /** A JSON value. Numbers with a fraction or an exponent are `JReal`;
      the rounding to binary floating point is not modelled. Objects keep
      their members in insertion order, as a Python dict does, so `JObj`
      holds a sequence of (name, value) pairs. */
  datatype Json =
    | JNull
    | JBool(b: bool)
    | JInt(i: int)
    | JReal(num: real)
    | JStr(s: string)
    | JArr(items: seq<Json>)
    | JObj(members: seq<(string, Json)>)

  /** A Python dict of JSON-serialisable values, in insertion order. */
  type JsonDict = seq<(string, Json)>


  /** Python truthiness of an optional dict: `None` and `{}` are false. */
  predicate Truthy<V>(d: Option<seq<V>>)
  {
    d.Some? && d.value != []
  }

  /** Python truthiness of an optional string: `None` and `""` are false. */
  predicate TruthyStr(s: Option<string>)
  {
    s.Some? && s.value != ""
  }

  /** Python's `a or b` on two optional strings. */
  function OrElse(a: Option<string>, b: Option<string>): (r: Option<string>)
    ensures TruthyStr(a) ==> r == a
    ensures !TruthyStr(a) ==> r == b
  {
    if TruthyStr(a) then a else b
  }

  /** One HTTP request as a client describes it: the method (verb), the full URL,
      the query pairs the transport appends to the URL (in order), the
      headers the client sets (in order) and the JSON body, if any, that is
      serialised with `json.dumps` and sent as UTF-8. */
  datatype Request = Request(
    verb: string,
    url: string,
    query: seq<(string, string)>,
    headers: seq<(string, string)>,
    body: Option<Json>)

  /** The URL the transport asks for: `url`, followed by "?" and the
      encoded query pairs when there are any. `urlencode` stands for the
      library's encoder, whose definition is not part of this model. */
  function Target(r: Request, urlencode: seq<(string, string)> -> string): string
  {
    if r.query == [] then r.url else r.url + "?" + urlencode(r.query)
  }

  /** How a command-line entry point starts: it exits with a status before
      any client exists, or it goes on with a constructed client. */
  datatype Start<+C> = Exit(status: int) | Run(client: C)
}
