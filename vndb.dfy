/** The request-building layer of the VNDB (Kana API v2) query tool: the
    client's base URL, how `_make_request` assembles URL, headers and body,
    the payload each command posts, and how the generic `query` command
    turns its filter argument into a VNDB filter. */
module Vndb {

  import opened Common
  import Strings
  import Dicts

  const ApiBaseUrl := "https://api.vndb.org/kana"
  const DefaultTimeout := 30

  /** A configured client: the base URL without trailing slashes and the
      timeout in seconds handed to the transport. */
  datatype Client = Client(baseUrl: string, timeout: int)

  /** `VNDBClient(base_url, timeout)`: every trailing '/' of the base URL is
      dropped, nothing else. */
  function NewClient(baseUrl: string := ApiBaseUrl, timeout: int := DefaultTimeout): (c: Client)
    ensures c.timeout == timeout
    ensures c.baseUrl <= baseUrl
    ensures c.baseUrl == [] || c.baseUrl[|c.baseUrl| - 1] != '/'
    ensures forall i :: |c.baseUrl| <= i < |baseUrl| ==> baseUrl[i] == '/'
  {
    Client(Strings.RStrip(baseUrl, {'/'}), timeout)
  }

  /** The two headers every request carries. */
  const JsonHeaders: seq<(string, string)> :=
    [("Accept", "application/json"), ("Content-Type", "application/json")]

  /** `_make_request(endpoint, method, data, params)`, up to the call into
      the transport. The query pairs are the params when they are truthy;
      `Target` gives the URL string the source builds with `urlencode`. */
  function MakeRequest(
    c: Client,
    endpoint: string,
    verb: string := "GET",
    data: Option<JsonDict> := None,
    params: Option<seq<(string, string)>> := None
  ): (r: Request)
    ensures r.verb == verb
    ensures r.url == c.baseUrl + "/" + endpoint
    ensures Truthy(params) ==> r.query == params.value
    ensures !Truthy(params) ==> r.query == []
    ensures r.headers == JsonHeaders
    ensures r.body.Some? <==> verb == "POST" && Truthy(data)
    ensures r.body.Some? ==> r.body.value == JObj(data.value)
  {
    var query := if Truthy(params) then params.value else [];
    var body := if Truthy(data) && verb == "POST" then Some(JObj(data.value)) else None;
    Request(verb, c.baseUrl + "/" + endpoint, query, JsonHeaders, body)
  }

  /** The URL the request goes to: the base URL, '/', the endpoint, and a
      '?' with the encoded params exactly when the params are neither `None`
      nor empty. */
  lemma {:induction false} RequestTarget(
    c: Client, endpoint: string, verb: string, data: Option<JsonDict>,
    params: Option<seq<(string, string)>>, urlencode: seq<(string, string)> -> string)
    ensures Truthy(params) ==>
      Target(MakeRequest(c, endpoint, verb, data, params), urlencode)
        == c.baseUrl + "/" + endpoint + "?" + urlencode(params.value)
    ensures !Truthy(params) ==>
      Target(MakeRequest(c, endpoint, verb, data, params), urlencode) == c.baseUrl + "/" + endpoint
  {
  }

  /** `get(endpoint, params)`. */
  function Get(c: Client, endpoint: string, params: Option<seq<(string, string)>> := None): (r: Request)
    ensures r.verb == "GET" && r.body == None
    ensures r.url == c.baseUrl + "/" + endpoint
    ensures r.headers == JsonHeaders
    ensures r.query == if Truthy(params) then params.value else []
  {
    MakeRequest(c, endpoint, "GET", None, params)
  }

  /** `post(endpoint, data)`: the payload travels as the body, never as a
      query, and only when it is not empty. */
  function Post(c: Client, endpoint: string, data: JsonDict): (r: Request)
    ensures r.verb == "POST" && r.query == []
    ensures r.url == c.baseUrl + "/" + endpoint
    ensures r.headers == JsonHeaders
    ensures r.body == if data == [] then None else Some(JObj(data))
  {
    MakeRequest(c, endpoint, "POST", Some(data), None)
  }

  // Default field lists of the commands.
  const CharacterFields := "name,original,image.url,description,vns.title"
  const VnSearchFields := "title,alttitle,image.url,rating,released,developers.name"
  const VnByIdFields := "title,alttitle,image.url,rating,description,released,developers.name"
  const LatestFields := "title,alttitle,released,developers.name,rating,votecount"
  const UserFields := "lengthvotes,lengthvotes_sum"

  /** A VNDB filter `[name, op, value]` on string operands. */
  function Filter(name: string, op: string, value: string): Json
  {
    JArr([JStr(name), JStr(op), JStr(value)])
  }

  /** The payload of `search_character` and `search_vn`. */
  function SearchPayload(keyword: string, fields: string, results: int): (p: JsonDict)
    ensures Dicts.Keys(p) == ["filters", "fields", "results"]
    ensures Dicts.Get(p, "filters") == Some(Filter("search", "=", keyword))
    ensures Dicts.Get(p, "fields") == Some(JStr(fields))
    ensures Dicts.Get(p, "results") == Some(JInt(results))
  {
    [("filters", Filter("search", "=", keyword)), ("fields", JStr(fields)), ("results", JInt(results))]
  }

  /** `search_character(keyword, fields, results)`. */
  function SearchCharacter(c: Client, keyword: string, fields: string := CharacterFields, results: int := 20): (r: Request)
    ensures r.verb == "POST" && r.query == []
    ensures r.url == c.baseUrl + "/" + "character"
    ensures r.headers == JsonHeaders
    ensures r.body == Some(JObj(SearchPayload(keyword, fields, results)))
  {
    Post(c, "character", SearchPayload(keyword, fields, results))
  }

  /** `search_vn(keyword, fields, results)`. */
  function SearchVn(c: Client, keyword: string, fields: string := VnSearchFields, results: int := 10): (r: Request)
    ensures r.verb == "POST" && r.query == []
    ensures r.url == c.baseUrl + "/" + "vn"
    ensures r.headers == JsonHeaders
    ensures r.body == Some(JObj(SearchPayload(keyword, fields, results)))
  {
    Post(c, "vn", SearchPayload(keyword, fields, results))
  }

  /** `get_vn_by_id(vn_id, fields)`: the payload has no result count. */
  function GetVnById(c: Client, vnId: string, fields: string := VnByIdFields): (r: Request)
    ensures r.verb == "POST" && r.query == []
    ensures r.url == c.baseUrl + "/" + "vn"
    ensures r.headers == JsonHeaders
    ensures r.body.Some? && r.body.value.JObj?
    ensures Dicts.Keys(r.body.value.members) == ["filters", "fields"]
    ensures Dicts.Get(r.body.value.members, "filters") == Some(Filter("id", "=", vnId))
    ensures Dicts.Get(r.body.value.members, "fields") == Some(JStr(fields))
  {
    Post(c, "vn", [("filters", Filter("id", "=", vnId)), ("fields", JStr(fields))])
  }

  /** The payload of `get_latest_vn`: releases from 2024-01-01 on, sorted
      by release date, newest first. */
  function LatestPayload(fields: string, results: int): (p: JsonDict)
    ensures Dicts.Keys(p) == ["filters", "fields", "sort", "reverse", "results"]
    ensures p[0].1 == Filter("released", ">=", "2024-01-01")
    ensures p[1].1 == JStr(fields)
    ensures p[2].1 == JStr("released")
    ensures p[3].1 == JBool(true)
    ensures p[4].1 == JInt(results)
  {
    [("filters", Filter("released", ">=", "2024-01-01")),
     ("fields", JStr(fields)),
     ("sort", JStr("released")),
     ("reverse", JBool(true)),
     ("results", JInt(results))]
  }

  /** `get_latest_vn(results, fields)`. */
  function GetLatestVn(c: Client, results: int := 5, fields: string := LatestFields): (r: Request)
    ensures r.verb == "POST" && r.query == []
    ensures r.url == c.baseUrl + "/" + "vn"
    ensures r.headers == JsonHeaders
    ensures r.body == Some(JObj(LatestPayload(fields, results)))
  {
    Post(c, "vn", LatestPayload(fields, results))
  }

  /** `get_stats()`: a bare GET. */
  function GetStats(c: Client): (r: Request)
    ensures r.verb == "GET" && r.query == [] && r.body == None
    ensures r.url == c.baseUrl + "/" + "stats"
    ensures r.headers == JsonHeaders
  {
    Get(c, "stats")
  }

  /** `get_user(username, fields)`: a GET whose query is `q` then `fields`. */
  function GetUser(c: Client, username: string, fields: string := UserFields): (r: Request)
    ensures r.verb == "GET" && r.body == None
    ensures r.url == c.baseUrl + "/" + "user"
    ensures r.headers == JsonHeaders
    ensures r.query == [("q", username), ("fields", fields)]
  {
    Get(c, "user", Some([("q", username), ("fields", fields)]))
  }

  /** `get_schema()`: a bare GET. */
  function GetSchema(c: Client): (r: Request)
    ensures r.verb == "GET" && r.query == [] && r.body == None
    ensures r.url == c.baseUrl + "/" + "schema"
    ensures r.headers == JsonHeaders
  {
    Get(c, "schema")
  }

  /** Why `query_endpoint` stops before any request is made. */
  datatype FilterError =
    | InvalidJson(filters: string)  // contains '[' but `json.loads` rejects it
    | InvalidFormat                 // neither '[' nor ':'

  /** The filter argument of `query_endpoint`. A '[' anywhere selects JSON,
      which `loads` (the library's `json.loads`, `None` where it raises)
      decides alone; otherwise a ':' is required, and the text is cut at the
      first ':' into a trimmed key and a trimmed value compared with "=". */
  function ParseFilter(filters: string, loads: string -> Option<Json>): (r: Result<Json, FilterError>)
    ensures '[' in filters ==> (r.Ok? <==> loads(filters).Some?)
    ensures '[' in filters && r.Ok? ==> r.value == loads(filters).value
    ensures '[' in filters && r.Err? ==> r.error == InvalidJson(filters)
    ensures '[' !in filters ==> (r.Ok? <==> ':' in filters)
    ensures '[' !in filters && ':' !in filters ==> r == Err(InvalidFormat)
    ensures '[' !in filters && r.Ok? ==>
      r.value.JArr? && |r.value.items| == 3 && r.value.items[1] == JStr("=")
  {
    if '[' in filters then
      match loads(filters)
      case None => Err(InvalidJson(filters))
      case Some(j) => Ok(j)
    else if ':' !in filters then
      Err(InvalidFormat)
    else
      var parts := Strings.SplitOnce(filters, ':');
      Ok(Filter(Strings.Strip(parts[0]), "=", Strings.Strip(parts[1])))
  }

  /** Every key:value filter is cut at the key's end: the key is the text
      before the first ':', and any later ':' stays in the value. */
  lemma {:induction false} KeyValueFilter(key: string, val: string, loads: string -> Option<Json>)
    requires ':' !in key && '[' !in key && '[' !in val
    ensures ParseFilter(key + ":" + val, loads) == Ok(Filter(Strings.Strip(key), "=", Strings.Strip(val)))
  {
    var filters := key + ":" + val;
    assert filters == key + [':'] + val;
    assert filters[|key|] == ':';
    assert '[' !in filters by {
      forall i | 0 <= i < |filters| ensures filters[i] != '[' {
        if i < |key| {
          assert filters[i] == key[i];
        } else if i > |key| {
          assert filters[i] == val[i - |key| - 1];
        }
      }
    }
    Strings.SplitOnceAt(key, ':', val);
  }

  /** Round trip: a trimmed key without ':' or '[' and a trimmed value
      without '[' come back as the filter `[key, "=", val]`. */
  lemma {:induction false} FilterRoundTrip(key: string, val: string, loads: string -> Option<Json>)
    requires ':' !in key && '[' !in key && '[' !in val
    requires Strings.Strip(key) == key && Strings.Strip(val) == val
    ensures ParseFilter(key + ":" + val, loads) == Ok(Filter(key, "=", val))
  {
    KeyValueFilter(key, val, loads);
  }

  /** The payload of `query_endpoint`. */
  function QueryPayload(filter: Json, fields: string, sort: string, results: int): (p: JsonDict)
    ensures Dicts.Keys(p) == ["filters", "fields", "sort", "results"]
    ensures Dicts.Get(p, "filters") == Some(filter)
    ensures Dicts.Get(p, "fields") == Some(JStr(fields))
    ensures Dicts.Get(p, "sort") == Some(JStr(sort))
    ensures Dicts.Get(p, "results") == Some(JInt(results))
  {
    var p := [("filters", filter), ("fields", JStr(fields)), ("sort", JStr(sort)), ("results", JInt(results))];
    assert p[1..][1..][1..] == [("results", JInt(results))];
    p
  }

  /** `query_endpoint(endpoint, filters, fields, sort, results)`: no request
      when the filter is rejected, otherwise a POST of the query payload. */
  function QueryEndpoint(
    loads: string -> Option<Json>,
    c: Client,
    endpoint: string,
    filters: string,
    fields: string,
    sort: string := "id",
    results: int := 10
  ): (r: Result<Request, FilterError>)
    ensures r.Err? <==> ParseFilter(filters, loads).Err?
    ensures r.Err? ==> r.error == ParseFilter(filters, loads).error
    ensures r.Ok? ==> r.value.verb == "POST" && r.value.query == []
    ensures r.Ok? ==> r.value.url == c.baseUrl + "/" + endpoint
    ensures r.Ok? ==> r.value.headers == JsonHeaders
    ensures r.Ok? ==> r.value.body == Some(JObj(QueryPayload(ParseFilter(filters, loads).value, fields, sort, results)))
  {
    match ParseFilter(filters, loads)
    case Err(e) => Err(e)
    case Ok(filter) => Ok(Post(c, endpoint, QueryPayload(filter, fields, sort, results)))
  }

  /** With the default sort and count, a trimmed key:value filter posts
      exactly `{"filters": [key, "=", val], "fields": fields, "sort": "id",
      "results": 10}` to the endpoint. */
  lemma {:induction false} QueryKeyValueDefaults(
    loads: string -> Option<Json>, c: Client, endpoint: string, key: string, val: string, fields: string)
    requires ':' !in key && '[' !in key && '[' !in val
    requires Strings.Strip(key) == key && Strings.Strip(val) == val
    ensures QueryEndpoint(loads, c, endpoint, key + ":" + val, fields)
      == Ok(Post(c, endpoint, [
           ("filters", Filter(key, "=", val)), ("fields", JStr(fields)),
           ("sort", JStr("id")), ("results", JInt(10))]))
  {
    FilterRoundTrip(key, val, loads);
  }
}
