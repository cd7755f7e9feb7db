/** The request-building layer of the Bangumi API v0 example client: token
    check, the headers and body of `_make_request`, the hand-built query
    string of `_get`, the bodies and params of the two calls with optional
    parts, and how `main` picks the token. */
module Bangumi {

  import opened Common
  import Strings
  import Dicts

  const BaseUrl := "https://api.bgm.tv"
  const UserAgent := "Bangumi-API-Example/1.0"

  /** A client holds the access token it was built with. */
  datatype Client = Client(accessToken: string)

  /** The `ValueError` raised for a missing token. */
  datatype ConfigError = MissingToken

  /** `BangumiAPI(access_token)`: `None` and "" are refused, any other token
      is kept as given. */
  function NewClient(accessToken: Option<string>): (r: Result<Client, ConfigError>)
    ensures r.Err? <==> !TruthyStr(accessToken)
    ensures r.Err? ==> r.error == MissingToken
    ensures r.Ok? ==> r.value.accessToken == accessToken.value
  {
    if !TruthyStr(accessToken) then Err(MissingToken) else Ok(Client(accessToken.value))
  }

  /** The two headers that carry the client's identity: the bearer token
      and the user agent. */
  function Credentials(c: Client): seq<(string, string)>
  {
    [("Authorization", "Bearer " + c.accessToken), ("User-Agent", UserAgent)]
  }

  /** `_make_request(url, method, data)`, up to the call into the transport:
      bearer token and user agent first, then Content-Type for a POST or
      Accept for anything else; the data becomes the body whenever it is
      neither `None` nor empty, whatever the method. */
  function MakeRequest(c: Client, url: string, verb: string := "GET", data: Option<JsonDict> := None): (r: Request)
    ensures r.verb == verb && r.url == url && r.query == []
    ensures |r.headers| == 3
    ensures r.headers[0] == ("Authorization", "Bearer " + c.accessToken)
    ensures r.headers[1] == ("User-Agent", UserAgent)
    ensures r.headers[..2] == Credentials(c)
    ensures r.headers[2] == if verb == "POST" then ("Content-Type", "application/json") else ("Accept", "application/json")
    ensures "Content-Type" in Dicts.Keys(r.headers) <==> verb == "POST"
    ensures "Accept" in Dicts.Keys(r.headers) <==> verb != "POST"
    ensures r.body.Some? <==> Truthy(data)
    ensures r.body.Some? ==> r.body.value == JObj(data.value)
  {
    // Both branches assign a key the dict does not hold yet, which appends.
    var base := [("Authorization", "Bearer " + c.accessToken), ("User-Agent", UserAgent)];
    var headers :=
      if verb == "POST" then base + [("Content-Type", "application/json")]
      else base + [("Accept", "application/json")];
    assert Dicts.Keys(headers) == ["Authorization", "User-Agent", headers[2].0];
    var body := if Truthy(data) then Some(JObj(data.value)) else None;
    Request(verb, url, [], headers, body)
  }

  /** The "k=v" pieces of `_get`'s query: one per param whose value is not
      `None`, in insertion order, with nothing escaped. */
  function Pairs(params: seq<(string, Option<string>)>): (ps: seq<string>)
    ensures |ps| <= |params|
  {
    if params == [] then [] else Piece(params[0]) + Pairs(params[1..])
  }

  /** The piece one param contributes: "k=v", or nothing for `None`. */
  function Piece(p: (string, Option<string>)): (ps: seq<string>)
    ensures |ps| <= 1
  {
    match p.1
    case None => []
    case Some(v) => [p.0 + "=" + v]
  }

  /** The pieces of concatenated params are the concatenated pieces. */
  lemma {:induction false} PairsAppend(a: seq<(string, Option<string>)>, b: seq<(string, Option<string>)>)
    ensures Pairs(a + b) == Pairs(a) + Pairs(b)
  {
    if a == [] {
      assert a + b == b;
    } else {
      var head := Piece(a[0]);
      assert (a + b)[0] == a[0];
      assert (a + b)[1..] == a[1..] + b;
      PairsAppend(a[1..], b);
      assert head + (Pairs(a[1..]) + Pairs(b)) == (head + Pairs(a[1..])) + Pairs(b);
    }
  }

  /** Params whose values are all `None` contribute no piece. */
  lemma {:induction false} PairsAllNone(params: seq<(string, Option<string>)>)
    requires forall i :: 0 <= i < |params| ==> params[i].1 == None
    ensures Pairs(params) == []
  {
    if params != [] {
      PairsAllNone(params[1..]);
    }
  }

  /** A piece is exactly one param that has a value. */
  lemma {:induction false} PairsFrom(params: seq<(string, Option<string>)>, k: nat)
    requires k < |Pairs(params)|
    ensures exists i ::
      && 0 <= i < |params|
      && params[i].1.Some?
      && Pairs(params)[k] == params[i].0 + "=" + params[i].1.value
  {
    if params[0].1.Some? && k == 0 {
      assert params[0].1.Some? && Pairs(params)[0] == params[0].0 + "=" + params[0].1.value;
    } else {
      var j := if params[0].1.Some? then k - 1 else k;
      assert Pairs(params)[k] == Pairs(params[1..])[j];
      PairsFrom(params[1..], j);
      var i :| 0 <= i < |params| - 1 && params[1..][i].1.Some?
        && Pairs(params[1..])[j] == params[1..][i].0 + "=" + params[1..][i].1.value;
      assert params[1..][i] == params[i + 1];
    }
  }

  /** The query string of `_get`: the pieces joined with '&'. */
  function QueryString(params: seq<(string, Option<string>)>): (q: string)
    ensures Pairs(params) == [] ==> q == ""
    ensures |Pairs(params)| == 1 ==> q == Pairs(params)[0]
    ensures |Pairs(params)| > 1 ==> Pairs(params)[0] + "&" <= q
  {
    Strings.Join("&", Pairs(params))
  }

  /** The URL `_get` builds: the path after the base URL, and '?' with the
      query string when the params are neither `None` nor empty. */
  function GetUrl(path: string, params: Option<seq<(string, Option<string>)>>): (u: string)
    ensures BaseUrl + path <= u
    ensures !Truthy(params) ==> u == BaseUrl + path
    ensures Truthy(params) ==> u[|BaseUrl + path|..] == "?" + QueryString(params.value)
  {
    var url := BaseUrl + path;
    if Truthy(params) then url + "?" + QueryString(params.value) else url
  }

  /** Params whose values are all `None` still add the '?': the URL ends in
      a bare '?'. */
  lemma {:induction false} BareQuestionMark(path: string, params: seq<(string, Option<string>)>)
    requires params != []
    requires forall i :: 0 <= i < |params| ==> params[i].1 == None
    ensures GetUrl(path, Some(params)) == BaseUrl + path + "?"
  {
    PairsAllNone(params);
  }

  /** As nothing is escaped, a server that splits the query at '&' gets the
      pieces back only when no key and no value contains '&'. */
  lemma {:induction false} QuerySplitsBack(params: seq<(string, Option<string>)>)
    requires Pairs(params) != []
    requires forall i :: 0 <= i < |params| ==> '&' !in params[i].0
    requires forall i :: 0 <= i < |params| && params[i].1.Some? ==> '&' !in params[i].1.value
    ensures Strings.Split(QueryString(params), '&') == Pairs(params)
  {
    var ps := Pairs(params);
    forall k | 0 <= k < |ps| ensures '&' !in ps[k] {
      PairsFrom(params, k);
    }
    Strings.SplitJoin(ps, '&');
  }

  /** `_get(path, params)`: a GET of `GetUrl`, without a body. */
  function Get(c: Client, path: string, params: Option<seq<(string, Option<string>)>> := None): (r: Request)
    ensures r.verb == "GET" && r.url == GetUrl(path, params) && r.query == [] && r.body == None
    ensures r.headers == Credentials(c) + [("Accept", "application/json")]
  {
    MakeRequest(c, GetUrl(path, params))
  }

  /** `_post(path, data)`: a POST to the path, with the data as body when
      it is neither `None` nor empty. */
  function Post(c: Client, path: string, data: Option<JsonDict> := None): (r: Request)
    ensures r.verb == "POST" && r.url == BaseUrl + path && r.query == []
    ensures r.headers == Credentials(c) + [("Content-Type", "application/json")]
    ensures r.body == if Truthy(data) then Some(JObj(data.value)) else None
  {
    MakeRequest(c, BaseUrl + path, "POST", data)
  }

  /** The body of `search_subjects`: keyword, sort and limit always, then
      "filter" exactly when a non-empty filter is given. */
  function SearchSubjectsBody(keyword: string, sort: string, filter: Option<JsonDict>, limit: int): (b: JsonDict)
    ensures Dicts.Keys(b) == ["keyword", "sort", "limit"] + (if Truthy(filter) then ["filter"] else [])
    ensures b[0].1 == JStr(keyword) && b[1].1 == JStr(sort) && b[2].1 == JInt(limit)
    ensures Truthy(filter) ==> b[3].1 == JObj(filter.value)
  {
    var body := [("keyword", JStr(keyword)), ("sort", JStr(sort)), ("limit", JInt(limit))];
    // "filter" is a new key, so assigning it appends.
    if Truthy(filter) then body + [("filter", JObj(filter.value))] else body
  }

  /** `search_subjects(keyword, sort, filter, limit)`: the body is always
      sent, since it is never empty. */
  function SearchSubjects(
    c: Client, keyword: string, sort: string := "match", filter: Option<JsonDict> := None, limit: int := 10
  ): (r: Request)
    ensures r.verb == "POST" && r.url == BaseUrl + "/v0/search/subjects" && r.query == []
    ensures r.headers == Credentials(c) + [("Content-Type", "application/json")]
    ensures r.body == Some(JObj(SearchSubjectsBody(keyword, sort, filter, limit)))
  {
    Post(c, "/v0/search/subjects", Some(SearchSubjectsBody(keyword, sort, filter, limit)))
  }

  /** The params of `get_user_collections`: the limit always, then the
      status exactly when it is a non-empty string. */
  function CollectionParams(status: Option<string>, limit: int): (p: seq<(string, Option<string>)>)
    ensures Dicts.Keys(p) == ["limit"] + (if TruthyStr(status) then ["status"] else [])
    ensures p[0].1 == Some(Strings.IntToString(limit))
    ensures TruthyStr(status) ==> p[1].1 == status
  {
    var params := [("limit", Some(Strings.IntToString(limit)))];
    // "status" is a new key, so assigning it appends.
    if TruthyStr(status) then params + [("status", status)] else params
  }

  lemma {:induction false} PairsOne(k: string, v: string)
    ensures Pairs([(k, Some(v))]) == [k + "=" + v]
  {
    assert [(k, Some(v))][1..] == [];
  }

  /** Both params of `get_user_collections` present: two pieces joined. */
  lemma {:induction false} TwoPieces(n: string, v: string)
    ensures QueryString([("limit", Some(n)), ("status", Some(v))]) == "limit=" + n + "&status=" + v
  {
    var params := [("limit", Some(n)), ("status", Some(v))];
    assert params == [("limit", Some(n))] + [("status", Some(v))];
    PairsAppend([("limit", Some(n))], [("status", Some(v))]);
    PairsOne("limit", n);
    PairsOne("status", v);
    assert Pairs(params) == ["limit" + "=" + n, "status" + "=" + v];
    assert Strings.Join("&", Pairs(params)) == ("limit" + "=" + n) + "&" + ("status" + "=" + v);
  }

  /** The query string of `get_user_collections`: "limit=<limit>", then
      "&status=<status>" for a non-empty status. */
  lemma {:induction false} CollectionQuery(status: Option<string>, limit: int)
    ensures QueryString(CollectionParams(status, limit))
      == "limit=" + Strings.IntToString(limit) + (if TruthyStr(status) then "&status=" + status.value else "")
  {
    var params := CollectionParams(status, limit);
    var n := Strings.IntToString(limit);
    PairsOne("limit", n);
    assert params[0] == ("limit", Some(n));
    assert "limit" + "=" + n == "limit=" + n;
    if TruthyStr(status) {
      assert params == [("limit", Some(n)), ("status", status)];
      TwoPieces(n, status.value);
    } else {
      assert params == [("limit", Some(n))];
    }
  }

  /** `get_user_collections(username, status, limit)`: a GET whose URL
      carries the limit and, for a non-empty status, the status after it. */
  function GetUserCollections(c: Client, username: string, status: Option<string> := None, limit: int := 10): (r: Request)
    ensures r.verb == "GET" && r.query == [] && r.body == None
    ensures r.headers == Credentials(c) + [("Accept", "application/json")]
    ensures r.url == BaseUrl + ("/v0/users/" + username + "/collections") + "?"
      + ("limit=" + Strings.IntToString(limit) + (if TruthyStr(status) then "&status=" + status.value else ""))
  {
    CollectionQuery(status, limit);
    Get(c, "/v0/users/" + username + "/collections", Some(CollectionParams(status, limit)))
  }

  /** `main`'s start: the --token flag when it is non-empty, else BGM_TOKEN;
      with neither, exit with status 1 before any client is built. The
      client built from the chosen token never fails. */
  function Launch(tokenFlag: Option<string>, envToken: Option<string>): (r: Start<Client>)
    ensures r.Exit? <==> !TruthyStr(tokenFlag) && !TruthyStr(envToken)
    ensures r.Exit? ==> r.status == 1
    ensures r.Run? ==> r.client.accessToken == if TruthyStr(tokenFlag) then tokenFlag.value else envToken.value
  {
    var token := OrElse(tokenFlag, envToken);
    if !TruthyStr(token) then Exit(1) else Run(NewClient(token).value)
  }
}
