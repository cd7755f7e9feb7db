/** The request-building layer of the Steam Web API example client: key
    check, the `/{interface}/{method}/{version}/` URL and the key-first
    query of `_make_request`, the fixed endpoint of each wrapper, and how
    `main` picks the key. Every request is a GET whose query the transport
    encodes. */
module Steam {

  import opened Common
  import Strings
  import Dicts

  const BaseUrl := "https://api.steampowered.com"

  /** A client holds the API key it was built with. */
  datatype Client = Client(apiKey: string)

  /** The `ValueError` raised for a missing key. */
  datatype ConfigError = MissingKey

  /** `SteamAPI(api_key)`: `None` and "" are refused, any other key is kept
      as given. */
  function NewClient(apiKey: Option<string>): (r: Result<Client, ConfigError>)
    ensures r.Err? <==> !TruthyStr(apiKey)
    ensures r.Err? ==> r.error == MissingKey
    ensures r.Ok? ==> r.value.apiKey == apiKey.value
  {
    if !TruthyStr(apiKey) then Err(MissingKey) else Ok(Client(apiKey.value))
  }

  /** The URL `/{interface}/{method}/{version}/` under the base URL. */
  function EndpointUrl(interface: string, apiMethod: string, version: string): (u: string)
    ensures BaseUrl + "/" <= u
    ensures u[|u| - 1] == '/'
  {
    BaseUrl + "/" + interface + "/" + apiMethod + "/" + version + "/"
  }

  /** `_make_request(interface, method, version, params)`, up to the call
      into the transport: a GET of `/{interface}/{method}/{version}/` whose
      query starts from {"key": api_key} and is updated with the caller's
      params when they are neither `None` nor empty. */
  function MakeRequest(
    c: Client,
    interface: string,
    apiMethod: string,
    version: string := "v1",
    params: Option<seq<(string, string)>> := None
  ): (r: Request)
    ensures r.verb == "GET" && r.headers == [] && r.body == None
    ensures r.url == EndpointUrl(interface, apiMethod, version)
    ensures Dicts.DistinctKeys(r.query)
    ensures r.query != [] && r.query[0].0 == "key"
    ensures !Truthy(params) ==> r.query == [("key", c.apiKey)]
    ensures Truthy(params) ==>
      forall k :: k in Dicts.Keys(r.query) <==> k == "key" || k in Dicts.Keys(params.value)
  {
    var start := [("key", c.apiKey)];
    var query := if Truthy(params) then Dicts.Update(start, params.value) else start;
    assert Dicts.Keys(start) == ["key"];
    Request("GET", EndpointUrl(interface, apiMethod, version), query, [], None)
  }

  /** The caller's params are merged over the key: each of them is sent
      with its own value, and a caller "key" replaces the client's key. */
  lemma {:induction false} CallerParamsWin(c: Client, interface: string, apiMethod: string, version: string, params: seq<(string, string)>)
    requires Dicts.DistinctKeys(params)
    ensures var q := MakeRequest(c, interface, apiMethod, version, Some(params)).query;
      && (forall k :: k in Dicts.Keys(params) ==> Dicts.Get(q, k) == Dicts.Get(params, k))
      && ("key" !in Dicts.Keys(params) ==> Dicts.Get(q, "key") == Some(c.apiKey))
  {
    var start := [("key", c.apiKey)];
    assert Dicts.Get(start, "key") == Some(c.apiKey);
    if params != [] {
      Dicts.UpdateWins(start, params);
    }
  }

  /** As a map, the query is {"key": api_key} overridden by the params. */
  lemma {:induction false} QueryIsOverride(c: Client, interface: string, apiMethod: string, version: string, params: seq<(string, string)>)
    requires Dicts.DistinctKeys(params)
    ensures Dicts.ToMap(MakeRequest(c, interface, apiMethod, version, Some(params)).query)
         == map["key" := c.apiKey] + Dicts.ToMap(params)
  {
    var start := [("key", c.apiKey)];
    assert Dicts.Keys(start) == ["key"];
    assert Dicts.ToMap(start) == map["key" := c.apiKey];
    if params != [] {
      Dicts.UpdateIsOverride(start, params);
    } else {
      assert Dicts.ToMap(params) == map[];
    }
  }

  /** Params that do not mention "key" are sent after the key, in order. */
  lemma {:induction false} KeyThenParams(c: Client, interface: string, apiMethod: string, version: string, params: seq<(string, string)>)
    requires params != [] && Dicts.DistinctKeys(params)
    requires "key" !in Dicts.Keys(params)
    ensures MakeRequest(c, interface, apiMethod, version, Some(params)).query == [("key", c.apiKey)] + params
  {
    var start := [("key", c.apiKey)];
    assert Dicts.Keys(start) == ["key"];
    Dicts.UpdateFresh(start, params);
  }

  /** Whatever the params, the query names "key" first and then the other
      params' keys in the caller's order. */
  lemma {:induction false} QueryOrder(c: Client, interface: string, apiMethod: string, version: string, params: seq<(string, string)>)
    ensures Dicts.Keys(MakeRequest(c, interface, apiMethod, version, Some(params)).query)
         == ["key"] + Dicts.NewKeys(["key"], Dicts.Keys(params))
  {
    var start := [("key", c.apiKey)];
    assert Dicts.Keys(start) == ["key"];
    if params != [] {
      Dicts.UpdateOrder(start, params);
    }
  }

  /** `get_player_summaries(steamids)`. */
  function GetPlayerSummaries(c: Client, steamids: string): (r: Request)
    ensures r.verb == "GET" && r.headers == [] && r.body == None
    ensures r.url == EndpointUrl("ISteamUser", "GetPlayerSummaries", "v2")
    ensures r.query == [("key", c.apiKey), ("steamids", steamids)]
  {
    KeyThenParams(c, "ISteamUser", "GetPlayerSummaries", "v2", [("steamids", steamids)]);
    MakeRequest(c, "ISteamUser", "GetPlayerSummaries", "v2", Some([("steamids", steamids)]))
  }

  /** `str(b).lower()`: how a Python bool is sent as a query value. */
  function BoolParam(b: bool): (s: string)
    ensures s == "true" || s == "false"
    ensures (s == "true") <==> b
  {
    if b then "true" else "false"
  }

  /** `get_owned_games(steamid, include_appinfo)`: free games are always
      asked for; `include_appinfo` is sent as "true" or "false". */
  function GetOwnedGames(c: Client, steamid: string, includeAppinfo: bool := true): (r: Request)
    ensures r.verb == "GET" && r.headers == [] && r.body == None
    ensures r.url == EndpointUrl("IPlayerService", "GetOwnedGames", "v1")
    ensures r.query == [("key", c.apiKey), ("steamid", steamid),
                        ("include_appinfo", BoolParam(includeAppinfo)),
                        ("include_played_free_games", "true")]
  {
    var params := [("steamid", steamid), ("include_appinfo", BoolParam(includeAppinfo)),
                   ("include_played_free_games", "true")];
    KeyThenParams(c, "IPlayerService", "GetOwnedGames", "v1", params);
    MakeRequest(c, "IPlayerService", "GetOwnedGames", "v1", Some(params))
  }

  /** `get_recently_played_games(steamid, count)`; the count is sent in
      decimal. */
  function GetRecentlyPlayedGames(c: Client, steamid: string, count: int := 5): (r: Request)
    ensures r.verb == "GET" && r.headers == [] && r.body == None
    ensures r.url == EndpointUrl("IPlayerService", "GetRecentlyPlayedGames", "v1")
    ensures r.query == [("key", c.apiKey), ("steamid", steamid), ("count", Strings.IntToString(count))]
  {
    var params := [("steamid", steamid), ("count", Strings.IntToString(count))];
    KeyThenParams(c, "IPlayerService", "GetRecentlyPlayedGames", "v1", params);
    MakeRequest(c, "IPlayerService", "GetRecentlyPlayedGames", "v1", Some(params))
  }

  /** `get_steam_level(steamid)`. */
  function GetSteamLevel(c: Client, steamid: string): (r: Request)
    ensures r.verb == "GET" && r.headers == [] && r.body == None
    ensures r.url == EndpointUrl("IPlayerService", "GetSteamLevel", "v1")
    ensures r.query == [("key", c.apiKey), ("steamid", steamid)]
  {
    KeyThenParams(c, "IPlayerService", "GetSteamLevel", "v1", [("steamid", steamid)]);
    MakeRequest(c, "IPlayerService", "GetSteamLevel", "v1", Some([("steamid", steamid)]))
  }

  /** `resolve_vanity_url(vanityurl)`. */
  function ResolveVanityUrl(c: Client, vanityurl: string): (r: Request)
    ensures r.verb == "GET" && r.headers == [] && r.body == None
    ensures r.url == EndpointUrl("ISteamUser", "ResolveVanityURL", "v1")
    ensures r.query == [("key", c.apiKey), ("vanityurl", vanityurl)]
  {
    KeyThenParams(c, "ISteamUser", "ResolveVanityURL", "v1", [("vanityurl", vanityurl)]);
    MakeRequest(c, "ISteamUser", "ResolveVanityURL", "v1", Some([("vanityurl", vanityurl)]))
  }

  /** `get_friend_list(steamid, relationship)`. */
  function GetFriendList(c: Client, steamid: string, relationship: string := "friend"): (r: Request)
    ensures r.verb == "GET" && r.headers == [] && r.body == None
    ensures r.url == EndpointUrl("ISteamUser", "GetFriendList", "v1")
    ensures r.query == [("key", c.apiKey), ("steamid", steamid), ("relationship", relationship)]
  {
    var params := [("steamid", steamid), ("relationship", relationship)];
    KeyThenParams(c, "ISteamUser", "GetFriendList", "v1", params);
    MakeRequest(c, "ISteamUser", "GetFriendList", "v1", Some(params))
  }

  /** `get_player_bans(steamids)`. */
  function GetPlayerBans(c: Client, steamids: string): (r: Request)
    ensures r.verb == "GET" && r.headers == [] && r.body == None
    ensures r.url == EndpointUrl("ISteamUser", "GetPlayerBans", "v1")
    ensures r.query == [("key", c.apiKey), ("steamids", steamids)]
  {
    KeyThenParams(c, "ISteamUser", "GetPlayerBans", "v1", [("steamids", steamids)]);
    MakeRequest(c, "ISteamUser", "GetPlayerBans", "v1", Some([("steamids", steamids)]))
  }

  /** `get_global_achievement_percentages(gameid)`. */
  function GetGlobalAchievementPercentages(c: Client, gameid: int): (r: Request)
    ensures r.verb == "GET" && r.headers == [] && r.body == None
    ensures r.url == EndpointUrl("ISteamUserStats", "GetGlobalAchievementPercentagesForApp", "v2")
    ensures r.query == [("key", c.apiKey), ("gameid", Strings.IntToString(gameid))]
  {
    var params := [("gameid", Strings.IntToString(gameid))];
    KeyThenParams(c, "ISteamUserStats", "GetGlobalAchievementPercentagesForApp", "v2", params);
    MakeRequest(c, "ISteamUserStats", "GetGlobalAchievementPercentagesForApp", "v2", Some(params))
  }

  /** `get_number_of_current_players(appid)`. */
  function GetNumberOfCurrentPlayers(c: Client, appid: int): (r: Request)
    ensures r.verb == "GET" && r.headers == [] && r.body == None
    ensures r.url == EndpointUrl("ISteamUserStats", "GetNumberOfCurrentPlayers", "v1")
    ensures r.query == [("key", c.apiKey), ("appid", Strings.IntToString(appid))]
  {
    var params := [("appid", Strings.IntToString(appid))];
    KeyThenParams(c, "ISteamUserStats", "GetNumberOfCurrentPlayers", "v1", params);
    MakeRequest(c, "ISteamUserStats", "GetNumberOfCurrentPlayers", "v1", Some(params))
  }

  /** The params of `get_news_for_app` form a dict without "key". */
  lemma NewsParams(appid: string, count: string, maxlength: string)
    ensures var p := [("appid", appid), ("count", count), ("maxlength", maxlength)];
      Dicts.DistinctKeys(p) && "key" !in Dicts.Keys(p)
  {
    var p := [("appid", appid), ("count", count), ("maxlength", maxlength)];
    assert Dicts.Keys(p) == ["appid", "count", "maxlength"];
  }

  /** `get_news_for_app(appid, count, maxlength)`. */
  function GetNewsForApp(c: Client, appid: int, count: int := 5, maxlength: int := 300): (r: Request)
    ensures r.verb == "GET" && r.headers == [] && r.body == None
    ensures r.url == EndpointUrl("ISteamNews", "GetNewsForApp", "v2")
    ensures r.query == [("key", c.apiKey), ("appid", Strings.IntToString(appid)),
                        ("count", Strings.IntToString(count)),
                        ("maxlength", Strings.IntToString(maxlength))]
  {
    var params := [("appid", Strings.IntToString(appid)), ("count", Strings.IntToString(count)),
                   ("maxlength", Strings.IntToString(maxlength))];
    NewsParams(Strings.IntToString(appid), Strings.IntToString(count), Strings.IntToString(maxlength));
    KeyThenParams(c, "ISteamNews", "GetNewsForApp", "v2", params);
    MakeRequest(c, "ISteamNews", "GetNewsForApp", "v2", Some(params))
  }

  /** How `main` starts: the `--key` flag if it is non-empty, else the
      `STEAM_API_KEY` environment value; with neither it exits with status
      1 before any client is built. */
  function Launch(keyFlag: Option<string>, envKey: Option<string>): (r: Start<Client>)
    ensures r.Exit? <==> !TruthyStr(keyFlag) && !TruthyStr(envKey)
    ensures r.Exit? ==> r.status == 1
    ensures r.Run? ==> r.client.apiKey == if TruthyStr(keyFlag) then keyFlag.value else envKey.value
  {
    var key := OrElse(keyFlag, envKey);
    if !TruthyStr(key) then Exit(1) else Run(NewClient(key).value)
  }
}
