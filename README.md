# Request construction of three REST API clients

This project models the deterministic part of three small command-line API
clients: `vndb_query.py` for the VNDB Kana API v2, `bangumi_api_example.py`
for the Bangumi API v0 and `steam_api_example.py` for the Steam Web API.
Each client turns its configuration (base URL, token or key) and a call's
arguments into an HTTP request before handing it to the transport. The model
describes that request as a value `Common.Request`:

- the method (field `verb`),
- the URL,
- the query pairs the transport appends,
- the headers, in the order the client sets them,
- the JSON body, if any.

Every operation is a pure function from its inputs to that value, since
the clients never change their state after construction.

Python dicts keep insertion order, and the clients rely on it: Bangumi
builds its query string in the params' insertion order, and the Steam query
starts with "key". The model
therefore represents a dict as a sequence of (key, value) entries with
distinct keys (module `Dicts`):

- `Dicts.Set` is `d[k] = v`.
- `Dicts.Update` is `d.update(other)`.
- `Dicts.ToMap` forgets the order.

That lets the Steam parameter merge be proved equal to map override.
Python truthiness is written out: `Common.Truthy` and `Common.TruthyStr`
are false for `None` and for the empty dict or string.

Library calls whose code is not part of this model are parameters:

- `urlencode` is a function argument of `Common.Target`.
- `json.loads` is the `loads` argument of the VNDB filter parser. It returns
  `None` where the library raises.

`json.dumps` is not modelled: a body is kept as the `Common.Json` value that
would be serialised. The environment variables read by `main` are parameters
of the `Launch` functions. The timeout is stored in the VNDB client but no
transport is modelled.

Files:

- `common.dfy`: `Option`, `Result`, `Json`, `Request`, `Start`, truthiness.
- `strings.dfy`: `rstrip`, `strip`, first occurrence, `split`, `join` and
  `str` of an integer.
- `dicts.dfy`: ordered dicts.
- `vndb.dfy`, `bangumi.dfy`, `steam.dfy`: the three clients.

## Model

| member | source | states |
|---|---|---|
| Common.OrElse | bangumi-api/scripts/bangumi_api_example.py:309 | Python `a or b`: the first value when it is a non-empty string, else the second |
| Strings.RStrip | vndb-api/scripts/vndb_query.py:87 | `rstrip(chars)` keeps a prefix of the input; the result does not end in `chars`, and everything cut off is in `chars` |
| Strings.LeadingCount | vndb-api/scripts/vndb_query.py:356 | the length of the leading run of `chars`: everything before it is in `chars`, the character at it is not |
| Strings.StripChars | vndb-api/scripts/vndb_query.py:356 | `strip(chars)` is no longer than its input, and neither end of the result is in `chars` |
| Strings.StripCharsSlice | vndb-api/scripts/vndb_query.py:356 | the stripped text is the piece of the input that starts right after the leading run of `chars`; everything after the piece is in `chars` |
| Strings.Strip | vndb-api/scripts/vndb_query.py:356 | `strip()` with no argument cuts the characters `str.isspace` accepts (`Strings.Whitespace`): the result is the piece after the leading whitespace run, neither end is whitespace, and everything after it is whitespace, as `StripChars` and `StripCharsSlice` state for any set |
| Strings.StripTrimmed | vndb-api/scripts/vndb_query.py:356 | a string whose two ends are not whitespace is its own `strip()` |
| Strings.IndexOf | vndb-api/scripts/vndb_query.py:355 | no index exactly when the character does not occur; otherwise its first occurrence |
| Strings.IndexOfFirst | vndb-api/scripts/vndb_query.py:355 | the first occurrence at `j` is what `IndexOf` finds |
| Strings.SplitOnce | vndb-api/scripts/vndb_query.py:355 | `split(sep, 1)`: with `sep` present, two parts that rebuild the input around the first `sep`, so no `sep` in the first part; otherwise the input alone |
| Strings.SplitOnceAt | vndb-api/scripts/vndb_query.py:355 | `split(sep, 1)` of `key + sep + rest` with no `sep` in `key` gives back `key` and `rest`, even when `rest` holds more `sep` |
| Strings.Split | bangumi-api/scripts/bangumi_api_example.py:81 | `split(sep)`: at least one part, none containing `sep`; the reference inverse of `join` that `Bangumi.QuerySplitsBack` uses |
| Strings.Join | bangumi-api/scripts/bangumi_api_example.py:81 | `sep.join`: empty for no parts, the part itself for one |
| Strings.JoinSplit | bangumi-api/scripts/bangumi_api_example.py:81 | joining the parts of `split(sep)` with `sep` gives the input back, for every input |
| Strings.SplitJoin | bangumi-api/scripts/bangumi_api_example.py:81 | splitting a join at its separator gives the parts back when no part contains the separator |
| Strings.NatToString | bangumi-api/scripts/bangumi_api_example.py:81 | `str` of a natural number: non-empty decimal digits, no leading zero, whose decimal value (`Strings.DigitsValue`) is the number |
| Strings.IntToString | bangumi-api/scripts/bangumi_api_example.py:81 | `str` of an integer: for a non-negative number, digits with no leading zero; otherwise '-' followed by such digits; the digits read back as the absolute value; never '&', '=', '?' or '/' |
| Dicts.Keys | steam-api/scripts/steam_api_example.py:56 | the keys, one per entry, in insertion order |
| Dicts.Get | steam-api/scripts/steam_api_example.py:56 | a lookup succeeds exactly for present keys, with a value stored under that key |
| Dicts.GetAt | steam-api/scripts/steam_api_example.py:56 | in a dict, the value at any entry is what looking up its key gives |
| Dicts.Set | steam-api/scripts/steam_api_example.py:58 | `d[k] = v`: keeps the key order when `k` is present, appends when it is new; `k` maps to `v` afterwards; every other key is unchanged |
| Dicts.SetKeys | steam-api/scripts/steam_api_example.py:58 | `d[k] = v` adds `k` to the keys and no other key |
| Dicts.Update | steam-api/scripts/steam_api_example.py:58 | `d.update(other)`: still a dict, old keys keep their places, the keys are those of both, and keys absent from `other` keep their values |
| Dicts.NewKeys | steam-api/scripts/steam_api_example.py:58 | the keys that are in `keys` and not in `known`, and no other, each once |
| Dicts.FirstAt | steam-api/scripts/steam_api_example.py:58 | the position of the first occurrence of a key, or the length when it is absent |
| Dicts.NewKeysOrder | steam-api/scripts/steam_api_example.py:58 | the new keys come in the order of their first occurrence in `keys` |
| Dicts.SetOrder | steam-api/scripts/steam_api_example.py:58 | the keys after `d[k] = v` are the old keys in place, followed by `k` exactly when it is new |
| Dicts.UpdateOrder | steam-api/scripts/steam_api_example.py:58 | the keys after `d.update(other)` are the old keys in place, then the new keys of `other` in `other`'s order |
| Dicts.UpdateGet | steam-api/scripts/steam_api_example.py:58 | after `d.update(other)`, a key of `other` has the value `other` gives it |
| Dicts.UpdateWins | steam-api/scripts/steam_api_example.py:58 | after `d.update(other)`, keys of `other` take their values from `other`, all others from `d` |
| Dicts.UpdateFresh | steam-api/scripts/steam_api_example.py:58 | when no key of `other` is in `d`, `d.update(other)` is `d` followed by `other`, in order |
| Dicts.ToMap | steam-api/scripts/steam_api_example.py:56-58 | the dict as a map: same keys, same values |
| Dicts.OverrideAt | steam-api/scripts/steam_api_example.py:58 | at each key, `d.update(other)` agrees with the map override of `d` by `other` |
| Dicts.UpdateIsOverride | steam-api/scripts/steam_api_example.py:56-58 | `d.update(other)`, seen as a map, is the map of `d` overridden by the map of `other` |
| Vndb.NewClient | vndb-api/scripts/vndb_query.py:79-88 | the stored base URL is the argument with every trailing '/' removed: a prefix of it, not ending in '/', and only '/' was cut; the timeout is kept; defaults are the Kana URL and 30 |
| Vndb.MakeRequest | vndb-api/scripts/vndb_query.py:113-133 | URL is base + "/" + endpoint; query is the params only when they are truthy; headers are exactly Accept and Content-Type, both application/json; a body exactly when the method is POST and the data is truthy |
| Vndb.RequestTarget | vndb-api/scripts/vndb_query.py:113-115 | the URL asked for is base + "/" + endpoint, plus "?" and the encoded params exactly when the params are neither `None` nor empty |
| Vndb.Get | vndb-api/scripts/vndb_query.py:156-158 | `get`: a GET without a body whose query is the truthy params; the request carries the two JSON headers |
| Vndb.Post | vndb-api/scripts/vndb_query.py:152-154 | `post`: a POST with no query, whose body is the payload unless it is empty; the request carries the two JSON headers |
| Vndb.SearchPayload | vndb-api/scripts/vndb_query.py:191-195 | keys filters, fields, results in that order; filter `["search", "=", keyword]` |
| Vndb.SearchCharacter | vndb-api/scripts/vndb_query.py:174-197 | POST to `character` of the search payload; default 20 results; the request carries the two JSON headers |
| Vndb.SearchVn | vndb-api/scripts/vndb_query.py:201-224 | POST to `vn` of the search payload; default 10 results; the request carries the two JSON headers |
| Vndb.GetVnById | vndb-api/scripts/vndb_query.py:243-248 | POST to `vn` with keys filters, fields only, holding filter `["id", "=", vn_id]` and the given fields; the request carries the two JSON headers |
| Vndb.LatestPayload | vndb-api/scripts/vndb_query.py:267-273 | keys filters, fields, sort, reverse, results in that order; releases from 2024-01-01, sorted by release date, reversed |
| Vndb.GetLatestVn | vndb-api/scripts/vndb_query.py:252-275 | POST to `vn` of the latest payload; default 5 results; the request carries the two JSON headers |
| Vndb.GetStats | vndb-api/scripts/vndb_query.py:287 | a GET of `stats` with no query and no body; the request carries the two JSON headers |
| Vndb.GetUser | vndb-api/scripts/vndb_query.py:306-307 | a GET of `user` whose query is q then fields; the request carries the two JSON headers |
| Vndb.GetSchema | vndb-api/scripts/vndb_query.py:319 | a GET of `schema` with no query and no body; the request carries the two JSON headers |
| Vndb.ParseFilter | vndb-api/scripts/vndb_query.py:343-356 | a '[' anywhere selects JSON even with a ':', and only the JSON parser decides; no '[' and no ':' is an error; otherwise a three-element filter with "=" in the middle |
| Vndb.KeyValueFilter | vndb-api/scripts/vndb_query.py:355-356 | `key:val` with no ':' or '[' in the key and no '[' in the value parses to `[strip(key), "=", strip(val)]`; later colons stay in the value |
| Vndb.FilterRoundTrip | vndb-api/scripts/vndb_query.py:355-356 | round trip: a trimmed key and value with those restrictions come back unchanged as `[key, "=", val]` |
| Vndb.QueryPayload | vndb-api/scripts/vndb_query.py:358-363 | keys filters, fields, sort, results in that order, holding the given values |
| Vndb.QueryEndpoint | vndb-api/scripts/vndb_query.py:323-368 | no request exactly when the filter is rejected, with the same error; otherwise a POST to the endpoint of the query payload; that request carries the two JSON headers |
| Vndb.QueryKeyValueDefaults | vndb-api/scripts/vndb_query.py:328-329 | with default sort "id" and results 10, a trimmed key:value filter posts exactly that payload |
| Bangumi.NewClient | bangumi-api/scripts/bangumi_api_example.py:41-43 | fails exactly for a `None` or empty token; otherwise stores it unchanged |
| Bangumi.MakeRequest | bangumi-api/scripts/bangumi_api_example.py:57-68 | headers: Bearer token, the fixed User-Agent, then Content-Type for POST or Accept otherwise, never both; a body exactly when the data is truthy, whatever the method |
| Bangumi.Pairs | bangumi-api/scripts/bangumi_api_example.py:81 | at most one piece per param |
| Bangumi.PairsAppend | bangumi-api/scripts/bangumi_api_example.py:81 | the pieces of concatenated params are the concatenated pieces, so insertion order is kept |
| Bangumi.PairsAllNone | bangumi-api/scripts/bangumi_api_example.py:81 | params whose values are all `None` contribute no piece |
| Bangumi.PairsFrom | bangumi-api/scripts/bangumi_api_example.py:81 | every piece is `k=v`, unescaped, for a param whose value is not `None` |
| Bangumi.PairsOne | bangumi-api/scripts/bangumi_api_example.py:81 | one param with a value gives the single piece `k=v` |
| Bangumi.GetUrl | bangumi-api/scripts/bangumi_api_example.py:79-82 | BASE_URL + path, followed by "?" and the query string exactly when the params are truthy |
| Bangumi.BareQuestionMark | bangumi-api/scripts/bangumi_api_example.py:80-82 | non-empty params whose values are all `None` give a URL ending in a bare "?" |
| Bangumi.QuerySplitsBack | bangumi-api/scripts/bangumi_api_example.py:81 | with no '&' in any key or value, splitting the query string at '&' gives back the pieces |
| Bangumi.QueryString | bangumi-api/scripts/bangumi_api_example.py:81 | `"&".join` of the pieces: empty for no piece, the piece itself for one, the first piece and '&' in front for more |
| Bangumi.Get | bangumi-api/scripts/bangumi_api_example.py:77-83 | `_get`: a GET of `GetUrl` with no separate query and no body; headers are the bearer token, the User-Agent, then Accept |
| Bangumi.Post | bangumi-api/scripts/bangumi_api_example.py:85-88 | `_post`: a POST to BASE_URL + path with no query; headers are the bearer token, the User-Agent, then Content-Type; the data is the body when it is truthy |
| Bangumi.SearchSubjectsBody | bangumi-api/scripts/bangumi_api_example.py:141-143 | keyword, sort and limit always, in that order; "filter" after them exactly when the filter is truthy |
| Bangumi.SearchSubjects | bangumi-api/scripts/bangumi_api_example.py:126-144 | a POST to /v0/search/subjects with no query, the bearer token, User-Agent and Content-Type headers, and a body that is always sent; defaults sort "match" and limit 10 |
| Bangumi.CollectionParams | bangumi-api/scripts/bangumi_api_example.py:283-285 | limit always; status after it exactly when it is a non-empty string |
| Bangumi.TwoPieces | bangumi-api/scripts/bangumi_api_example.py:81 | a limit and a status with values give `limit=<n>&status=<s>` |
| Bangumi.CollectionQuery | bangumi-api/scripts/bangumi_api_example.py:283-286 | the query string is `limit=<n>`, followed by `&status=<s>` exactly for a non-empty status |
| Bangumi.GetUserCollections | bangumi-api/scripts/bangumi_api_example.py:270-286 | a GET of /v0/users/{username}/collections?limit=<n>[&status=<s>] with no separate query, no body, and the bearer token, User-Agent and Accept headers; default limit 10 |
| Bangumi.Launch | bangumi-api/scripts/bangumi_api_example.py:309-321 | exit 1 before any client exactly when neither the flag nor BGM_TOKEN is non-empty; otherwise the client holds the flag if non-empty, else the environment token |
| Steam.NewClient | steam-api/scripts/steam_api_example.py:35-37 | fails exactly for a `None` or empty key; otherwise stores it unchanged |
| Steam.EndpointUrl | steam-api/scripts/steam_api_example.py:53 | the URL starts with BASE_URL + "/" and always ends in '/' |
| Steam.MakeRequest | steam-api/scripts/steam_api_example.py:39-61 | a GET without headers or body; URL from the endpoint triple, version "v1" by default; the query is a dict whose first key is "key", exactly {"key": api_key} without truthy params, and otherwise holds "key" and the caller's keys |
| Steam.CallerParamsWin | steam-api/scripts/steam_api_example.py:56-58 | every caller param is sent with its own value, so a caller "key" replaces the client's key; otherwise the client's key is sent |
| Steam.QueryIsOverride | steam-api/scripts/steam_api_example.py:56-58 | the query as a map is {"key": api_key} overridden by the caller's params |
| Steam.KeyThenParams | steam-api/scripts/steam_api_example.py:56-58 | caller params without "key" follow the key, in their own order |
| Steam.QueryOrder | steam-api/scripts/steam_api_example.py:56-58 | for any params, the query's keys are "key", then the caller's other keys in the caller's order |
| Steam.GetPlayerSummaries | steam-api/scripts/steam_api_example.py:78-83 | ISteamUser/GetPlayerSummaries/v2 with key then steamids; a GET with no headers and no body |
| Steam.BoolParam | steam-api/scripts/steam_api_example.py:102 | `str(b).lower()`: "true" exactly for true, else "false" |
| Steam.GetOwnedGames | steam-api/scripts/steam_api_example.py:96-105 | IPlayerService/GetOwnedGames/v1 with key, steamid, include_appinfo as "true"/"false" (default true), include_played_free_games always "true"; a GET with no headers and no body |
| Steam.GetRecentlyPlayedGames | steam-api/scripts/steam_api_example.py:118-123 | IPlayerService/GetRecentlyPlayedGames/v1 with key, steamid and count (default 5); a GET with no headers and no body |
| Steam.GetSteamLevel | steam-api/scripts/steam_api_example.py:135-140 | IPlayerService/GetSteamLevel/v1 with key then steamid; a GET with no headers and no body |
| Steam.ResolveVanityUrl | steam-api/scripts/steam_api_example.py:152-157 | ISteamUser/ResolveVanityURL/v1 with key then vanityurl; a GET with no headers and no body |
| Steam.GetFriendList | steam-api/scripts/steam_api_example.py:170-175 | ISteamUser/GetFriendList/v1 with key, steamid and relationship (default "friend"); a GET with no headers and no body |
| Steam.GetPlayerBans | steam-api/scripts/steam_api_example.py:187-192 | ISteamUser/GetPlayerBans/v1 with key then steamids; a GET with no headers and no body |
| Steam.GetGlobalAchievementPercentages | steam-api/scripts/steam_api_example.py:204-209 | ISteamUserStats/GetGlobalAchievementPercentagesForApp/v2 with key then gameid; a GET with no headers and no body |
| Steam.GetNumberOfCurrentPlayers | steam-api/scripts/steam_api_example.py:221-226 | ISteamUserStats/GetNumberOfCurrentPlayers/v1 with key then appid; a GET with no headers and no body |
| Steam.GetNewsForApp | steam-api/scripts/steam_api_example.py:228-245 | ISteamNews/GetNewsForApp/v2 with key, appid, count (default 5) and maxlength (default 300); a GET with no headers and no body |
| Steam.Launch | steam-api/scripts/steam_api_example.py:255-268 | exit 1 before any client exactly when neither the flag nor STEAM_API_KEY is non-empty; otherwise the client holds the flag if non-empty, else the environment key |

## Left out

- Transport: `urllib.request.urlopen`, `requests.get` and their 30-second timeouts, responses, status codes and response decoding are not modelled. A request ends at its `Request` value.
- Error reporting: VNDB's `error` helper and its exit, and the print-and-re-raise handlers of Bangumi and Steam, are not modelled. So is the unreachable fallback return after VNDB's handlers.
- `json.dumps` is not modelled; the body is the JSON value it would serialise. `urlencode` and `json.loads` are function parameters with no definition.
- Values put into a query are taken as already rendered by `str()`. Integers use `Strings.IntToString`, and the Steam bool uses `Steam.BoolParam`. Bangumi params are seen as strings or `None`, so a bool `True` rendered as "True" is out of scope.
- Steam's query is handed to `requests`, whose own encoding of it is out of scope. The model stops at the ordered pairs.
- Command-line glue: argparse, VNDB's `main` dispatch with its `int()` conversions, `format_json`, the colour helpers, `show_help` and the demonstration blocks in Bangumi's and Steam's `main` all depend on printing or live API content.
- `os.environ` reads are parameters of `Bangumi.Launch` and `Steam.Launch`. `sys.exit(1)` is the `Exit(1)` outcome.
- Bangumi `get_calendar` sends a request without the client's token to a fixed URL. It is not part of this model.
- Bangumi's thin wrappers `get_me`, `get_user`, `search_characters`, `search_persons`, `get_subject*`, `get_person`, `get_character` and `get_index` are not modelled individually. Each is `Bangumi.Get` or `Bangumi.Post` on a fixed or argument-built path, with params or a body built from its arguments.
- Bangumi `_make_request` assigns Content-Type or Accept into a fresh two-entry dict. The model writes the three entries out, since a new key is appended (`Dicts.Set`).
- Python's `method` argument is the field and parameter `verb`, because `method` is a keyword in Dafny.
- Vndb.LatestPayload: states its values by position, in the key order its ensures lists, rather than by lookup.
- Strings.StripChars: the dropped run at the front and the position of the result are stated by `Strings.StripCharsSlice`, not in its own contract.
- Only Bangumi's `_get` drops params, and only those whose value is `None`; VNDB and Steam pass their params through unchanged.
- Common.Json: numbers with a fraction or an exponent are `JReal` values; the rounding of Python floats to binary floating point is not modelled, and neither are the `NaN`, `Infinity` and `-Infinity` values that `json.loads` also accepts.
