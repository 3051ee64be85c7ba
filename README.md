# Steam recommender core, modelled in Dafny

This project models the service layer of a small Flask application that reads a
Steam user's library and ranks "hidden gem" games. It covers four parts.

- **The Steam Web API client.** `SteamClient` (`SteamClient.dfy`) is a class
  with a time-to-live response cache. The cache is a map from a request
  fingerprint (`url|params`) to a (timestamp, payload) pair. The method `Get`
  reads and overwrites that map. The three accessors build the URL and
  parameters and then call `Get`. `owned_games` refuses when no API key is set,
  and it unwraps the `response` body.
- **The app-metadata synchroniser.** `AppMetadata` (`AppMetadata.dfy`) covers:
  - the nested-dict walk `_safe_get`;
  - the storefront payload parser, with its coercions and description filters;
  - `fetch_app_details`;
  - `upsert_app_metadata` over a store of apps, genre and category lookup
    tables and their link rows;
  - `backfill_metadata_for_user`.
- **The owned-games synchroniser.** `OwnedGamesSync` (`OwnedGamesSync.dfy`)
  models `upsert_owned_games_only`. It runs one pass over the incoming records
  against a store keyed by `(user_id, appid)`, creates placeholder apps, and
  counts rows created and updated.
- **The ranking helpers.** `Recommendations` (`Recommendations.dfy`) holds the
  pure part of the `/recommendations` route:
  - review totals and the popularity proxy;
  - the name and minimum-review filters;
  - the stable descending sort by a score key;
  - the `[:limit]` slice;
  - the TypeError `score` raises for a survivor with reviews but a NULL
    `positive` count.

Two modules are shared:

- `PyJson` (`PyJson.dfy`) models decoded JSON values and the Python built-ins the
  services apply to them: truthiness, `dict.get`, `int()` and `str()` of an int.
- `Store` (`Store.dfy`) models the relational store as the services use it. It
  is a class `Db`, and each service is a method that `modifies` it.

A Python exception is the `Raises` case of `Outcome`. Clock readings, HTTP
responses and the row order of a database query are parameters.

The pure specification functions are:

- `CachedGet` for one cache lookup;
- `ParseAppPayload` for the parser;
- `UpsertMeta` and `Upsert` for one metadata upsert;
- `Backfill` for the backfill loop;
- `Step` and `Run` for the owned-games pass;
- `Recommend` for the ranking.

Each imperative method is proved equal to its specification function. The
properties are proved as lemmas about those functions.

Two behaviours of the code shape the model:

- **`upsert_app_metadata` keys the stored app by `int(steam_appid)`** from the
  payload. That number can differ from the appid that was requested.
- **A new appid repeated within one owned-games list makes the pass raise.** The
  loop never updates the preloaded row map, so the second occurrence inserts a
  second row with the same `(user_id, appid)` key. The next flush fails: the
  autoflush of a later `App.query.get`, or the final commit. The model returns
  `Raises` with the store unchanged. `RunRaisesIff` states exactly when this
  happens.

## Model

| member | source | states |
|---|---|---|
| `SteamClient.Fingerprint` | app/services/steam_client.py:19 | the cache key: the url, a bar, and the repr of the parameter dict in insertion order |
| `SteamClient.Fresh` | app/services/steam_client.py:24-27 | an entry is fresh when it exists and its age `now - timestamp` is strictly below the TTL |
| `SteamClient.CachedGet` | app/services/steam_client.py:17-41 | definition of one lookup: a fresh entry is served; otherwise a failure raises with the cache unchanged and a payload is stored under the key with the current time (its properties are the lemmas below) |
| `SteamClient.HasKey` | app/services/steam_client.py:55-56 | `if not self.key`: an absent or empty key counts as missing |
| `SteamClient.Client.constructor` | app/services/steam_client.py:7-14 | a new client holds the given TTL and API key and starts with an empty cache |
| `SteamClient.Client.Get` | app/services/steam_client.py:17-41 | the cache lookup under the fingerprint of url and params: the result, whether a request was issued, and the new cache are those of the lookup specification |
| `SteamClient.Client.AppDetails` | app/services/steam_client.py:46-48 | a lookup of `<base>/api/appdetails` with `{'appids': appid}` |
| `SteamClient.Client.AppReviewsSummary` | app/services/steam_client.py:50-52 | a lookup of `<base>/<appid>` with the summary parameters |
| `SteamClient.Client.OwnedGames` | app/services/steam_client.py:54-75 | without a non-empty API key it raises before any lookup, issues no request and leaves the cache unchanged; otherwise it does the lookup with key and steamid, then unwraps the body |
| `SteamClient.OwnedBody` | app/services/steam_client.py:74 | `response.get("response", {}) or {}`: the truthy value under `response`, otherwise an empty dict |
| `SteamClient.UnwrapOwnedGames` | app/services/steam_client.py:74-75 | with `b` the truthy dict under `response` or `{}`: the games value is `b["games"]` when truthy and `[]` otherwise; the count is 0 when `game_count` is falsy and `int(b["game_count"])` otherwise; it raises if and only if the payload is not a dict, the truthy `response` value is not a dict, or `int()` rejects a truthy count; a missing or null `response` gives `([], 0)` |
| `SteamClient.UnwrapDocumentedShape` | app/services/steam_client.py:67-75 | the documented body `{"response": {"game_count": n, "games": gs}}` unwraps to `(gs, n)` |
| `SteamClient.HitServesStored` | app/services/steam_client.py:24-30 | an entry younger than the TTL is returned as stored, with no request and the cache unchanged |
| `SteamClient.AgeEqualToTtlIsStale` | app/services/steam_client.py:27 | an entry exactly TTL old is refetched and replaced by `(now, payload)` |
| `SteamClient.FetchesIffNotFresh` | app/services/steam_client.py:24-33 | a request is issued if and only if the entry is missing or stale |
| `SteamClient.FailureLeavesCache` | app/services/steam_client.py:36-40 | a failed request raises and leaves the whole cache unchanged, stale entry included |
| `SteamClient.OnlyKeyChanges` | app/services/steam_client.py:40 | every entry other than the one under the key is unchanged; after a successful fetch the entry is `(now, payload)` |
| `SteamClient.SecondCallWithinTtlIsHit` | app/services/steam_client.py:21-40 | after a fetch at t1, a call at t2 with t1 <= t2 < t1+TTL issues no request and returns the fetched payload |
| `SteamClient.ExpiryForcesRefetch` | app/services/steam_client.py:21-40 | after a fetch at t1, a call at t2 >= t1+TTL fetches again and stores `(t2, payload)` |
| `SteamClient.FailureIsRetried` | app/services/steam_client.py:33-40 | a failure is not cached: the next call on that key issues a request again |
| `SteamClient.HourTtlScenario` | app/services/steam_client.py:24-40 | with the default TTL of 3600: fetched at 0, served from memory at 1800, refetched at 3600 |
| `SteamClient.AppDetailsKeyShape` | app/services/steam_client.py:46-48 | the `app_details` cache key is a fixed prefix followed by the decimal appid and `}` |
| `SteamClient.AppDetailsKeyInjective` | app/services/steam_client.py:46-48 | two `app_details` calls share a cache key if and only if their appids are equal |
| `SteamClient.ReviewsKeyShape` | app/services/steam_client.py:50-52 | the review-summary key is `<base>/`, then the decimal appid, then a bar and the fixed parameters |
| `SteamClient.ReviewsKeyInjective` | app/services/steam_client.py:50-52 | two review-summary calls share a cache key if and only if their appids are equal |
| `SteamClient.DetailsAndReviewsKeysDiffer` | app/services/steam_client.py:46-52 | a details key never equals a review-summary key |
| `PyJson.Truthy` | app/services/app_metadata.py:30 | Python truthiness: None, False, 0, `""`, `[]` and `{}` are false, every other value true |
| `PyJson.GetOr` | app/services/app_metadata.py:28-34 | `d.get(k, default)`: the stored value when the key is present, the default otherwise |
| `PyJson.ParseInt` | app/services/app_metadata.py:46 | definition of `int()` on a str: an optional sign and at least one ASCII digit, anything else raises |
| `PyJson.PyInt` | app/services/app_metadata.py:44-48 | definition of `int()` on a JSON value: ints pass, bools become 0 or 1, strs are parsed, None, lists and dicts raise |
| `PyJson.IntRepr` | app/services/app_metadata.py:28 | `str(i)` for an int: a minus sign for negatives, then the decimal digits without leading zeros |
| `PyJson.IntReprRoundTrip` | app/services/app_metadata.py:28 | `int(str(i)) == i` for every int |
| `PyJson.IntReprInjective` | app/services/app_metadata.py:28 | `str(a) == str(b)` if and only if `a == b`, so `raw.get(str(appid))` picks the block of that appid only |
| `AppMetadata.Walk` | app/services/app_metadata.py:15-20 | definition of the walk: the value reached, or nothing at the first non-dict or missing key |
| `AppMetadata.Nested` | app/services/app_metadata.py:10-20 | what `_safe_get` returns: the value reached by the walk, or the default |
| `AppMetadata.WalkConcat` | app/services/app_metadata.py:15-20 | walking `p + q` is walking `p`, then `q` from where `p` stopped; a failed walk stays failed |
| `AppMetadata.SafeGet` | app/services/app_metadata.py:10-20 | the loop returns the nested value, or the default at the first non-dict or missing key; an empty path returns the data itself |
| `AppMetadata.Described` | app/services/app_metadata.py:56-57 | the comprehension's guard: the entry is a dict with a truthy `description` |
| `AppMetadata.Descriptions` | app/services/app_metadata.py:56-57 | at most as many descriptions as entries, each one truthy |
| `AppMetadata.DescriptionsAppend` | app/services/app_metadata.py:56-57 | the filter works entry by entry: it distributes over concatenation, so order and duplicates are kept |
| `AppMetadata.DescriptionsExactly` | app/services/app_metadata.py:56-57 | every dict entry with a truthy description contributes it, and every output is the description of such an entry |
| `AppMetadata.DescriptionList` | app/services/app_metadata.py:56-57 | a missing field gives `[]`; a list gives the descriptions of its described entries; a str or a dict gives `[]`; the comprehension raises if and only if the field holds None, a bool or an int |
| `AppMetadata.OptionalInt` | app/services/app_metadata.py:42-55 | the result is None if and only if the value is None or `int()` rejects it; a kept value is `int(v)`, so an int stays and `"85"` becomes 85 |
| `AppMetadata.BlockOf` | app/services/app_metadata.py:28 | `raw.get(str(appid))`: the block under the decimal appid, or None |
| `AppMetadata.ParseAppPayload` | app/services/app_metadata.py:22-37 | definition of the parser up to the `data` dict: None for a missing or falsy block or a falsy `success`, an exception for values of the wrong kind (its properties are the lemmas below) |
| `AppMetadata.ParseData` | app/services/app_metadata.py:32-68 | definition of the record built from the `data` dict: None without a `steam_appid` or `name`, the coerced and filtered fields otherwise |
| `AppMetadata.ParseRejectsUnsuccessful` | app/services/app_metadata.py:28-31 | a missing or falsy block, or a falsy `success`, gives None rather than an error |
| `AppMetadata.ParseSucceedsIff` | app/services/app_metadata.py:28-37 | a record is produced if and only if the block is a successful dict whose data holds a non-null `steam_appid` that `int()` accepts, a non-null `name`, and genre and category fields that can be iterated |
| `AppMetadata.ParsedRecord` | app/services/app_metadata.py:33-68 | a produced record has appid `int(steam_appid)` and the raw non-null name; the type is `data.get("type")`; `is_free` is the truthiness of `data.get("is_free", False)`; the metacritic score and recommendation total are the coercions of the nested values; the genre and category lists are the comprehensions' results (the filtered descriptions of a list, `[]` for a missing field, a str or a dict) |
| `AppMetadata.CoercionNeverRejects` | app/services/app_metadata.py:42-55 | replacing the metacritic score with any value never turns a produced record into None; only the score field changes |
| `AppMetadata.CoercionInData` | app/services/app_metadata.py:42-55 | on the data dict: whatever value replaces the metacritic score, the outcome is the same except that the score becomes its coercion |
| `AppMetadata.FetchAppDetails` | app/services/app_metadata.py:82-90 | definition of `fetch_app_details`: None for a failed request or a falsy body, the parser's outcome otherwise |
| `AppMetadata.FailedFetchIsNone` | app/services/app_metadata.py:82-90 | a failed request or a falsy body yields None, not an error |
| `AppMetadata.GetOrCreate` | app/services/app_metadata.py:123-132 | definition of one get-or-create: the existing id, or the next id with the name inserted |
| `AppMetadata.Resolve` | app/services/app_metadata.py:121-146 | definition of the name loop: get-or-create for each name in turn, collecting the ids in order |
| `AppMetadata.GetOrCreateFacts` | app/services/app_metadata.py:122-132 | after get-or-create the name is present with the returned id, existing names keep their ids, and the table stays well-formed |
| `AppMetadata.ResolveIds` | app/services/app_metadata.py:121-132 | one id per listed name, in order, each the final table's id for that name |
| `AppMetadata.ResolveKeys` | app/services/app_metadata.py:121-146 | the final table's names are exactly the old names plus the listed ones, and old names keep their ids |
| `AppMetadata.ResolveOk` | app/services/app_metadata.py:121-146 | resolving never lowers the next id and keeps the table well-formed |
| `AppMetadata.ResolvePresent` | app/services/app_metadata.py:122-132 | resolving names that are all present changes nothing |
| `AppMetadata.UpsertMeta` | app/services/app_metadata.py:101-157 | definition of the store writes for a parsed record: the app row, both name loops and both pivot loops (its properties are the lemmas below) |
| `AppMetadata.Upsert` | app/services/app_metadata.py:92-160 | definition of the whole call: no change without a record, the store writes with one |
| `AppMetadata.UpsertMetaRows` | app/services/app_metadata.py:102-118 | after an upsert the app row holds the record's scalar fields, whether created or updated, and no other app changes |
| `AppMetadata.UpsertMetaLinks` | app/services/app_metadata.py:148-157 | every listed genre or category exists and is linked to the app; no existing link is removed |
| `AppMetadata.LinksOfResolvedOk` | app/services/app_metadata.py:148-157 | link rows added for resolved ids join the app to existing lookup rows |
| `AppMetadata.UpsertMetaKeepsOk` | app/services/app_metadata.py:102-159 | an upsert keeps the store well-formed: names unique per id, ids below the next id, every link joining existing rows |
| `AppMetadata.UpsertMetaKeepsValid` | app/services/app_metadata.py:101-159 | an upsert keeps the whole store well-formed: the catalog as above, and every owned row still refers to an existing app |
| `AppMetadata.UpsertMetaIdempotent` | app/services/app_metadata.py:102-159 | upserting the same record twice gives the same store as upserting it once |
| `AppMetadata.UpsertIdempotent` | app/services/app_metadata.py:92-160 | repeating the whole call with the same response gives the same result and store |
| `AppMetadata.ResolveNames` | app/services/app_metadata.py:121-146 | the get-or-create loop yields the resolved table and the ids of the specification |
| `AppMetadata.AddLinks` | app/services/app_metadata.py:149-157 | the pivot loop leaves the old links plus one `(appid, id)` pair per id |
| `AppMetadata.StoreRecord` | app/services/app_metadata.py:102-157 | the app row write, created or updated in place, followed by the name loops and the pivot loops, leaves the store the upsert specification gives; owned rows are untouched; the store stays well-formed |
| `AppMetadata.UpsertAppMetadata` | app/services/app_metadata.py:92-160 | the result and new store equal the upsert specification; a None result leaves the store unchanged; owned rows are untouched; the store stays well-formed |
| `AppMetadata.OwnedPrefix` | app/services/app_metadata.py:169-175 | the query returns the first `min(limit, n)` of the user's `n` rows |
| `AppMetadata.Missing` | app/services/app_metadata.py:178-181 | an appid is kept if and only if it is listed and has no app row |
| `AppMetadata.BackfillStep` | app/services/app_metadata.py:183-185 | one iteration adds at most one to the count |
| `AppMetadata.Backfill` | app/services/app_metadata.py:183-186 | the count never exceeds the number of missing appids |
| `AppMetadata.BackfillStopsAtRaise` | app/services/app_metadata.py:183-186 | once an upsert raises, later appids are never reached |
| `AppMetadata.BackfillMonotone` | app/services/app_metadata.py:183-186 | the backfill keeps the store well-formed and removes no app, name or link |
| `AppMetadata.UpsertMissing` | app/services/app_metadata.py:183-186 | the loop over the missing appids leaves the store and returns the count, or raises, as the backfill specification gives; the store stays well-formed |
| `AppMetadata.BackfillMetadataForUser` | app/services/app_metadata.py:162-186 | upserts exactly the missing appids among the first `limit` owned rows; returns the count of upserts that produced an app, or raises; owned rows are untouched; the store stays well-formed |
| `OwnedGamesSync.Playtime` | app/services/owned_games_sync.py:32 | a missing or falsy playtime becomes 0; a truthy value becomes `int(v)` (an int as is, `"85"` as 85, `True` as 1), and the call raises if and only if `int()` rejects a truthy value |
| `OwnedGamesSync.LastPlayed` | app/services/owned_games_sync.py:33-34 | null becomes None; any other value becomes `int(rlp)`, and the call raises if and only if `int()` rejects a non-null value |
| `OwnedGamesSync.RowOf` | app/services/owned_games_sync.py:32-34 | the row a record writes holds both converted values, and it raises if and only if either conversion raises |
| `OwnedGamesSync.UserAppids` | app/services/owned_games_sync.py:6-8 | the preload `existing_by_appid`: the appids the user already has rows for |
| `OwnedGamesSync.Step` | app/services/owned_games_sync.py:13-34 | definition of one iteration: skip a null appid, add a placeholder app, insert or update the row, count it; a second insert of a new appid raises |
| `OwnedGamesSync.Run` | app/services/owned_games_sync.py:13-35 | definition of the loop over the records, stopping at the first raise (its properties are the lemmas below) |
| `OwnedGamesSync.CountsPartition` | app/services/owned_games_sync.py:13-30 | every record with an appid counts once, either as new or as known |
| `OwnedGamesSync.RunCounts` | app/services/owned_games_sync.py:13-30 | `created` counts records whose appid had no preloaded row, and `updated` counts those that had one; null appids count for neither |
| `Store.Placeholder` | app/services/owned_games_sync.py:19-20 | `App(appid=appid)`: a row with only its identifier, NULL columns and the `is_free` default false |
| `OwnedGamesSync.RunApps` | app/services/owned_games_sync.py:19-20 | every incoming appid has an app afterwards; existing apps are unmodified; new apps are placeholders |
| `OwnedGamesSync.RunOwnedKeys` | app/services/owned_games_sync.py:7-34 | rows are written exactly under `(user, a)` for incoming appids; other users' rows and this user's other rows are unchanged |
| `OwnedGamesSync.RunLastWriteWins` | app/services/owned_games_sync.py:32-34 | an appid's row holds the converted values of the last record that carries it, with nothing accumulated |
| `OwnedGamesSync.RunStaysRaised` | app/services/owned_games_sync.py:13-35 | a pass that has raised stays raised whatever records follow |
| `OwnedGamesSync.RunRaisesIff` | app/services/owned_games_sync.py:23-35 | with the preload taken from the store, the pass raises if and only if some record's value is rejected by `int()` or a new appid appears twice |
| `OwnedGamesSync.RunKeepsOwnedOk` | app/services/owned_games_sync.py:19-27 | every owned row refers to an existing app, before and after |
| `OwnedGamesSync.SyncCountsTotal` | app/services/owned_games_sync.py:13-36 | `created + updated` equals the number of records with a non-null appid, split by the preload |
| `OwnedGamesSync.ResyncUpdatesInPlace` | app/services/owned_games_sync.py:23-34 | re-syncing an owned app updates its row in place: 0 created, 1 updated, the same row keys, the new playtime stored |
| `OwnedGamesSync.UpsertOwnedGamesOnly` | app/services/owned_games_sync.py:4-36 | the store takes the pass's apps and rows, and the result is `(created, updated, len(games))`; a raising pass leaves the store unchanged; lookup tables and links are untouched; the store stays well-formed |
| `Recommendations.OrZero` | app/routes/recommendations.py:58-60 | a NULL column reads as 0 |
| `Recommendations.TotalReviews` | app/routes/recommendations.py:58-60 | positive plus negative reviews, with NULL counted as 0 |
| `Recommendations.PopularityProxy` | app/routes/recommendations.py:67-75 | always at least 1; uses `recommendations_total` whenever it is not NULL (0 and negatives become 1), otherwise the review total |
| `Recommendations.Occurs` | app/routes/recommendations.py:54 | Python's `needle in hay` on strings: the needle is a prefix of some suffix of `hay` |
| `Recommendations.StartOccurs` | app/routes/recommendations.py:54 | a needle that starts at some position of `hay` is `in` it |
| `Recommendations.OccursStart` | app/routes/recommendations.py:54 | a needle that is `in` `hay` starts at some position of it |
| `Recommendations.OccursIff` | app/routes/recommendations.py:54 | `needle in hay` holds if and only if `needle` starts at some position of `hay` |
| `Recommendations.NameOrEmpty` | app/routes/recommendations.py:54 | a NULL name reads as the empty string |
| `Recommendations.NameMatches` | app/routes/recommendations.py:54 | the name filter's test: the lower-cased query occurs in the lower-cased name, a NULL name read as `""` |
| `Recommendations.FilterByName` | app/routes/recommendations.py:53-54 | no query or an empty query keeps everything; otherwise a candidate survives if and only if its lower-cased name contains the lower-cased query |
| `Recommendations.FilterByReviews` | app/routes/recommendations.py:55 | a candidate survives if and only if its total reviews are at least `min_reviews`; when all qualify the list is unchanged |
| `Recommendations.Insert` | app/routes/recommendations.py:85 | insertion adds exactly one element to the multiset |
| `Recommendations.InsertFrom` | app/routes/recommendations.py:85 | every element of an insertion result is the inserted element or came from the list |
| `Recommendations.InsertSorted` | app/routes/recommendations.py:85 | inserting into a non-increasing list keeps it non-increasing |
| `Recommendations.SortDesc` | app/routes/recommendations.py:85 | the sort result is non-increasing in the key and a permutation of its input |
| `Recommendations.SlicePrefix` | app/routes/recommendations.py:85 | `xs[:limit]` is a prefix of length `min(limit, len)` for limit >= 0, or `len + limit` (at least 0) for a negative limit |
| `Recommendations.ScoreRaises` | app/routes/recommendations.py:62-65 | `score` raises when `positive` is NULL and the review total is not zero, so that `pos_ratio` reaches `float(None)` |
| `Recommendations.Recommend` | app/routes/recommendations.py:51-85 | definition of the route's list: both filters, the descending sort and the `[:limit]` cut, or an exception when a survivor's score raises |
| `Recommendations.RecommendRaisesIff` | app/routes/recommendations.py:62-85 | the route raises if and only if some stored candidate passes both filters with a NULL `positive` and a non-zero `negative`, so that `float(None)` is reached |
| `Recommendations.RecommendSound` | app/routes/recommendations.py:51-85 | for limit >= 0 there are at most `limit` entries; each is a stored candidate that passes both filters and whose score does not raise; the order is non-increasing by score |
| `Recommendations.RecommendTop` | app/routes/recommendations.py:41-85 | the top N: for limit >= 0 exactly `min(limit, survivors)` entries, and every survivor cut off scores no higher than any entry returned |
| `Recommendations.RecommendComplete` | app/routes/recommendations.py:51-85 | when `limit` covers all candidates, every candidate passing both filters is returned, with its multiplicity |

## Left out

- The HTTP requests themselves are not modelled: `requests.get`, `raise_for_status`, `_request_appdetails`'s treatment of
  transient statuses as errors, and its logging. Each
  response is a parameter. `Fetch` covers the client's path, where a failure
  propagates. An `Option<Json>` covers the storefront path, which swallows every
  error and returns None.
- `time.time()` is an integer parameter read before the request; floating-point
  timestamps are not modelled.
- The `IntegrityError` rollback branches of the get-or-create loops only arise
  from concurrent inserts. A single process is modelled, so a flush never fails
  there.
- ORM and transaction mechanics (`session.add`, `flush`, `commit`, autoflush)
  are atomic changes of the store's values. When a commit fails, the session's
  pending changes are discarded.
- The `seed` route, request-argument parsing and `jsonify` are not modelled. The
  floating-point `pos_ratio`, the `log10` score and `round` are not modelled
  either. The score is an arbitrary key function for the sort. Its one
  exception is modelled: `pos_ratio` calls `float(None)` when `positive` is
  NULL and `negative` is not zero, and `sorted` computes every survivor's key.
- Python's `str.lower` is a given function `lower`; Unicode case mapping is not
  modelled.
- Application factory, configuration, the schema files and the check script are
  not part of this model. The store is modelled with the columns the services
  read and write.
- `self._session`, and the `include_appinfo` / `include_played_free` arguments
  of `owned_games`, are not modelled. The session is never used, and the
  request always sends 1 for both parameters.
- The unused `seen` set in `upsert_owned_games_only` is not modelled.
- `SteamClient.Client.Get` always takes a parameter list. A call without
  parameters (`params=None`, key `url|None`) does not occur in the source.
- `SteamClient.Fingerprint` renders a str parameter as `'s'`. Python's choice
  of quote character and its escaping are not modelled.
- `PyJson.ParseInt` accepts an optional sign and ASCII digits only. Surrounding
  whitespace, underscores and non-ASCII digits, which Python also accepts, are
  not modelled. Neither is CPython's limit on the length of a digit string,
  above which `int()` raises.
- JSON numbers with a fraction part are not modelled, so `int()` of a float is
  not modelled either. Exception types are not distinguished: every exception
  is `Raises`.
- `AppMetadata.BackfillMetadataForUser` takes `limit` as a natural number. The
  negative limits Python would pass to SQL `LIMIT` are not modelled.
- `AppMetadata.BackfillMetadataForUser`: the order of the user's owned rows is a
  parameter `scan`, which holds exactly the user's appids, once each.
- `OwnedGamesSync.UpsertOwnedGamesOnly` takes appids that are already integers.
  A non-integer `appid` value in an incoming record is not modelled.
- `Recommendations.SortDesc` keeps tied candidates in input order, as Python's
  stable `sorted` does. That stability follows from the definition but is not
  stated as a contract.
