/** The Steam Web API client with its in-memory time-to-live response cache
    (app/services/steam_client.py). Every request is keyed by a fingerprint
    of its URL and query parameters; a fresh entry is served from memory, a
    missing or stale one triggers a fetch whose success overwrites the entry
    and whose failure propagates without touching the cache. */
module SteamClient {
  import opened PyJson

  const BaseApi := "https://api.steampowered.com"

  /** The default `cache_ttl` of the constructor, in seconds. */
  const DefaultTtl := 3600

  /** A query-parameter value: the accessors only pass ints and strs. */
  datatype Param = PInt(i: int) | PStr(s: string)

  type Params = seq<(string, Param)>

  /** Python's repr of a parameter value. Quote selection and escaping for
      strings that themselves contain quotes or backslashes are not modelled. */
  function ParamRepr(p: Param): string {
    match p
    case PInt(i) => IntRepr(i)
    case PStr(s) => "'" + s + "'"
  }

  function EntryRepr(e: (string, Param)): string {
    "'" + e.0 + "': " + ParamRepr(e.1)
  }

  function EntriesRepr(ps: Params): string
    decreases |ps|
  {
    if ps == [] then ""
    else if |ps| == 1 then EntryRepr(ps[0])
    else EntryRepr(ps[0]) + ", " + EntriesRepr(ps[1..])
  }

  /** `str(params)` of a dict literal, keys in insertion order. */
  function ParamsRepr(ps: Params): string {
    "{" + EntriesRepr(ps) + "}"
  }

  /** The cache key `f"{url}|{params}"`. */
  function Fingerprint(url: string, params: Params): string {
    url + "|" + ParamsRepr(params)
  }

  function AppDetailsUrl(): string {
    BaseApi + "/api/appdetails"
  }

  function AppDetailsParams(appid: int): Params {
    [("appids", PInt(appid))]
  }

  function ReviewsUrl(appid: int): string {
    BaseApi + "/" + IntRepr(appid)
  }

  function ReviewsParams(): Params {
    [("json", PInt(1)), ("purchase_type", PStr("all")), ("filter", PStr("summary"))]
  }

  function OwnedGamesUrl(): string {
    BaseApi + "/IPlayerService/GetOwnedGames/v0001/"
  }

  function OwnedGamesParams(key: string, steamid: string): Params {
    [("key", PStr(key)), ("steamid", PStr(steamid)),
     ("include_appinfo", PInt(1)), ("include_played_free_games", PInt(1))]
  }

  /** The outcome of the network request: the decoded body, or a failure
      (transport error, non-success status raised by `raise_for_status`,
      undecodable body). */
  datatype Fetch = Fetched(payload: Json) | FetchFailed

  /** fingerprint -> (time fetched, payload) */
  type Cache = map<string, (int, Json)>

  /** An entry is fresh iff its age is strictly below the TTL. */
  predicate Fresh(cache: Cache, key: string, now: int, ttl: int) {
    key in cache && now - cache[key].0 < ttl
  }

  /** What one lookup does: its result, whether it issued a request, and the
      cache afterwards. */
  datatype Step = Step(result: Outcome<Json>, fetched: bool, cache: Cache)

  /** The lookup `_get` performs, as a function of the cache before it. */
  function CachedGet(cache: Cache, ttl: int, key: string, now: int, fetch: Fetch): Step {
    if Fresh(cache, key, now, ttl) then
      Step(Returns(cache[key].1), false, cache)
    else
      match fetch
      case FetchFailed => Step(Raises, true, cache)
      case Fetched(p) => Step(Returns(p), true, cache[key := (now, p)])
  }

  /** `if not self.key`: an absent or empty API key counts as missing. */
  predicate HasKey(apiKey: Option<string>) {
    apiKey.Some? && apiKey.value != ""
  }

  /** `response.get("response", {}) or {}`: the value under `response` when
      it is truthy, otherwise an empty dict. */
  function OwnedBody(response: map<string, Json>): Json {
    var inner := GetOr(response, "response", JObj(map[]));
    if Truthy(inner) then inner else JObj(map[])
  }

  /** The body unwrapping at the end of `owned_games`:
      `(body.get("games", []) or [], int(body.get("game_count", 0) or 0))`.
      Calling `.get` on a payload or body that is not a dict raises, and so
      does `int()` on a count it rejects. */
  function UnwrapOwnedGames(response: Json): (r: Outcome<(Json, int)>)
    ensures r.Raises? <==>
              || !response.JObj?
              || !OwnedBody(response.fields).JObj?
              || (var count := GetOr(OwnedBody(response.fields).fields, "game_count", JNull);
                  Truthy(count) && PyInt(count).Raises?)
    ensures r.Returns? ==>
              var b := OwnedBody(response.fields).fields;
              var games := GetOr(b, "games", JNull);
              var count := GetOr(b, "game_count", JNull);
              && (Truthy(games) ==> r.value.0 == b["games"])
              && (!Truthy(games) ==> r.value.0 == JList([]))
              && (!Truthy(count) ==> r.value.1 == 0)
              && (Truthy(count) ==> PyInt(b["game_count"]) == Returns(r.value.1))
    ensures response.JObj? && !Truthy(GetOr(response.fields, "response", JNull)) ==>
              r == Returns((JList([]), 0))
  {
    if !response.JObj? then Raises
    else
      var body := OwnedBody(response.fields);
      if !body.JObj? then Raises
      else
        var g := GetOr(body.fields, "games", JList([]));
        var games := if Truthy(g) then g else JList([]);
        var c := GetOr(body.fields, "game_count", JInt(0));
        var count := if Truthy(c) then PyInt(c) else Returns(0);
        match count
        case Raises => Raises
        case Returns(n) => Returns((games, n))
  }

  /** The documented shape `{"response": {"game_count": n, "games": [...]}}`
      unwraps to that list and that count; an empty list stays empty. */
  lemma UnwrapDocumentedShape(n: int, games: seq<Json>)
    ensures var body := JObj(map["game_count" := JInt(n), "games" := JList(games)]);
            UnwrapOwnedGames(JObj(map["response" := body])) == Returns((JList(games), n))
  {
    var body := JObj(map["game_count" := JInt(n), "games" := JList(games)]);
    assert "game_count" in body.fields;
    assert OwnedBody(map["response" := body]) == body;
  }

  class Client {
    const ttl: int
    /** `STEAM_API_KEY` read from the environment at construction. */
    const apiKey: Option<string>
    var cache: Cache

    constructor (ttl: int, apiKey: Option<string>)
      ensures this.ttl == ttl && this.apiKey == apiKey
      ensures cache == map[]
    {
      this.ttl := ttl;
      this.apiKey := apiKey;
      cache := map[];
    }

    /** `_get(url, params)`; `now` is the clock reading taken before the
        request, `fetch` what the request would produce. `fetched` is true
        iff a request was issued. */
    method Get(url: string, params: Params, now: int, fetch: Fetch) returns (r: Outcome<Json>, fetched: bool)
      modifies this`cache
      ensures Step(r, fetched, cache) == CachedGet(old(cache), ttl, Fingerprint(url, params), now, fetch)
    {
      var key := Fingerprint(url, params);
      if key in cache {
        var (timestamp, data) := cache[key];
        if now - timestamp < ttl {
          return Returns(data), false;
        }
      }
      fetched := true;
      match fetch
      case FetchFailed =>
        r := Raises;
      case Fetched(data) =>
        cache := cache[key := (now, data)];
        r := Returns(data);
    }

    method AppDetails(appid: int, now: int, fetch: Fetch) returns (r: Outcome<Json>, fetched: bool)
      modifies this`cache
      ensures Step(r, fetched, cache) ==
              CachedGet(old(cache), ttl, Fingerprint(AppDetailsUrl(), AppDetailsParams(appid)), now, fetch)
    {
      r, fetched := Get(AppDetailsUrl(), AppDetailsParams(appid), now, fetch);
    }

    method AppReviewsSummary(appid: int, now: int, fetch: Fetch) returns (r: Outcome<Json>, fetched: bool)
      modifies this`cache
      ensures Step(r, fetched, cache) ==
              CachedGet(old(cache), ttl, Fingerprint(ReviewsUrl(appid), ReviewsParams()), now, fetch)
    {
      r, fetched := Get(ReviewsUrl(appid), ReviewsParams(), now, fetch);
    }

    /** `owned_games(steamid)`: refuses before any lookup when no API key is
        configured, otherwise a cached request whose body is unwrapped. */
    method OwnedGames(steamid: string, now: int, fetch: Fetch) returns (r: Outcome<(Json, int)>, fetched: bool)
      modifies this`cache
      ensures !HasKey(apiKey) ==> r == Raises && !fetched && cache == old(cache)
      ensures HasKey(apiKey) ==>
                var step := CachedGet(old(cache), ttl,
                                      Fingerprint(OwnedGamesUrl(), OwnedGamesParams(apiKey.value, steamid)),
                                      now, fetch);
                && cache == step.cache
                && fetched == step.fetched
                && r == (match step.result
                         case Raises => Raises
                         case Returns(response) => UnwrapOwnedGames(response))
    {
      if !HasKey(apiKey) {
        return Raises, false;
      }
      var response;
      response, fetched := Get(OwnedGamesUrl(), OwnedGamesParams(apiKey.value, steamid), now, fetch);
      match response
      case Raises =>
        r := Raises;
      case Returns(body) =>
        r := UnwrapOwnedGames(body);
    }
  }

  // ---- properties of one lookup ----

  /** A fresh entry is served as stored, with no request and no change. */
  lemma HitServesStored(cache: Cache, ttl: int, key: string, now: int, fetch: Fetch)
    requires key in cache && now - cache[key].0 < ttl
    ensures CachedGet(cache, ttl, key, now, fetch) == Step(Returns(cache[key].1), false, cache)
  {
  }

  /** Freshness is strict: an entry exactly `ttl` old is refetched, and a
      successful refetch stamps it with the new time. */
  lemma AgeEqualToTtlIsStale(cache: Cache, ttl: int, key: string, now: int, p: Json)
    requires key in cache && now - cache[key].0 == ttl
    ensures CachedGet(cache, ttl, key, now, Fetched(p)) == Step(Returns(p), true, cache[key := (now, p)])
  {
  }

  /** A request is issued exactly when the entry is missing or stale. */
  lemma FetchesIffNotFresh(cache: Cache, ttl: int, key: string, now: int, fetch: Fetch)
    ensures CachedGet(cache, ttl, key, now, fetch).fetched <==> !Fresh(cache, key, now, ttl)
  {
  }

  /** A failed request propagates and leaves the whole cache as it was,
      including a stale entry for the same key. */
  lemma FailureLeavesCache(cache: Cache, ttl: int, key: string, now: int)
    ensures var s := CachedGet(cache, ttl, key, now, FetchFailed);
            s.cache == cache && (s.result == Raises <==> !Fresh(cache, key, now, ttl))
  {
  }

  /** Only the entry under `key` can change; there is one entry per key. */
  lemma OnlyKeyChanges(cache: Cache, ttl: int, key: string, now: int, fetch: Fetch)
    ensures var c := CachedGet(cache, ttl, key, now, fetch).cache;
            && c.Keys <= cache.Keys + {key}
            && (forall k :: k in cache && k != key ==> k in c && c[k] == cache[k])
            && (fetch.Fetched? && !Fresh(cache, key, now, ttl) ==> key in c && c[key] == (now, fetch.payload))
  {
  }

  // ---- properties of successive lookups ----

  /** Two identical requests inside the TTL window fetch once: the first
      (on a missing or stale entry) fetches, the second is served from memory. */
  lemma SecondCallWithinTtlIsHit(cache: Cache, ttl: int, key: string, t1: int, t2: int, p: Json, f2: Fetch)
    requires !Fresh(cache, key, t1, ttl)
    requires t1 <= t2 < t1 + ttl
    ensures var s1 := CachedGet(cache, ttl, key, t1, Fetched(p));
            var s2 := CachedGet(s1.cache, ttl, key, t2, f2);
            s1.fetched && !s2.fetched && s2.result == s1.result == Returns(p) && s2.cache == s1.cache
  {
  }

  /** Once the entry is `ttl` old, the next call fetches again and replaces it. */
  lemma ExpiryForcesRefetch(cache: Cache, ttl: int, key: string, t1: int, t2: int, p1: Json, p2: Json)
    requires !Fresh(cache, key, t1, ttl)
    requires t2 >= t1 + ttl
    ensures var c1 := CachedGet(cache, ttl, key, t1, Fetched(p1)).cache;
            CachedGet(c1, ttl, key, t2, Fetched(p2)) == Step(Returns(p2), true, c1[key := (t2, p2)])
  {
  }

  /** A failure is not remembered: the next call on a missing or stale
      entry goes to the network again. */
  lemma FailureIsRetried(cache: Cache, ttl: int, key: string, t1: int, t2: int, f: Fetch)
    requires !Fresh(cache, key, t1, ttl)
    requires t2 >= t1
    ensures CachedGet(CachedGet(cache, ttl, key, t1, FetchFailed).cache, ttl, key, t2, f).fetched
  {
  }

  /** Fetched at t=0 with ttl=3600: a call at 1800 is served from memory,
      a call at 3600, when the entry is exactly one TTL old, fetches and
      replaces it. */
  lemma HourTtlScenario(key: string, p0: Json, p1: Json, f: Fetch)
    ensures var c0 := CachedGet(map[], DefaultTtl, key, 0, Fetched(p0)).cache;
            && CachedGet(c0, DefaultTtl, key, 1800, f) == Step(Returns(p0), false, c0)
            && CachedGet(c0, DefaultTtl, key, 3600, Fetched(p1)) == Step(Returns(p1), true, map[key := (3600, p1)])
  {
    var c0 := CachedGet(map[], DefaultTtl, key, 0, Fetched(p0)).cache;
    assert c0 == map[key := (0, p0)];
    assert c0[key := (3600, p1)] == map[key := (3600, p1)];
  }

  // ---- fingerprints ----

  /** Equal strings with equal heads have equal rests. */
  lemma DropCommonHead(h: string, x: string, y: string)
    requires h + x == h + y
    ensures x == y
  {
    assert x == (h + x)[|h|..];
    assert y == (h + y)[|h|..];
  }

  lemma SeparatorAt(a: string, c: char, s: string)
    ensures (a + [c] + s)[|a|] == c
  {
  }

  /** Cutting two strings at the first occurrence of a separator: when
      neither head contains it, equal strings have equal heads. */
  lemma SameHeadBeforeSeparator(a: string, b: string, c: char, s: string, t: string)
    requires forall i :: 0 <= i < |a| ==> a[i] != c
    requires forall i :: 0 <= i < |b| ==> b[i] != c
    requires a + [c] + s == b + [c] + t
    ensures a == b
  {
    if |a| == |b| {
      assert a == (a + [c] + s)[..|a|];
      assert b == (b + [c] + t)[..|b|];
    } else if |a| < |b| {
      SeparatorAt(a, c, s);
      assert false;
    } else {
      SeparatorAt(b, c, t);
      assert false;
    }
  }

  function AppDetailsHead(): string {
    AppDetailsUrl() + "|{'appids': "
  }

  lemma AppDetailsKeyShape(a: int)
    ensures Fingerprint(AppDetailsUrl(), AppDetailsParams(a)) == AppDetailsHead() + (IntRepr(a) + "}")
  {
  }

  /** Two `app_details` requests share a cache key iff they ask for the same appid. */
  lemma AppDetailsKeyInjective(a: int, b: int)
    ensures Fingerprint(AppDetailsUrl(), AppDetailsParams(a)) == Fingerprint(AppDetailsUrl(), AppDetailsParams(b))
            <==> a == b
  {
    if Fingerprint(AppDetailsUrl(), AppDetailsParams(a)) == Fingerprint(AppDetailsUrl(), AppDetailsParams(b)) {
      AppDetailsKeyShape(a);
      AppDetailsKeyShape(b);
      DropCommonHead(AppDetailsHead(), IntRepr(a) + "}", IntRepr(b) + "}");
      assert IntRepr(a) == (IntRepr(a) + "}")[..|IntRepr(a)|];
      assert IntRepr(b) == (IntRepr(b) + "}")[..|IntRepr(b)|];
      IntReprInjective(a, b);
    }
  }

  lemma ReviewsKeyShape(a: int)
    ensures Fingerprint(ReviewsUrl(a), ReviewsParams()) == (BaseApi + "/") + (IntRepr(a) + ['|'] + ParamsRepr(ReviewsParams()))
  {
  }

  /** Two `app_reviews_summary` requests share a cache key iff they ask for the same appid. */
  lemma ReviewsKeyInjective(a: int, b: int)
    ensures Fingerprint(ReviewsUrl(a), ReviewsParams()) == Fingerprint(ReviewsUrl(b), ReviewsParams())
            <==> a == b
  {
    if Fingerprint(ReviewsUrl(a), ReviewsParams()) == Fingerprint(ReviewsUrl(b), ReviewsParams()) {
      var tail := ParamsRepr(ReviewsParams());
      ReviewsKeyShape(a);
      ReviewsKeyShape(b);
      DropCommonHead(BaseApi + "/", IntRepr(a) + ['|'] + tail, IntRepr(b) + ['|'] + tail);
      SameHeadBeforeSeparator(IntRepr(a), IntRepr(b), '|', tail, tail);
      IntReprInjective(a, b);
    }
  }

  /** A details key never collides with a review-summary key: they part
      at the character after the base URL. */
  lemma DetailsAndReviewsKeysDiffer(a: int, b: int)
    ensures Fingerprint(AppDetailsUrl(), AppDetailsParams(a)) != Fingerprint(ReviewsUrl(b), ReviewsParams())
  {
    var n := |BaseApi + "/"|;
    AppDetailsKeyShape(a);
    ReviewsKeyShape(b);
    assert AppDetailsHead()[n] == 'a';
    assert (AppDetailsHead() + (IntRepr(a) + "}"))[n] == 'a';
    assert ((BaseApi + "/") + (IntRepr(b) + ['|'] + ParamsRepr(ReviewsParams())))[n] == IntRepr(b)[0];
  }
}
