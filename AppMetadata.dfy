/** Storefront metadata: the defensive normaliser that turns an appdetails
    payload into a record, the upsert of that record into apps, genres,
    categories and their link rows, and the per-user backfill
    (app/services/app_metadata.py). */
module AppMetadata {
  import opened PyJson
  import opened Store

  // ---------------------------------------------------------------------
  // _safe_get
  // ---------------------------------------------------------------------

  /** Walking `path` through nested dicts: the value reached, or None as soon
      as a step meets a non-dict or a missing key. */
  function Walk(current: Json, path: seq<string>): Option<Json>
    decreases |path|
  {
    if path == [] then Some(current)
    else if current.JObj? && path[0] in current.fields then Walk(current.fields[path[0]], path[1..])
    else None
  }

  /** What `_safe_get(data, path, default)` returns. */
  function Nested(data: Json, path: seq<string>, default: Json): Json {
    match Walk(data, path)
    case Some(v) => v
    case None => default
  }

  /** Walking `p + q` is walking `p`, then walking `q` from where `p` ended;
      a walk that stops early stays stopped. */
  lemma {:induction false} WalkConcat(d: Json, p: seq<string>, q: seq<string>)
    ensures Walk(d, p + q) == match Walk(d, p)
                              case None => None
                              case Some(v) => Walk(v, q)
    decreases |p|
  {
    if p == [] {
      assert p + q == q;
    } else {
      assert (p + q)[1..] == p[1..] + q;
      if d.JObj? && p[0] in d.fields {
        WalkConcat(d.fields[p[0]], p[1..], q);
      }
    }
  }

  lemma SplitAt(path: seq<string>, i: nat)
    requires i <= |path|
    ensures path[..i] + path[i..] == path
  {
  }

  /** `_safe_get`: the loop that reassigns `current` step by step. */
  method SafeGet(data: Json, path: seq<string>, default: Json) returns (r: Json)
    ensures r == Nested(data, path, default)
    ensures path == [] ==> r == data
  {
    var current := data;
    for i := 0 to |path|
      invariant Walk(data, path[..i]) == Some(current)
    {
      var k := path[i];
      WalkConcat(data, path[..i], [k]);
      assert path[..i + 1] == path[..i] + [k];
      if !current.JObj? || k !in current.fields {
        WalkConcat(data, path[..i + 1], path[i + 1..]);
        SplitAt(path, i + 1);
        return default;
      }
      current := current.fields[k];
    }
    assert path[..|path|] == path;
    return current;
  }

  // ---------------------------------------------------------------------
  // _parse_app_payload
  // ---------------------------------------------------------------------

  /** The normalised record `_parse_app_payload` returns. */
  datatype AppMeta = AppMeta(
    appid: int,
    name: Json,
    kind: Json,
    isFree: bool,
    metacriticScore: Option<int>,
    recommendationsTotal: Option<int>,
    genres: seq<Json>,
    categories: seq<Json>)

  /** `isinstance(x, dict) and x.get("description")` */
  predicate Described(x: Json) {
    x.JObj? && Truthy(GetOr(x.fields, "description", JNull))
  }

  /** The description of every described entry, in order, duplicates kept. */
  function Descriptions(xs: seq<Json>): (r: seq<Json>)
    ensures |r| <= |xs|
    ensures forall y :: y in r ==> Truthy(y)
    decreases |xs|
  {
    if xs == [] then []
    else
      (if Described(xs[0]) then [xs[0].fields["description"]] else []) + Descriptions(xs[1..])
  }

  /** The filter is applied entry by entry, so it preserves order. */
  lemma {:induction false} DescriptionsAppend(xs: seq<Json>, ys: seq<Json>)
    ensures Descriptions(xs + ys) == Descriptions(xs) + Descriptions(ys)
    decreases |xs|
  {
    if xs == [] {
      assert xs + ys == ys;
    } else {
      var head := if Described(xs[0]) then [xs[0].fields["description"]] else [];
      assert (xs + ys)[0] == xs[0];
      assert (xs + ys)[1..] == xs[1..] + ys;
      assert Descriptions(xs + ys) == head + Descriptions(xs[1..] + ys);
      DescriptionsAppend(xs[1..], ys);
      assert head + (Descriptions(xs[1..]) + Descriptions(ys)) == (head + Descriptions(xs[1..])) + Descriptions(ys);
    }
  }

  /** Exactly the described entries contribute: every described entry's
      description is kept, and every kept value is such a description. */
  lemma {:induction false} DescriptionsExactly(xs: seq<Json>)
    ensures forall x :: x in xs && Described(x) ==> x.fields["description"] in Descriptions(xs)
    ensures forall y :: y in Descriptions(xs) ==>
              exists x :: x in xs && Described(x) && x.fields["description"] == y
    decreases |xs|
  {
    if xs != [] {
      DescriptionsExactly(xs[1..]);
      assert xs == [xs[0]] + xs[1..];
      forall y | y in Descriptions(xs)
        ensures exists x :: x in xs && Described(x) && x.fields["description"] == y
      {
        if y !in Descriptions(xs[1..]) {
          assert Described(xs[0]) && y == xs[0].fields["description"];
        } else {
          var x :| x in xs[1..] && Described(x) && x.fields["description"] == y;
          assert x in xs;
        }
      }
    }
  }

  /** `[e.get("description") for e in data.get(field, []) if ...]`: a list is
      filtered; a str iterates characters and a dict its keys, none of them a
      dict, so both give []; iterating None, a bool or an int raises. */
  function DescriptionList(data: map<string, Json>, field: string): (r: Outcome<seq<Json>>)
    ensures field !in data ==> r == Returns([])
    ensures field in data && data[field].JList? ==> r == Returns(Descriptions(data[field].items))
    ensures field in data && (data[field].JStr? || data[field].JObj?) ==> r == Returns([])
    ensures r.Raises? <==> field in data && (data[field].JNull? || data[field].JBool? || data[field].JInt?)
  {
    match GetOr(data, field, JList([]))
    case JList(xs) => Returns(Descriptions(xs))
    case JStr(_) => Returns([])
    case JObj(_) => Returns([])
    case _ => Raises
  }

  /** The coercion of an optional number: `int(v)` when `v` is not None, and
      None when that raises TypeError or ValueError. */
  function OptionalInt(v: Json): (r: Option<int>)
    ensures r.None? <==> v == JNull || PyInt(v).Raises?
    ensures r.Some? ==> PyInt(v) == Returns(r.value)
    ensures v.JInt? ==> r == Some(v.i)
  {
    if v == JNull then None
    else match PyInt(v)
      case Returns(i) => Some(i)
      case Raises => None
  }

  /** `raw.get(str(appid))` */
  function BlockOf(raw: map<string, Json>, appid: int): Json {
    GetOr(raw, IntRepr(appid), JNull)
  }

  /** `_parse_app_payload(raw, appid)`: None for expected gaps in the data,
      an exception where Python would meet a value of the wrong kind. */
  function ParseAppPayload(raw: Json, appid: int): Outcome<Option<AppMeta>> {
    if !raw.JObj? then Raises
    else
      var block := BlockOf(raw.fields, appid);
      if !Truthy(block) then Returns(None)
      else if !block.JObj? then Raises
      else if !Truthy(GetOr(block.fields, "success", JNull)) then Returns(None)
      else
        var data := GetOr(block.fields, "data", JObj(map[]));
        if !data.JObj? then Raises
        else ParseData(data.fields)
  }

  /** The record built from the `data` dict of a successful block. */
  function ParseData(data: map<string, Json>): Outcome<Option<AppMeta>> {
    var steamAppid := GetOr(data, "steam_appid", JNull);
    var name := GetOr(data, "name", JNull);
    if steamAppid == JNull || name == JNull then Returns(None)
    else
      var genres := DescriptionList(data, "genres");
      var categories := DescriptionList(data, "categories");
      var id := PyInt(steamAppid);
      if genres.Raises? || categories.Raises? || id.Raises? then Raises
      else
        Returns(Some(AppMeta(
          id.value,
          name,
          GetOr(data, "type", JNull),
          Truthy(GetOr(data, "is_free", JBool(false))),
          OptionalInt(Nested(JObj(data), ["metacritic", "score"], JNull)),
          OptionalInt(Nested(JObj(data), ["recommendations", "total"], JNull)),
          genres.value,
          categories.value)))
  }

  /** The `data` dict of a well-formed, successful block. */
  predicate HasData(raw: Json, appid: int) {
    && raw.JObj?
    && var block := BlockOf(raw.fields, appid);
    && Truthy(block) && block.JObj?
    && Truthy(GetOr(block.fields, "success", JNull))
    && GetOr(block.fields, "data", JObj(map[])).JObj?
  }

  function DataOf(raw: Json, appid: int): map<string, Json>
    requires HasData(raw, appid)
  {
    GetOr(BlockOf(raw.fields, appid).fields, "data", JObj(map[])).fields
  }

  /** Missing, falsy and unsuccessful blocks are expected gaps: None, not an error. */
  lemma ParseRejectsUnsuccessful(raw: Json, appid: int)
    requires raw.JObj?
    requires var block := BlockOf(raw.fields, appid);
             !Truthy(block) || (block.JObj? && !Truthy(GetOr(block.fields, "success", JNull)))
    ensures ParseAppPayload(raw, appid) == Returns(None)
  {
  }

  /** A record is produced exactly when the block is a successful dict whose
      data carries a non-null steam_appid that `int()` accepts, a non-null
      name, and iterable genre and category fields. */
  lemma ParseSucceedsIff(raw: Json, appid: int)
    ensures ParseAppPayload(raw, appid).Returns? && ParseAppPayload(raw, appid).value.Some? <==>
            && HasData(raw, appid)
            && var data := DataOf(raw, appid);
            && GetOr(data, "steam_appid", JNull) != JNull
            && GetOr(data, "name", JNull) != JNull
            && PyInt(GetOr(data, "steam_appid", JNull)).Returns?
            && DescriptionList(data, "genres").Returns?
            && DescriptionList(data, "categories").Returns?
  {
  }

  /** What a produced record holds: the appid is `int(steam_appid)`, the name
      is the raw name, the type is `data.get("type")`, `is_free` is
      `bool(data.get("is_free", False))`, the optional numbers are their
      coercions, and the genre and category lists are the comprehensions'
      results. */
  lemma ParsedRecord(raw: Json, appid: int)
    requires ParseAppPayload(raw, appid).Returns? && ParseAppPayload(raw, appid).value.Some?
    ensures HasData(raw, appid)
    ensures var data := DataOf(raw, appid);
            var m := ParseAppPayload(raw, appid).value.value;
            && PyInt(data["steam_appid"]) == Returns(m.appid)
            && m.name == data["name"] != JNull
            && m.kind == GetOr(data, "type", JNull)
            && m.isFree == Truthy(GetOr(data, "is_free", JBool(false)))
            && ("is_free" !in data ==> !m.isFree)
            && m.metacriticScore == OptionalInt(Nested(JObj(data), ["metacritic", "score"], JNull))
            && m.recommendationsTotal == OptionalInt(Nested(JObj(data), ["recommendations", "total"], JNull))
            && DescriptionList(data, "genres") == Returns(m.genres)
            && DescriptionList(data, "categories") == Returns(m.categories)
            && ("genres" in data && data["genres"].JList? ==> m.genres == Descriptions(data["genres"].items))
            && ("categories" in data && data["categories"].JList? ==> m.categories == Descriptions(data["categories"].items))
  {
  }

  /** A metacritic score or recommendation total of the wrong kind is dropped
      to None; it never decides whether a record is produced. */
  lemma CoercionNeverRejects(raw: Json, appid: int, block: map<string, Json>, data: map<string, Json>, junk: Json)
    requires raw.JObj? && BlockOf(raw.fields, appid) == JObj(block)
    requires Truthy(GetOr(block, "success", JNull)) && GetOr(block, "data", JNull) == JObj(data)
    ensures var raw' := JObj(raw.fields[IntRepr(appid) := JObj(block["data" := JObj(data["metacritic" := JObj(map["score" := junk])])])]);
            && ParseAppPayload(raw', appid) == (match ParseAppPayload(raw, appid)
                                               case Raises => Raises
                                               case Returns(None) => Returns(None)
                                               case Returns(Some(m)) => Returns(Some(m.(metacriticScore := OptionalInt(junk)))))
  {
    var data' := data["metacritic" := JObj(map["score" := junk])];
    var raw' := JObj(raw.fields[IntRepr(appid) := JObj(block["data" := JObj(data')])]);
    assert BlockOf(raw'.fields, appid) == JObj(block["data" := JObj(data')]);
    assert ParseAppPayload(raw, appid) == ParseData(data);
    assert ParseAppPayload(raw', appid) == ParseData(data');
    CoercionInData(data, junk);
  }

  lemma CoercionInData(data: map<string, Json>, junk: Json)
    ensures ParseData(data["metacritic" := JObj(map["score" := junk])])
            == match ParseData(data)
               case Raises => Raises
               case Returns(None) => Returns(None)
               case Returns(Some(m)) => Returns(Some(m.(metacriticScore := OptionalInt(junk))))
  {
    var data' := data["metacritic" := JObj(map["score" := junk])];
    forall k | k in ["steam_appid", "name", "type", "is_free", "genres", "categories", "recommendations"]
      ensures GetOr(data', k, JNull) == GetOr(data, k, JNull)
    {
    }
    assert DescriptionList(data', "genres") == DescriptionList(data, "genres");
    assert DescriptionList(data', "categories") == DescriptionList(data, "categories");
    assert Nested(JObj(data'), ["metacritic", "score"], JNull) == junk;
    assert Nested(JObj(data'), ["recommendations", "total"], JNull) == Nested(JObj(data), ["recommendations", "total"], JNull);
  }

  /** `fetch_app_details(appid)`: `response` is what `_request_appdetails`
      returned, None when the request failed in any way (it swallows every
      error); a falsy body also yields None. */
  function FetchAppDetails(response: Option<Json>, appid: int): Outcome<Option<AppMeta>> {
    if response.None? || !Truthy(response.value) then Returns(None)
    else ParseAppPayload(response.value, appid)
  }

  /** A failed request or a falsy body is "no metadata", not an error. */
  lemma FailedFetchIsNone(response: Option<Json>, appid: int)
    requires response.None? || !Truthy(response.value)
    ensures FetchAppDetails(response, appid) == Returns(None)
  {
  }

  // ---------------------------------------------------------------------
  // upsert_app_metadata
  // ---------------------------------------------------------------------

  /** The scalar columns an upsert writes, the same on create and on update. */
  function Scalars(m: AppMeta): AppRec {
    AppRec(m.name, m.kind, m.isFree, m.metacriticScore, m.recommendationsTotal)
  }

  /** Get-or-create by name: the existing id, or a newly assigned one. */
  function GetOrCreate(t: NameTable, name: Json): (NameTable, int) {
    if name in t.ids then (t, t.ids[name])
    else (NameTable(t.ids[name := t.next], t.next + 1), t.next)
  }

  /** Get-or-create for each name in turn; the ids in the order of the names. */
  function Resolve(t: NameTable, names: seq<Json>): (NameTable, seq<int>)
    decreases |names|
  {
    if names == [] then (t, [])
    else
      var (t1, ids) := Resolve(t, names[..|names| - 1]);
      var (t2, id) := GetOrCreate(t1, names[|names| - 1]);
      (t2, ids + [id])
  }

  /** One step of get-or-create: the name is present afterwards with the
      returned id, old names keep their ids, and the table stays well-formed. */
  lemma GetOrCreateFacts(t: NameTable, name: Json)
    ensures var (t', id) := GetOrCreate(t, name);
            && t'.ids.Keys == t.ids.Keys + {name}
            && t'.ids[name] == id
            && (forall n :: n in t.ids ==> t'.ids[n] == t.ids[n])
            && t.next <= t'.next
            && (TableOk(t) ==> TableOk(t'))
  {
  }

  /** One id per name, each the resolved table's id for that name. */
  lemma {:induction false} ResolveIds(t: NameTable, names: seq<Json>)
    ensures var (t', ids) := Resolve(t, names);
            && |ids| == |names|
            && forall i :: 0 <= i < |names| ==> names[i] in t'.ids && t'.ids[names[i]] == ids[i]
    decreases |names|
  {
    if names != [] {
      var init := names[..|names| - 1];
      ResolveIds(t, init);
      var (t1, ids1) := Resolve(t, init);
      GetOrCreateFacts(t1, names[|names| - 1]);
      var (t', ids) := Resolve(t, names);
      forall i | 0 <= i < |names|
        ensures names[i] in t'.ids && t'.ids[names[i]] == ids[i]
      {
        if i < |names| - 1 {
          assert names[i] == init[i];
        }
      }
    }
  }

  /** The resolved table holds exactly the old names plus the listed ones,
      and old names keep their ids. */
  lemma {:induction false} ResolveKeys(t: NameTable, names: seq<Json>)
    ensures var t' := Resolve(t, names).0;
            && t'.ids.Keys == t.ids.Keys + (set n | n in names)
            && (forall n :: n in t.ids ==> n in t'.ids && t'.ids[n] == t.ids[n])
    decreases |names|
  {
    if names != [] {
      var init := names[..|names| - 1];
      var last := names[|names| - 1];
      ResolveKeys(t, init);
      GetOrCreateFacts(Resolve(t, init).0, last);
      assert (set n | n in names) == (set n | n in init) + {last} by {
        assert names == init + [last];
      }
    }
  }

  /** Resolving never lowers the next id and keeps the table well-formed. */
  lemma {:induction false} ResolveOk(t: NameTable, names: seq<Json>)
    ensures var t' := Resolve(t, names).0;
            && t.next <= t'.next
            && (TableOk(t) ==> TableOk(t'))
    decreases |names|
  {
    if names != [] {
      ResolveOk(t, names[..|names| - 1]);
      GetOrCreateFacts(Resolve(t, names[..|names| - 1]).0, names[|names| - 1]);
    }
  }

  /** Both of the above: the table grows by the listed names, old names keep
      their ids, and well-formedness is kept. */
  lemma ResolveGrows(t: NameTable, names: seq<Json>)
    ensures var t' := Resolve(t, names).0;
            && t'.ids.Keys == t.ids.Keys + (set n | n in names)
            && (forall n :: n in t.ids ==> n in t'.ids && t'.ids[n] == t.ids[n])
            && t.next <= t'.next
            && (TableOk(t) ==> TableOk(t'))
  {
    ResolveKeys(t, names);
    ResolveOk(t, names);
  }

  /** Resolving names the table already holds changes nothing. */
  lemma {:induction false} ResolvePresent(t: NameTable, names: seq<Json>)
    requires forall n :: n in names ==> n in t.ids
    ensures Resolve(t, names).0 == t
    decreases |names|
  {
    if names != [] {
      ResolvePresent(t, names[..|names| - 1]);
      assert names[|names| - 1] in names;
    }
  }

  /** The links for one app: a pair per resolved id. */
  function LinksOf(appid: int, ids: seq<int>): set<(int, int)> {
    set id | id in ids :: (appid, id)
  }

  /** The whole effect of upserting a record on the catalog: the app row is
      written, every name is got-or-created, and missing links are added. */
  function UpsertMeta(c: Catalog, m: AppMeta): Catalog {
    var (g, gids) := Resolve(c.genres, m.genres);
    var (k, kids) := Resolve(c.categories, m.categories);
    Catalog(
      c.apps[m.appid := Scalars(m)],
      g,
      k,
      c.genreLinks + LinksOf(m.appid, gids),
      c.categoryLinks + LinksOf(m.appid, kids))
  }

  /** `upsert_app_metadata(appid)` given the response of the request: its
      result (the stored app's id, or None) and the catalog afterwards. */
  function Upsert(c: Catalog, appid: int, response: Option<Json>): (Outcome<Option<int>>, Catalog) {
    match FetchAppDetails(response, appid)
    case Raises => (Raises, c)
    case Returns(None) => (Returns(None), c)
    case Returns(Some(m)) => (Returns(Some(m.appid)), UpsertMeta(c, m))
  }

  /** After an upsert the app row holds the record's scalar fields, created
      or updated alike, and no other app changes; every listed genre and
      category exists, pre-existing names keep their ids, and no name appears
      that the record does not list. */
  lemma UpsertMetaRows(c: Catalog, m: AppMeta)
    ensures var c' := UpsertMeta(c, m);
            && c'.apps.Keys == c.apps.Keys + {m.appid}
            && c'.apps[m.appid] == AppRec(m.name, m.kind, m.isFree, m.metacriticScore, m.recommendationsTotal)
            && (forall a :: a in c.apps && a != m.appid ==> c'.apps[a] == c.apps[a])
            && (forall n :: n in c.genres.ids ==> n in c'.genres.ids && c'.genres.ids[n] == c.genres.ids[n])
            && (forall n :: n in c.categories.ids ==> n in c'.categories.ids && c'.categories.ids[n] == c.categories.ids[n])
            && c'.genres.ids.Keys == c.genres.ids.Keys + (set n | n in m.genres)
            && c'.categories.ids.Keys == c.categories.ids.Keys + (set n | n in m.categories)
  {
    ResolveGrows(c.genres, m.genres);
    ResolveGrows(c.categories, m.categories);
  }

  /** Every name the record lists is linked to the app, each link the
      upsert adds belongs to this app, and no link is removed. */
  lemma UpsertMetaLinks(c: Catalog, m: AppMeta)
    ensures var c' := UpsertMeta(c, m);
            && (forall n :: n in m.genres ==> n in c'.genres.ids && (m.appid, c'.genres.ids[n]) in c'.genreLinks)
            && (forall n :: n in m.categories ==> n in c'.categories.ids && (m.appid, c'.categories.ids[n]) in c'.categoryLinks)
            && c.genreLinks <= c'.genreLinks
            && c.categoryLinks <= c'.categoryLinks
            && (forall l :: l in c'.genreLinks - c.genreLinks ==> l.0 == m.appid)
            && (forall l :: l in c'.categoryLinks - c.categoryLinks ==> l.0 == m.appid)
  {
    var c' := UpsertMeta(c, m);
    var (g, gids) := Resolve(c.genres, m.genres);
    var (k, kids) := Resolve(c.categories, m.categories);
    ResolveIds(c.genres, m.genres);
    ResolveIds(c.categories, m.categories);
    forall n | n in m.genres
      ensures n in g.ids && (m.appid, g.ids[n]) in c'.genreLinks
    {
      var i :| 0 <= i < |m.genres| && m.genres[i] == n;
      assert gids[i] in gids;
    }
    forall n | n in m.categories
      ensures n in k.ids && (m.appid, k.ids[n]) in c'.categoryLinks
    {
      var i :| 0 <= i < |m.categories| && m.categories[i] == n;
      assert kids[i] in kids;
    }
  }

  /** Link rows added for resolved ids point at the app and at existing rows of
      the resolved table. */
  lemma LinksOfResolvedOk(apps: map<int, AppRec>, t: NameTable, links: set<(int, int)>, appid: int, names: seq<Json>)
    requires LinksOk(apps, t, links)
    requires appid in apps
    ensures var (t', ids) := Resolve(t, names);
            LinksOk(apps, t', links + LinksOf(appid, ids))
  {
    var (t', ids) := Resolve(t, names);
    ResolveIds(t, names);
    ResolveGrows(t, names);
    forall l | l in links + LinksOf(appid, ids)
      ensures l.0 in apps && l.1 in t'.ids.Values
    {
      if l !in links {
        var i :| 0 <= i < |ids| && l == (appid, ids[i]);
        assert t'.ids[names[i]] == l.1;
      } else {
        var n :| n in t.ids && t.ids[n] == l.1;
        assert t'.ids[n] == l.1;
      }
    }
  }

  /** An upsert keeps the store well-formed: names unique, ids fresh, every
      link joining an existing app to an existing lookup row. */
  lemma UpsertMetaKeepsOk(c: Catalog, m: AppMeta)
    requires CatalogOk(c)
    ensures CatalogOk(UpsertMeta(c, m))
  {
    var apps' := c.apps[m.appid := Scalars(m)];
    assert LinksOk(apps', c.genres, c.genreLinks);
    assert LinksOk(apps', c.categories, c.categoryLinks);
    LinksOfResolvedOk(apps', c.genres, c.genreLinks, m.appid, m.genres);
    LinksOfResolvedOk(apps', c.categories, c.categoryLinks, m.appid, m.categories);
    ResolveGrows(c.genres, m.genres);
    ResolveGrows(c.categories, m.categories);
  }

  /** The same with the owned rows: apps only grow, so every owned row
      still refers to an existing app. */
  lemma UpsertMetaKeepsValid(c: Catalog, owned: map<(int, int), OwnedRow>, m: AppMeta)
    requires CatalogOk(c) && OwnedOk(c.apps, owned)
    ensures CatalogOk(UpsertMeta(c, m)) && OwnedOk(UpsertMeta(c, m).apps, owned)
  {
    UpsertMetaKeepsOk(c, m);
  }

  /** Upserting the same record twice gives the same catalog as upserting it
      once: no second app row, no duplicate names, no duplicate links. */
  lemma UpsertMetaIdempotent(c: Catalog, m: AppMeta)
    ensures UpsertMeta(UpsertMeta(c, m), m) == UpsertMeta(c, m)
  {
    var c1 := UpsertMeta(c, m);
    var (g, gids) := Resolve(c.genres, m.genres);
    var (k, kids) := Resolve(c.categories, m.categories);
    ResolveIds(c.genres, m.genres);
    ResolveIds(c.categories, m.categories);
    ResolvePresent(g, m.genres);
    ResolvePresent(k, m.categories);
    ResolveIds(g, m.genres);
    ResolveIds(k, m.categories);
    var (g2, gids2) := Resolve(g, m.genres);
    var (k2, kids2) := Resolve(k, m.categories);
    assert gids2 == gids;
    assert kids2 == kids;
  }

  /** The same for the whole call: a repeated upsert with the same response
      returns the same result and leaves the catalog as the first one did. */
  lemma UpsertIdempotent(c: Catalog, appid: int, response: Option<Json>)
    ensures var (r1, c1) := Upsert(c, appid, response);
            Upsert(c1, appid, response) == (r1, c1)
  {
    match FetchAppDetails(response, appid)
    case Raises =>
    case Returns(None) =>
    case Returns(Some(m)) =>
      UpsertMetaIdempotent(c, m);
  }

  /** The get-or-create loop over one list of names (`genre_ids` /
      `category_ids`): each name is looked up and inserted when absent. */
  method ResolveNames(table: NameTable, names: seq<Json>) returns (t: NameTable, ids: seq<int>)
    ensures (t, ids) == Resolve(table, names)
  {
    t, ids := table, [];
    for i := 0 to |names|
      invariant (t, ids) == Resolve(table, names[..i])
    {
      assert names[..i + 1][..i] == names[..i];
      var id;
      if names[i] in t.ids {
        id := t.ids[names[i]];
      } else {
        id := t.next;
        t := NameTable(t.ids[names[i] := id], id + 1);
      }
      ids := ids + [id];
    }
    assert names[..|names|] == names;
  }

  lemma LinksOfSnoc(appid: int, ids: seq<int>, id: int)
    ensures LinksOf(appid, ids + [id]) == LinksOf(appid, ids) + {(appid, id)}
  {
    assert forall x :: x in ids + [id] <==> x in ids || x == id;
  }

  /** The pivot loop: a link row per id, inserted only when absent. */
  method AddLinks(links: set<(int, int)>, appid: int, ids: seq<int>) returns (r: set<(int, int)>)
    ensures r == links + LinksOf(appid, ids)
  {
    r := links;
    for i := 0 to |ids|
      invariant r == links + LinksOf(appid, ids[..i])
    {
      assert ids[..i + 1] == ids[..i] + [ids[i]];
      LinksOfSnoc(appid, ids[..i], ids[i]);
      if (appid, ids[i]) !in r {
        r := r + {(appid, ids[i])};
      }
    }
    assert ids[..|ids|] == ids;
  }

  /** The store writes of one upsert once a record is parsed: the app row,
      created or updated in place, then the names and the link rows. */
  method StoreRecord(db: Db, meta: AppMeta)
    requires db.Valid()
    modifies db
    ensures db.Metadata() == UpsertMeta(old(db.Metadata()), meta)
    ensures db.owned == old(db.owned)
    ensures db.Valid()
  {
    UpsertMetaKeepsValid(db.Metadata(), db.owned, meta);
    if meta.appid !in db.apps {
      db.apps := db.apps[meta.appid := AppRec(meta.name, meta.kind, meta.isFree,
                                              meta.metacriticScore, meta.recommendationsTotal)];
    } else {
      var app := db.apps[meta.appid];
      db.apps := db.apps[meta.appid := app.(name := meta.name, kind := meta.kind, isFree := meta.isFree,
                                             metacriticScore := meta.metacriticScore,
                                             recommendationsTotal := meta.recommendationsTotal)];
    }
    var genreIds, categoryIds;
    db.genres, genreIds := ResolveNames(db.genres, meta.genres);
    db.categories, categoryIds := ResolveNames(db.categories, meta.categories);
    db.genreLinks := AddLinks(db.genreLinks, meta.appid, genreIds);
    db.categoryLinks := AddLinks(db.categoryLinks, meta.appid, categoryIds);
  }

  /** `upsert_app_metadata(appid)`: `response` is what the storefront request
      produced (None when it failed). The store changes exactly as `Upsert`
      says: not at all when the payload yields no record. */
  method UpsertAppMetadata(db: Db, appid: int, response: Option<Json>) returns (r: Outcome<Option<int>>)
    requires db.Valid()
    modifies db
    ensures (r, db.Metadata()) == Upsert(old(db.Metadata()), appid, response)
    ensures r != Returns(None) || db.Metadata() == old(db.Metadata())
    ensures db.owned == old(db.owned)
    ensures db.Valid()
  {
    var fetched := FetchAppDetails(response, appid);
    if fetched.Raises? {
      return Raises;
    }
    if fetched.value.None? {
      return Returns(None);
    }
    var meta := fetched.value.value;
    StoreRecord(db, meta);
    r := Returns(Some(meta.appid));
  }

  // ---------------------------------------------------------------------
  // backfill_metadata_for_user
  // ---------------------------------------------------------------------

  /** The appids of `query(OwnedGame.appid).filter(user).limit(limit)`: the
      first `limit` of the user's rows, in the order the store returns them. */
  function OwnedPrefix(scan: seq<int>, limit: nat): (r: seq<int>)
    ensures |r| == if limit < |scan| then limit else |scan|
    ensures r == scan[..|r|]
  {
    if limit < |scan| then scan[..limit] else scan
  }

  /** `[a for a in appids if a not in existing]`, where `existing` are the
      appids that already have an App row. */
  function Missing(apps: map<int, AppRec>, appids: seq<int>): (r: seq<int>)
    ensures |r| <= |appids|
    ensures forall a :: a in r <==> a in appids && a !in apps
    decreases |appids|
  {
    if appids == [] then []
    else (if appids[0] !in apps then [appids[0]] else []) + Missing(apps, appids[1..])
  }

  /** Where the backfill loop stands: the catalog, the count so far, and
      whether an upsert raised (which ends the loop; earlier upserts have
      already been committed). */
  datatype Progress = Progress(catalog: Catalog, count: nat, raised: bool)

  /** One iteration: upsert `appid` unless an earlier upsert raised, and
      count it when it produced an app. */
  function BackfillStep(prev: Progress, appid: int, response: Option<Json>): (p: Progress)
    ensures p.count <= prev.count + 1
  {
    if prev.raised then prev
    else
      var (r, c') := Upsert(prev.catalog, appid, response);
      match r
      case Raises => Progress(c', prev.count, true)
      case Returns(None) => Progress(c', prev.count, false)
      case Returns(Some(_)) => Progress(c', prev.count + 1, false)
  }

  /** The loop `for appid in missing: if upsert_app_metadata(appid): count += 1`;
      `fetch(a)` is the storefront response for appid `a`. */
  function Backfill(c: Catalog, missing: seq<int>, fetch: int -> Option<Json>): (p: Progress)
    ensures p.count <= |missing|
    decreases |missing|
  {
    if missing == [] then Progress(c, 0, false)
    else
      var appid := missing[|missing| - 1];
      BackfillStep(Backfill(c, missing[..|missing| - 1], fetch), appid, fetch(appid))
  }

  /** Once an upsert has raised, the rest of the list is never reached. */
  lemma {:induction false} BackfillStopsAtRaise(c: Catalog, missing: seq<int>, k: nat, fetch: int -> Option<Json>)
    requires k <= |missing|
    requires Backfill(c, missing[..k], fetch).raised
    ensures Backfill(c, missing, fetch) == Backfill(c, missing[..k], fetch)
    decreases |missing| - k
  {
    if k < |missing| {
      assert missing[..k + 1][..k] == missing[..k];
      BackfillStopsAtRaise(c, missing, k + 1, fetch);
    } else {
      assert missing[..k] == missing;
    }
  }

  /** The backfill keeps the store well-formed, never removes an app, a
      name or a link, and never changes the id of an existing name. */
  lemma {:induction false} BackfillMonotone(c: Catalog, missing: seq<int>, fetch: int -> Option<Json>)
    requires CatalogOk(c)
    ensures var c' := Backfill(c, missing, fetch).catalog;
            && CatalogOk(c')
            && c.apps.Keys <= c'.apps.Keys
            && c.genreLinks <= c'.genreLinks && c.categoryLinks <= c'.categoryLinks
            && (forall n :: n in c.genres.ids ==> n in c'.genres.ids && c'.genres.ids[n] == c.genres.ids[n])
            && (forall n :: n in c.categories.ids ==> n in c'.categories.ids && c'.categories.ids[n] == c.categories.ids[n])
    decreases |missing|
  {
    if missing != [] {
      var prev := Backfill(c, missing[..|missing| - 1], fetch);
      BackfillMonotone(c, missing[..|missing| - 1], fetch);
      if !prev.raised {
        var appid := missing[|missing| - 1];
        match FetchAppDetails(fetch(appid), appid)
        case Raises =>
        case Returns(None) =>
        case Returns(Some(m)) =>
          UpsertMetaKeepsOk(prev.catalog, m);
          UpsertMetaRows(prev.catalog, m);
          UpsertMetaLinks(prev.catalog, m);
      }
    }
  }

  /** The loop over the missing appids, each upserted with the response
      `fetch` gives for it. */
  method UpsertMissing(db: Db, missing: seq<int>, fetch: int -> Option<Json>) returns (r: Outcome<nat>)
    requires db.Valid()
    modifies db
    ensures var run := Backfill(old(db.Metadata()), missing, fetch);
            && db.Metadata() == run.catalog
            && r == (if run.raised then Raises else Returns(run.count))
    ensures db.owned == old(db.owned)
    ensures db.Valid()
  {
    var count := 0;
    ghost var c0 := db.Metadata();
    for i := 0 to |missing|
      invariant Backfill(c0, missing[..i], fetch) == Progress(db.Metadata(), count, false)
      invariant db.owned == old(db.owned)
      invariant db.Valid()
    {
      assert missing[..i + 1][..i] == missing[..i];
      ghost var before := Progress(db.Metadata(), count, false);
      ghost var after := BackfillStep(before, missing[i], fetch(missing[i]));
      assert Backfill(c0, missing[..i + 1], fetch) == after;
      var upserted := UpsertAppMetadata(db, missing[i], fetch(missing[i]));
      assert after == Progress(db.Metadata(), if upserted.Returns? && upserted.value.Some? then count + 1 else count, upserted.Raises?);
      if upserted.Raises? {
        BackfillStopsAtRaise(c0, missing, i + 1, fetch);
        return Raises;
      }
      if upserted.value.Some? {
        count := count + 1;
      }
    }
    assert missing[..|missing|] == missing;
    r := Returns(count);
  }

  /** `backfill_metadata_for_user(user_id, limit)`. `scan` lists the user's
      owned appids in the order the store returns the user's rows. The count
      returned is that of the upserts that produced an app; an exception from
      an upsert propagates, with the earlier upserts kept. */
  method BackfillMetadataForUser(db: Db, userId: int, limit: nat, scan: seq<int>, fetch: int -> Option<Json>)
    returns (r: Outcome<nat>)
    requires forall a :: a in scan <==> (userId, a) in db.owned
    requires forall i, j :: 0 <= i < j < |scan| ==> scan[i] != scan[j]
    requires db.Valid()
    modifies db
    ensures var run := Backfill(old(db.Metadata()), Missing(old(db.apps), OwnedPrefix(scan, limit)), fetch);
            && db.Metadata() == run.catalog
            && r == (if run.raised then Raises else Returns(run.count))
    ensures db.owned == old(db.owned)
    ensures db.Valid()
  {
    var appids := OwnedPrefix(scan, limit);
    var missing := Missing(db.apps, appids);
    r := UpsertMissing(db, missing, fetch);
  }
}
