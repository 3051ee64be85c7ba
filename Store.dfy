/** The relational store as the services use it: apps keyed by appid,
    genre and category lookup tables keyed by name, the app-genre and
    app-category link rows, and the per-user owned-game rows. Every ORM
    call is an atomic change of these values. */
module Store {
  import opened PyJson

  /** The App columns the services write. */
  datatype AppRec = AppRec(
    name: Json,
    kind: Json,
    isFree: bool,
    metacriticScore: Option<int>,
    recommendationsTotal: Option<int>)

  /** `App(appid=appid)`: identifier only; `is_free` takes its column default. */
  function Placeholder(): AppRec {
    AppRec(JNull, JNull, false, None, None)
  }

  /** A name-keyed lookup table (Genre or Category): name -> id, and the id
      the store assigns to the next insert. */
  datatype NameTable = NameTable(ids: map<Json, int>, next: int)

  /** Ids are below the next one to be assigned, and names are unique per id. */
  predicate TableOk(t: NameTable) {
    && (forall n :: n in t.ids ==> t.ids[n] < t.next)
    && (forall m, n :: m in t.ids && n in t.ids && m != n ==> t.ids[m] != t.ids[n])
  }

  /** Everything the metadata synchroniser reads and writes. */
  datatype Catalog = Catalog(
    apps: map<int, AppRec>,
    genres: NameTable,
    categories: NameTable,
    genreLinks: set<(int, int)>,
    categoryLinks: set<(int, int)>)

  /** Every link row joins an existing app to an existing lookup row. */
  predicate LinksOk(apps: map<int, AppRec>, t: NameTable, links: set<(int, int)>) {
    forall l :: l in links ==> l.0 in apps && l.1 in t.ids.Values
  }

  predicate CatalogOk(c: Catalog) {
    && TableOk(c.genres)
    && TableOk(c.categories)
    && LinksOk(c.apps, c.genres, c.genreLinks)
    && LinksOk(c.apps, c.categories, c.categoryLinks)
  }

  datatype OwnedRow = OwnedRow(playtimeForever: int, rtimeLastPlayed: Option<int>)

  /** Every owned-game row (user, appid) refers to an existing app. */
  predicate OwnedOk(apps: map<int, AppRec>, owned: map<(int, int), OwnedRow>) {
    forall k :: k in owned ==> k.1 in apps
  }

  /** The database behind `db.session`. */
  class Db {
    var apps: map<int, AppRec>
    var genres: NameTable
    var categories: NameTable
    var genreLinks: set<(int, int)>
    var categoryLinks: set<(int, int)>
    /** (user_id, appid) -> row */
    var owned: map<(int, int), OwnedRow>

    function Metadata(): Catalog
      reads this
    {
      Catalog(apps, genres, categories, genreLinks, categoryLinks)
    }

    predicate Valid()
      reads this
    {
      CatalogOk(Metadata()) && OwnedOk(apps, owned)
    }

    constructor ()
      ensures Valid()
      ensures apps == map[] && owned == map[] && genreLinks == {} && categoryLinks == {}
      ensures genres == NameTable(map[], 1) && categories == NameTable(map[], 1)
    {
      apps := map[];
      genres := NameTable(map[], 1);
      categories := NameTable(map[], 1);
      genreLinks := {};
      categoryLinks := {};
      owned := map[];
    }
  }
}
