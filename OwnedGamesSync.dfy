/** Reconciling a user's owned-games list with the stored per-(user, app)
    rows (app/services/owned_games_sync.py): one preload of the user's rows,
    then one pass over the incoming records that creates placeholder apps,
    creates or updates rows, and counts what it did. Nothing is committed
    unless the whole pass succeeds. */
module OwnedGamesSync {
  import opened PyJson
  import opened Store

  /** One incoming record: `g.get("appid")`, `g.get("playtime_forever")` and
      `g.get("rtime_last_played")`, each JNull when absent. */
  datatype GameIn = GameIn(appid: Option<int>, playtimeForever: Json, rtimeLastPlayed: Json)

  /** `int(g.get("playtime_forever") or 0)`: missing, null and other falsy
      values become 0. */
  function Playtime(g: GameIn): (r: Outcome<int>)
    ensures !Truthy(g.playtimeForever) ==> r == Returns(0)
    ensures r.Raises? <==> Truthy(g.playtimeForever) && PyInt(g.playtimeForever).Raises?
    ensures r.Returns? && Truthy(g.playtimeForever) ==> PyInt(g.playtimeForever) == r
    ensures g.playtimeForever.JInt? ==> r == Returns(g.playtimeForever.i)
  {
    if Truthy(g.playtimeForever) then PyInt(g.playtimeForever) else Returns(0)
  }

  /** `int(rlp) if rlp is not None else None` */
  function LastPlayed(g: GameIn): (r: Outcome<Option<int>>)
    ensures g.rtimeLastPlayed == JNull ==> r == Returns(None)
    ensures r.Raises? <==> g.rtimeLastPlayed != JNull && PyInt(g.rtimeLastPlayed).Raises?
    ensures r.Returns? && g.rtimeLastPlayed != JNull ==> r.value == Some(PyInt(g.rtimeLastPlayed).value)
    ensures g.rtimeLastPlayed.JInt? ==> r == Returns(Some(g.rtimeLastPlayed.i))
  {
    if g.rtimeLastPlayed == JNull then Returns(None)
    else match PyInt(g.rtimeLastPlayed)
      case Raises => Raises
      case Returns(t) => Returns(Some(t))
  }

  /** The row values a record writes, unless a conversion raises. */
  function RowOf(g: GameIn): (r: Outcome<OwnedRow>)
    ensures r.Raises? <==> Playtime(g).Raises? || LastPlayed(g).Raises?
    ensures r.Returns? ==> Returns(r.value.playtimeForever) == Playtime(g)
                           && Returns(r.value.rtimeLastPlayed) == LastPlayed(g)
  {
    match (Playtime(g), LastPlayed(g))
    case (Returns(p), Returns(t)) => Returns(OwnedRow(p, t))
    case _ => Raises
  }

  /** The session's pending state during the pass. */
  datatype Pending = Pending(
    apps: map<int, AppRec>,
    owned: map<(int, int), OwnedRow>,
    created: nat,
    updated: nat)

  /** The preload `existing_by_appid`: the appids the user already has rows for. */
  function UserAppids(owned: map<(int, int), OwnedRow>, user: int): set<int> {
    set k | k in owned && k.0 == user :: k.1
  }

  /** One iteration of the loop over `games`. A record whose appid has no
      preloaded row inserts a new row; when an earlier record of the same pass
      already inserted that (user, appid) row, the second insert violates the
      row key and the call raises. */
  function Step(p: Pending, user: int, existing: set<int>, g: GameIn): Outcome<Pending> {
    match g.appid
    case None => Returns(p)
    case Some(a) =>
      var apps := if a in p.apps then p.apps else p.apps[a := Placeholder()];
      var isNew := a !in existing;
      match RowOf(g)
      case Raises => Raises
      case Returns(row) =>
        if isNew && (user, a) in p.owned then Raises
        else Returns(Pending(
          apps,
          p.owned[(user, a) := row],
          if isNew then p.created + 1 else p.created,
          if isNew then p.updated else p.updated + 1))
  }

  /** The loop over a list of records, from a given pending state. */
  function Run(p0: Pending, user: int, existing: set<int>, games: seq<GameIn>): Outcome<Pending>
    decreases |games|
  {
    if games == [] then Returns(p0)
    else
      match Run(p0, user, existing, games[..|games| - 1])
      case Raises => Raises
      case Returns(p) => Step(p, user, existing, games[|games| - 1])
  }

  /** The appids the incoming records carry (nulls skipped). */
  function AppidsOf(games: seq<GameIn>): set<int> {
    set i | 0 <= i < |games| && games[i].appid.Some? :: games[i].appid.value
  }

  function CountWithAppid(games: seq<GameIn>): nat
    decreases |games|
  {
    if games == [] then 0
    else CountWithAppid(games[..|games| - 1]) + (if games[|games| - 1].appid.Some? then 1 else 0)
  }

  /** Records whose appid had no preloaded row. */
  function CountNew(games: seq<GameIn>, existing: set<int>): nat
    decreases |games|
  {
    if games == [] then 0
    else
      var g := games[|games| - 1];
      CountNew(games[..|games| - 1], existing) + (if g.appid.Some? && g.appid.value !in existing then 1 else 0)
  }

  /** Records whose appid had a preloaded row. */
  function CountKnown(games: seq<GameIn>, existing: set<int>): nat
    decreases |games|
  {
    if games == [] then 0
    else
      var g := games[|games| - 1];
      CountKnown(games[..|games| - 1], existing) + (if g.appid.Some? && g.appid.value in existing then 1 else 0)
  }

  lemma AppidsOfSnoc(games: seq<GameIn>)
    requires games != []
    ensures var g := games[|games| - 1];
            AppidsOf(games) == AppidsOf(games[..|games| - 1]) + (if g.appid.Some? then {g.appid.value} else {})
  {
    var init := games[..|games| - 1];
    var g := games[|games| - 1];
    forall a | a in AppidsOf(games)
      ensures a in AppidsOf(init) + (if g.appid.Some? then {g.appid.value} else {})
    {
      var i :| 0 <= i < |games| && games[i].appid.Some? && games[i].appid.value == a;
      if i < |games| - 1 {
        assert init[i] == games[i];
      }
    }
    forall a | a in AppidsOf(init)
      ensures a in AppidsOf(games)
    {
      var i :| 0 <= i < |init| && init[i].appid.Some? && init[i].appid.value == a;
      assert games[i] == init[i];
    }
  }

  /** Every record with an appid counts once, as created or as updated. */
  lemma {:induction false} CountsPartition(games: seq<GameIn>, existing: set<int>)
    ensures CountNew(games, existing) + CountKnown(games, existing) == CountWithAppid(games)
    decreases |games|
  {
    if games != [] {
      CountsPartition(games[..|games| - 1], existing);
    }
  }

  /** The counters: `created` grows by the records whose appid had no
      preloaded row, `updated` by those that had one; records without an
      appid change neither. */
  lemma {:induction false} RunCounts(p0: Pending, user: int, existing: set<int>, games: seq<GameIn>)
    requires Run(p0, user, existing, games).Returns?
    ensures var p := Run(p0, user, existing, games).value;
            && p.created == p0.created + CountNew(games, existing)
            && p.updated == p0.updated + CountKnown(games, existing)
    decreases |games|
  {
    if games != [] {
      RunCounts(p0, user, existing, games[..|games| - 1]);
    }
  }

  /** Apps: every incoming appid has an app afterwards; apps that existed are
      not modified; the only new apps are placeholders. */
  lemma {:induction false} RunApps(p0: Pending, user: int, existing: set<int>, games: seq<GameIn>)
    requires Run(p0, user, existing, games).Returns?
    ensures var p := Run(p0, user, existing, games).value;
            && p.apps.Keys == p0.apps.Keys + AppidsOf(games)
            && (forall a :: a in p0.apps ==> p.apps[a] == p0.apps[a])
            && (forall a :: a in p.apps && a !in p0.apps ==> p.apps[a] == Placeholder())
    decreases |games|
  {
    if games != [] {
      RunApps(p0, user, existing, games[..|games| - 1]);
      AppidsOfSnoc(games);
    }
  }

  /** Rows: the keys written are exactly (user, a) for the incoming appids;
      rows of other users, and this user's rows for appids not in the input,
      are unchanged. */
  lemma {:induction false} RunOwnedKeys(p0: Pending, user: int, existing: set<int>, games: seq<GameIn>)
    requires Run(p0, user, existing, games).Returns?
    ensures var p := Run(p0, user, existing, games).value;
            && p.owned.Keys == p0.owned.Keys + (set a | a in AppidsOf(games) :: (user, a))
            && (forall k :: k in p0.owned && (k.0 != user || k.1 !in AppidsOf(games)) ==> p.owned[k] == p0.owned[k])
    decreases |games|
  {
    if games != [] {
      RunOwnedKeys(p0, user, existing, games[..|games| - 1]);
      AppidsOfSnoc(games);
    }
  }

  /** Last write wins: the row for an incoming appid holds the values of the
      last record carrying that appid; nothing accumulates. */
  lemma {:induction false} RunLastWriteWins(p0: Pending, user: int, existing: set<int>, games: seq<GameIn>, i: nat)
    requires Run(p0, user, existing, games).Returns?
    requires i < |games| && games[i].appid.Some?
    requires forall j :: i < j < |games| ==> games[j].appid != games[i].appid
    ensures RowOf(games[i]).Returns?
    ensures (user, games[i].appid.value) in Run(p0, user, existing, games).value.owned
    ensures Run(p0, user, existing, games).value.owned[(user, games[i].appid.value)] == RowOf(games[i]).value
    decreases |games|
  {
    var init := games[..|games| - 1];
    if i < |games| - 1 {
      assert init[i] == games[i];
      RunLastWriteWins(p0, user, existing, init, i);
    }
  }

  /** A run that raised stays raised however many records follow. */
  lemma {:induction false} RunStaysRaised(p0: Pending, user: int, existing: set<int>, games: seq<GameIn>, k: nat)
    requires k <= |games|
    requires Run(p0, user, existing, games[..k]).Raises?
    ensures Run(p0, user, existing, games).Raises?
    decreases |games| - k
  {
    if k < |games| {
      assert games[..k + 1][..k] == games[..k];
      RunStaysRaised(p0, user, existing, games, k + 1);
    } else {
      assert games[..k] == games;
    }
  }

  /** A record carries a value `int()` cannot convert. */
  predicate BadRecord(g: GameIn) {
    g.appid.Some? && RowOf(g).Raises?
  }

  predicate AnyBadRecord(games: seq<GameIn>) {
    exists i :: 0 <= i < |games| && BadRecord(games[i])
  }

  /** Two records carry the same appid, one with no preloaded row. */
  predicate RepeatsNewAppid(games: seq<GameIn>, existing: set<int>) {
    exists i, j :: 0 <= i < j < |games| && games[i].appid.Some? && games[j].appid == games[i].appid
                   && games[i].appid.value !in existing
  }

  lemma AnyBadRecordSnoc(games: seq<GameIn>)
    requires games != []
    ensures AnyBadRecord(games) <==> AnyBadRecord(games[..|games| - 1]) || BadRecord(games[|games| - 1])
  {
    var init := games[..|games| - 1];
    if AnyBadRecord(init) {
      var i :| 0 <= i < |init| && BadRecord(init[i]);
      assert games[i] == init[i];
    }
    if AnyBadRecord(games) {
      var i :| 0 <= i < |games| && BadRecord(games[i]);
      if i < |games| - 1 {
        assert init[i] == games[i];
      }
    }
  }

  lemma RepeatsNewAppidSnoc(games: seq<GameIn>, existing: set<int>)
    requires games != []
    ensures var g := games[|games| - 1];
            RepeatsNewAppid(games, existing) <==>
              RepeatsNewAppid(games[..|games| - 1], existing)
              || (g.appid.Some? && g.appid.value !in existing && g.appid.value in AppidsOf(games[..|games| - 1]))
  {
    var init := games[..|games| - 1];
    var g := games[|games| - 1];
    if RepeatsNewAppid(init, existing) {
      var i, j :| 0 <= i < j < |init| && init[i].appid.Some? && init[j].appid == init[i].appid
                  && init[i].appid.value !in existing;
      assert games[i] == init[i] && games[j] == init[j];
    }
    if g.appid.Some? && g.appid.value !in existing && g.appid.value in AppidsOf(init) {
      var i :| 0 <= i < |init| && init[i].appid.Some? && init[i].appid.value == g.appid.value;
      assert games[i] == init[i];
      assert games[i].appid == games[|games| - 1].appid;
    }
    if RepeatsNewAppid(games, existing) {
      var i, j :| 0 <= i < j < |games| && games[i].appid.Some? && games[j].appid == games[i].appid
                  && games[i].appid.value !in existing;
      assert init[i] == games[i];
      if j < |games| - 1 {
        assert init[j] == games[j];
      }
    }
  }

  /** When the preload is taken from the starting rows, the pass raises
      exactly when some record has a value `int()` rejects, or a new appid is
      inserted twice. */
  lemma {:induction false} RunRaisesIff(p0: Pending, user: int, games: seq<GameIn>)
    ensures var existing := UserAppids(p0.owned, user);
            Run(p0, user, existing, games).Raises? <==> AnyBadRecord(games) || RepeatsNewAppid(games, existing)
    decreases |games|
  {
    var existing := UserAppids(p0.owned, user);
    if games != [] {
      var init := games[..|games| - 1];
      var g := games[|games| - 1];
      RunRaisesIff(p0, user, init);
      AnyBadRecordSnoc(games);
      RepeatsNewAppidSnoc(games, existing);
      if Run(p0, user, existing, init).Returns? {
        RunOwnedKeys(p0, user, existing, init);
        if g.appid.Some? {
          var a := g.appid.value;
          var p := Run(p0, user, existing, init).value;
          assert a !in existing ==> ((user, a) in p.owned <==> a in AppidsOf(init));
        }
      }
    }
  }

  /** Every row refers to an existing app before and after the pass. */
  lemma RunKeepsOwnedOk(p0: Pending, user: int, existing: set<int>, games: seq<GameIn>)
    requires OwnedOk(p0.apps, p0.owned)
    requires Run(p0, user, existing, games).Returns?
    ensures var p := Run(p0, user, existing, games).value;
            OwnedOk(p.apps, p.owned)
  {
    RunApps(p0, user, existing, games);
    RunOwnedKeys(p0, user, existing, games);
  }

  /** What `upsert_owned_games_only` returns. */
  datatype SyncCounts = SyncCounts(created: nat, updated: nat, totalIncoming: nat)

  /** The counters the call returns: `created + updated` is the number of
      records with an appid, and `total_incoming` is the length of the list. */
  lemma SyncCountsTotal(apps: map<int, AppRec>, owned: map<(int, int), OwnedRow>, user: int, games: seq<GameIn>)
    requires Run(Pending(apps, owned, 0, 0), user, UserAppids(owned, user), games).Returns?
    ensures var p := Run(Pending(apps, owned, 0, 0), user, UserAppids(owned, user), games).value;
            && p.created + p.updated == CountWithAppid(games)
            && p.created == CountNew(games, UserAppids(owned, user))
            && p.updated == CountKnown(games, UserAppids(owned, user))
  {
    RunCounts(Pending(apps, owned, 0, 0), user, UserAppids(owned, user), games);
    CountsPartition(games, UserAppids(owned, user));
  }

  /** Re-syncing an app the user already owns with a new playtime updates the
      row in place: `updated` is 1, `created` 0, the number of rows unchanged,
      and the stored playtime is the new value exactly. */
  lemma ResyncUpdatesInPlace(apps: map<int, AppRec>, owned: map<(int, int), OwnedRow>, user: int, a: int, minutes: int)
    requires (user, a) in owned && a in apps
    ensures var g := GameIn(Some(a), JInt(minutes), JNull);
            var run := Run(Pending(apps, owned, 0, 0), user, UserAppids(owned, user), [g]);
            && run.Returns?
            && run.value.created == 0 && run.value.updated == 1
            && run.value.owned.Keys == owned.Keys
            && run.value.owned[(user, a)].playtimeForever == minutes
            && run.value.apps == apps
  {
    var g := GameIn(Some(a), JInt(minutes), JNull);
    assert a in UserAppids(owned, user);
    assert [g][..0] == [];
  }

  /** `upsert_owned_games_only(user_id, games)`. The pass works on the
      session's pending copies of the apps and rows; the store takes them
      only at the final commit, so a call that raises leaves it unchanged. */
  method UpsertOwnedGamesOnly(db: Db, userId: int, games: seq<GameIn>) returns (r: Outcome<SyncCounts>)
    requires db.Valid()
    modifies db
    ensures var run := Run(Pending(old(db.apps), old(db.owned), 0, 0), userId, UserAppids(old(db.owned), userId), games);
            match run
            case Raises => r == Raises && db.apps == old(db.apps) && db.owned == old(db.owned)
            case Returns(p) => r == Returns(SyncCounts(p.created, p.updated, |games|))
                               && db.apps == p.apps && db.owned == p.owned
    ensures db.genres == old(db.genres) && db.categories == old(db.categories)
    ensures db.genreLinks == old(db.genreLinks) && db.categoryLinks == old(db.categoryLinks)
    ensures db.Valid()
  {
    var existing := UserAppids(db.owned, userId);
    ghost var p0 := Pending(db.apps, db.owned, 0, 0);
    var apps, owned := db.apps, db.owned;
    var created, updated := 0, 0;
    for i := 0 to |games|
      invariant Run(p0, userId, existing, games[..i]) == Returns(Pending(apps, owned, created, updated))
    {
      assert games[..i + 1][..i] == games[..i];
      var g := games[i];
      if g.appid.None? {
        continue;
      }
      var appid := g.appid.value;
      if appid !in apps {
        apps := apps[appid := Placeholder()];
      }
      var isNew := appid !in existing;
      if isNew {
        if (userId, appid) in owned {
          if RowOf(g).Returns? {
            assert Run(p0, userId, existing, games[..i + 1]).Raises?;
          }
          RunStaysRaised(p0, userId, existing, games, i + 1);
          return Raises;
        }
        created := created + 1;
      } else {
        updated := updated + 1;
      }
      var playtime := Playtime(g);
      var lastPlayed := LastPlayed(g);
      if playtime.Raises? || lastPlayed.Raises? {
        RunStaysRaised(p0, userId, existing, games, i + 1);
        return Raises;
      }
      owned := owned[(userId, appid) := OwnedRow(playtime.value, lastPlayed.value)];
    }
    assert games[..|games|] == games;
    RunApps(p0, userId, existing, games);
    RunKeepsOwnedOk(p0, userId, existing, games);
    db.apps, db.owned := apps, owned;
    r := Returns(SyncCounts(created, updated, |games|));
  }
}
