/** The four tables behind the batch writer, the SQL a flush sends to them, and the outbox log that
    keeps the SQL of batches the database did not take. */
module Upsert {
  import opened Hazards
  import opened Grouping
  import opened Aggregation
  import opened MergeAlgebra
  import opened Numbers
  import opened Wrappers
  import opened Sequences

  // ---------------------------------------------------------------- conflict rules

  /** The columns of the tile table's uniqueness rule. */
  datatype TileSlot = TileSlot(bucket: int, tile: string, region: string)
  /** The columns of the route table's uniqueness rule. */
  datatype RouteSlot = RouteSlot(bucket: int, route: string, segment: string)

  function TileSlotOf(key: TileKey): TileSlot { TileSlot(key.bucket, key.tile, key.region) }
  function RouteSlotOf(key: RouteKey): RouteSlot { RouteSlot(key.bucket, key.route, key.segment) }

  /** ON CONFLICT (message_id) DO NOTHING. */
  function MergeRaw(stored: Sample, row: Sample): Sample { stored }

  /** LEAST and GREATEST on the temperature range, everything else from the new row. */
  function MergeCity(stored: CityRow, row: CityRow): CityRow {
    row.(key := stored.key,
          minTemperature := Lower(stored.minTemperature, row.minTemperature),
          maxTemperature := Higher(stored.maxTemperature, row.maxTemperature))
  }

  /** Continent and country stay as first inserted; LEAST and GREATEST pass over NULL. */
  function MergeTile(stored: TileRow, row: TileRow): TileRow {
    row.(key := stored.key,
          minVisibility := Least(stored.minVisibility, row.minVisibility),
          maxPrecipitation := Greatest(stored.maxPrecipitation, row.maxPrecipitation))
  }

  /** The region stays as first inserted. */
  function MergeRoute(stored: RouteRow, row: RouteRow): RouteRow {
    row.(key := stored.key)
  }

  lemma RawMergeLaws()
    ensures Associative(MergeRaw) && Idempotent(MergeRaw) && Regular(MergeRaw)
  {
  }

  lemma CityMergeLaws()
    ensures Associative(MergeCity) && Idempotent(MergeCity)
  {
  }

  lemma TileMergeLaws()
    ensures Associative(MergeTile) && Idempotent(MergeTile)
  {
  }

  lemma RouteMergeLaws()
    ensures Associative(MergeRoute) && Idempotent(MergeRoute)
  {
  }

  // ---------------------------------------------------------------- statements and the database

  datatype Db = Db(
    raw: map<string, Sample>, cities: map<CityKey, CityRow>,
    tiles: map<TileSlot, TileRow>, routes: map<RouteSlot, RouteRow>)

  const EMPTY := Db(map[], map[], map[], map[])

  datatype Statement =
    | InsertRaw(sample: Sample)
    | UpsertCity(city: CityRow)
    | UpsertTile(tile: TileRow)
    | UpsertRoute(route: RouteRow)

  function Execute(db: Db, s: Statement): Db {
    match s
    case InsertRaw(row) => db.(raw := MergeAlgebra.Upsert(db.raw, row.id, row, MergeRaw))
    case UpsertCity(row) => db.(cities := MergeAlgebra.Upsert(db.cities, row.key, row, MergeCity))
    case UpsertTile(row) => db.(tiles := MergeAlgebra.Upsert(db.tiles, TileSlotOf(row.key), row, MergeTile))
    case UpsertRoute(row) => db.(routes := MergeAlgebra.Upsert(db.routes, RouteSlotOf(row.key), row, MergeRoute))
  }

  function ExecuteAll(db: Db, sql: seq<Statement>): Db {
    if sql == [] then db else Execute(ExecuteAll(db, sql[..|sql| - 1]), sql[|sql| - 1])
  }

  // ---------------------------------------------------------------- one log a table

  function PickRaw(s: Statement): Option<(string, Sample)> {
    if s.InsertRaw? then Some((s.sample.id, s.sample)) else None
  }

  function PickCity(s: Statement): Option<(CityKey, CityRow)> {
    if s.UpsertCity? then Some((s.city.key, s.city)) else None
  }

  function PickTile(s: Statement): Option<(TileSlot, TileRow)> {
    if s.UpsertTile? then Some((TileSlotOf(s.tile.key), s.tile)) else None
  }

  function PickRoute(s: Statement): Option<(RouteSlot, RouteRow)> {
    if s.UpsertRoute? then Some((RouteSlotOf(s.route.key), s.route)) else None
  }

  /** What a pick finds in a list, in order. */
  function Picked<S, T>(list: seq<S>, pick: S -> Option<T>): seq<T> {
    if list == [] then []
    else
      var last := pick(list[|list| - 1]);
      Picked(list[..|list| - 1], pick) + (if last.Some? then [last.value] else [])
  }

  function RawLog(sql: seq<Statement>): seq<(string, Sample)> { Picked(sql, PickRaw) }
  function CityLog(sql: seq<Statement>): seq<(CityKey, CityRow)> { Picked(sql, PickCity) }
  function TileLog(sql: seq<Statement>): seq<(TileSlot, TileRow)> { Picked(sql, PickTile) }
  function RouteLog(sql: seq<Statement>): seq<(RouteSlot, RouteRow)> { Picked(sql, PickRoute) }

  lemma {:induction false} PickedAppends<S, T>(a: seq<S>, b: seq<S>, pick: S -> Option<T>)
    ensures Picked(a + b, pick) == Picked(a, pick) + Picked(b, pick)
    decreases |b|
  {
    if b == [] {
      AppendNothing(a);
      AppendNothing(Picked(a, pick));
    } else {
      FrontOfAppend(a, b);
      PickedAppends(a, b[..|b| - 1], pick);
      var last := pick(b[|b| - 1]);
      Associate(Picked(a, pick), Picked(b[..|b| - 1], pick), if last.Some? then [last.value] else []);
    }
  }

  lemma LogsAppend(a: seq<Statement>, b: seq<Statement>)
    ensures RawLog(a + b) == RawLog(a) + RawLog(b)
    ensures CityLog(a + b) == CityLog(a) + CityLog(b)
    ensures TileLog(a + b) == TileLog(a) + TileLog(b)
    ensures RouteLog(a + b) == RouteLog(a) + RouteLog(b)
  {
    PickedAppends(a, b, PickRaw);
    PickedAppends(a, b, PickCity);
    PickedAppends(a, b, PickTile);
    PickedAppends(a, b, PickRoute);
  }

  /** One statement's effect on a table: an upsert if it is for that table. */
  function Step<K, R>(table: map<K, R>, picked: Option<(K, R)>, merge: (R, R) -> R): map<K, R> {
    if picked.Some? then MergeAlgebra.Upsert(table, picked.value.0, picked.value.1, merge) else table
  }

  lemma ExecuteByTable(db: Db, s: Statement)
    ensures Execute(db, s) == Db(Step(db.raw, PickRaw(s), MergeRaw), Step(db.cities, PickCity(s), MergeCity),
                                 Step(db.tiles, PickTile(s), MergeTile), Step(db.routes, PickRoute(s), MergeRoute))
  {
  }

  lemma ApplyOfPicked<S, K, R>(table: map<K, R>, list: seq<S>, pick: S -> Option<(K, R)>, merge: (R, R) -> R)
    requires list != []
    ensures Apply(table, Picked(list, pick), merge)
         == Step(Apply(table, Picked(list[..|list| - 1], pick), merge), pick(list[|list| - 1]), merge)
  {
    var before, last := Picked(list[..|list| - 1], pick), pick(list[|list| - 1]);
    AppendNothing(before);
    if last.Some? {
      SplitAppend(before, [last.value]);
    }
  }

  /** Executing SQL applies to every table its own log. */
  lemma {:induction false} ExecuteIsApply(db: Db, sql: seq<Statement>)
    ensures ExecuteAll(db, sql) == Db(Apply(db.raw, RawLog(sql), MergeRaw),
                                      Apply(db.cities, CityLog(sql), MergeCity),
                                      Apply(db.tiles, TileLog(sql), MergeTile),
                                      Apply(db.routes, RouteLog(sql), MergeRoute))
    decreases |sql|
  {
    if sql != [] {
      var front, last := sql[..|sql| - 1], sql[|sql| - 1];
      ExecuteIsApply(db, front);
      ExecuteByTable(ExecuteAll(db, front), last);
      ApplyOfPicked(db.raw, sql, PickRaw, MergeRaw);
      ApplyOfPicked(db.cities, sql, PickCity, MergeCity);
      ApplyOfPicked(db.tiles, sql, PickTile, MergeTile);
      ApplyOfPicked(db.routes, sql, PickRoute, MergeRoute);
    }
  }

  // ---------------------------------------------------------------- replaying the outbox

  /** A replay that stopped after any prefix of the log and is done again from the start ends in the
      same four tables as one that ran through: an interrupted replay may simply be repeated, and
      replaying twice back to back is replaying once. */
  lemma InterruptedReplay(db: Db, done: seq<Statement>, rest: seq<Statement>)
    ensures ExecuteAll(ExecuteAll(db, done), done + rest) == ExecuteAll(db, done + rest)
  {
    var mid := ExecuteAll(db, done);
    ExecuteIsApply(db, done);
    ExecuteIsApply(db, done + rest);
    ExecuteIsApply(mid, done + rest);
    LogsAppend(done, rest);
    RawMergeLaws(); CityMergeLaws(); TileMergeLaws(); RouteMergeLaws();
    ReplayAfterPrefix(db.raw, RawLog(done), RawLog(rest), MergeRaw);
    ReplayAfterPrefix(db.cities, CityLog(done), CityLog(rest), MergeCity);
    ReplayAfterPrefix(db.tiles, TileLog(done), TileLog(rest), MergeTile);
    ReplayAfterPrefix(db.routes, RouteLog(done), RouteLog(rest), MergeRoute);
  }

  lemma ReplayTwice(db: Db, log: seq<Statement>)
    ensures ExecuteAll(ExecuteAll(db, log), log) == ExecuteAll(db, log)
  {
    InterruptedReplay(db, log, []);
    AppendNothing(log);
  }

  /** The columns kept by LEAST and GREATEST. */
  datatype Extremes = Extremes(lo: Option<real>, hi: Option<real>)

  function JoinExtremes(a: Extremes, b: Extremes): Extremes {
    Extremes(Least(a.lo, b.lo), Greatest(a.hi, b.hi))
  }

  function CityExtremes(row: CityRow): Extremes { Extremes(Some(row.minTemperature), Some(row.maxTemperature)) }
  function TileExtremes(row: TileRow): Extremes { Extremes(row.minVisibility, row.maxPrecipitation) }

  lemma ExtremesLaws()
    ensures Semilattice(JoinExtremes) && Regular(JoinExtremes)
    ensures forall a, b :: CityExtremes(MergeCity(a, b)) == JoinExtremes(CityExtremes(a), CityExtremes(b))
    ensures forall a, b :: TileExtremes(MergeTile(a, b)) == JoinExtremes(TileExtremes(a), TileExtremes(b))
  {
  }

  /** Replaying a log again after other batches changes no raw row and no extreme column, and adds
      no row to the city and tile tables. */
  lemma LateReplay(db: Db, log: seq<Statement>, others: seq<Statement>)
    ensures var once := ExecuteAll(ExecuteAll(db, log), others);
            var again := ExecuteAll(once, log);
            && again.raw == once.raw
            && View(again.cities, CityExtremes) == View(once.cities, CityExtremes)
            && View(again.tiles, TileExtremes) == View(once.tiles, TileExtremes)
  {
    var first := ExecuteAll(db, log);
    var once := ExecuteAll(first, others);
    ExecuteIsApply(db, log);
    ExecuteIsApply(first, others);
    ExecuteIsApply(once, log);
    RawMergeLaws();
    ReplayAfterOthers(db.raw, RawLog(log), RawLog(others), MergeRaw);
    LateCityReplay(db.cities, CityLog(log), CityLog(others));
    LateTileReplay(db.tiles, TileLog(log), TileLog(others));
  }

  lemma LateCityReplay(table: map<CityKey, CityRow>, log: seq<(CityKey, CityRow)>, others: seq<(CityKey, CityRow)>)
    ensures var once := Apply(Apply(table, log, MergeCity), others, MergeCity);
            View(Apply(once, log, MergeCity), CityExtremes) == View(once, CityExtremes)
  {
    ExtremesLaws();
    var first := Apply(table, log, MergeCity);
    var once := Apply(first, others, MergeCity);
    ViewOfApply(table, log, MergeCity, CityExtremes, JoinExtremes);
    ViewOfApply(first, others, MergeCity, CityExtremes, JoinExtremes);
    ViewOfApply(once, log, MergeCity, CityExtremes, JoinExtremes);
    ReplayAfterOthers(View(table, CityExtremes), ViewLog(log, CityExtremes), ViewLog(others, CityExtremes),
                      JoinExtremes);
  }

  lemma LateTileReplay(table: map<TileSlot, TileRow>, log: seq<(TileSlot, TileRow)>, others: seq<(TileSlot, TileRow)>)
    ensures var once := Apply(Apply(table, log, MergeTile), others, MergeTile);
            View(Apply(once, log, MergeTile), TileExtremes) == View(once, TileExtremes)
  {
    ExtremesLaws();
    var first := Apply(table, log, MergeTile);
    var once := Apply(first, others, MergeTile);
    ViewOfApply(table, log, MergeTile, TileExtremes, JoinExtremes);
    ViewOfApply(first, others, MergeTile, TileExtremes, JoinExtremes);
    ViewOfApply(once, log, MergeTile, TileExtremes, JoinExtremes);
    ReplayAfterOthers(View(table, TileExtremes), ViewLog(log, TileExtremes), ViewLog(others, TileExtremes),
                      JoinExtremes);
  }

  /** The columns that an upsert sets to the new row's. */
  datatype CityColumns = CityColumns(count: nat, avgTemperature: real, avgHumidity: real, avgWind: real)
  datatype TileColumns = TileColumns(
    count: nat, latitude: Option<real>, longitude: Option<real>, avgTemperature: real, avgHumidity: real,
    avgCloudCover: Option<real>, avgWind: real, avgPressure: Option<real>, hazard: real)
  datatype RouteColumns = RouteColumns(hazard: real, delayFactor: real, primary: Hazard)

  function CityColumnsOf(r: CityRow): CityColumns {
    CityColumns(r.count, r.avgTemperature, r.avgHumidity, r.avgWind)
  }

  function TileColumnsOf(r: TileRow): TileColumns {
    TileColumns(r.count, r.latitude, r.longitude, r.avgTemperature, r.avgHumidity, r.avgCloudCover, r.avgWind,
                r.avgPressure, r.hazard)
  }

  function RouteColumnsOf(r: RouteRow): RouteColumns { RouteColumns(r.hazard, r.delayFactor, r.primary) }

  /** Of a stored row these columns are overwritten, and the key with the columns that belong to it stays
      as first inserted. */
  lemma CityOverwrites()
    ensures Overwrites(MergeCity, CityColumnsOf)
    ensures forall stored, row :: MergeCity(stored, row).key == stored.key
  {
  }

  lemma TileOverwrites()
    ensures Overwrites(MergeTile, TileColumnsOf)
    ensures forall stored, row :: MergeTile(stored, row).key == stored.key
  {
  }

  lemma RouteOverwrites()
    ensures Overwrites(MergeRoute, RouteColumnsOf)
    ensures forall stored, row :: MergeRoute(stored, row).key == stored.key
  {
  }

  /** The last statements of two logs for every city, tile and route set the same columns. */
  ghost predicate LastRowsAgree(log: seq<Statement>, others: seq<Statement>) {
    && Agree(CityLog(log), CityLog(others), CityColumnsOf)
    && Agree(TileLog(log), TileLog(others), TileColumnsOf)
    && Agree(RouteLog(log), RouteLog(others), RouteColumnsOf)
  }

  /** The other columns do not stay: a log replayed after other batches takes them back to its own last
      rows, for every city, tile and route it has a row for.  Nothing changes exactly when the last rows
      of the log and of the other batches agree wherever both have one. */
  lemma LateReplayRollsBack(db: Db, log: seq<Statement>, others: seq<Statement>)
    ensures var once := ExecuteAll(ExecuteAll(db, log), others);
            var again := ExecuteAll(once, log);
            && (again == once <==> LastRowsAgree(log, others))
            && (forall k :: LastFor(CityLog(log), k).Some? ==>
                 SameView(At(again.cities, k), LastFor(CityLog(log), k), CityColumnsOf))
            && (forall k :: LastFor(TileLog(log), k).Some? ==>
                 SameView(At(again.tiles, k), LastFor(TileLog(log), k), TileColumnsOf))
            && (forall k :: LastFor(RouteLog(log), k).Some? ==>
                 SameView(At(again.routes, k), LastFor(RouteLog(log), k), RouteColumnsOf))
  {
    var first := ExecuteAll(db, log);
    var once := ExecuteAll(first, others);
    ExecuteIsApply(db, log);
    ExecuteIsApply(first, others);
    ExecuteIsApply(once, log);
    RawMergeLaws(); CityMergeLaws(); TileMergeLaws(); RouteMergeLaws();
    CityOverwrites(); TileOverwrites(); RouteOverwrites();
    ReplayAfterOthers(db.raw, RawLog(log), RawLog(others), MergeRaw);
    LateReplayIff(db.cities, CityLog(log), CityLog(others), MergeCity, CityColumnsOf);
    LateReplayIff(db.tiles, TileLog(log), TileLog(others), MergeTile, TileColumnsOf);
    LateReplayIff(db.routes, RouteLog(log), RouteLog(others), MergeRoute, RouteColumnsOf);
  }

  lemma ExecuteOne(db: Db, s: Statement)
    ensures ExecuteAll(db, [s]) == Execute(db, s)
  {
  }

  /** The smallest case: when an older row of a city is replayed after a newer one, nothing changes
      exactly when their counts and averages agree. */
  lemma OneRowRollsBack(db: Db, older: CityRow, newer: CityRow)
    requires older.key == newer.key
    ensures var once := ExecuteAll(ExecuteAll(db, [UpsertCity(older)]), [UpsertCity(newer)]);
            var again := ExecuteAll(once, [UpsertCity(older)]);
            && older.key in again.cities && CityColumnsOf(again.cities[older.key]) == CityColumnsOf(older)
            && (again == once <==> CityColumnsOf(older) == CityColumnsOf(newer))
  {
    var first := ExecuteAll(db, [UpsertCity(older)]);
    ExecuteOne(db, UpsertCity(older));
    var once := ExecuteAll(first, [UpsertCity(newer)]);
    ExecuteOne(first, UpsertCity(newer));
    ExecuteOne(once, UpsertCity(older));
    var row := once.cities[older.key];
    assert MergeCity(row, older) == row <==> CityColumnsOf(older) == CityColumnsOf(newer);
    assert once.cities[older.key := MergeCity(row, older)] == once.cities <==> MergeCity(row, older) == row;
  }
}
