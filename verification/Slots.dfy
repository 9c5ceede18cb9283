/** Which rows share a stored row: the tables' uniqueness rules, in terms of the rows' own columns. */
module Slots {
  import opened Aggregation
  import opened Upsert
  import opened MergeAlgebra
  import opened LastRows
  import opened Histories
  import opened Wrappers

  /** Rows of the city table that are the same to its uniqueness rule, and so on. */
  predicate SameCity(a: CityKey, b: CityKey) {
    && a.bucket == b.bucket && a.continent == b.continent && a.country == b.country && a.region == b.region
    && a.city == b.city
  }

  predicate SameTile(a: TileKey, b: TileKey) { a.bucket == b.bucket && a.tile == b.tile && a.region == b.region }

  predicate SameSegment(a: RouteKey, b: RouteKey) {
    a.bucket == b.bucket && a.route == b.route && a.segment == b.segment
  }

  // ---------------------------------------------------------------- one table

  /** The stored row of a slot has that slot. */
  ghost predicate AtTheirSlots<K(!new), R>(table: map<K, R>, slot: R -> K) {
    forall k :: k in table ==> slot(table[k]) == k
  }

  ghost predicate KeepsSlot<K(!new), R(!new)>(merge: (R, R) -> R, slot: R -> K) {
    forall a, b :: slot(merge(a, b)) == slot(a)
  }

  lemma {:induction false} RowsStayAtSlots<K(!new), R(!new)>(log: seq<(K, R)>, merge: (R, R) -> R, slot: R -> K)
    requires KeepsSlot(merge, slot) && forall i :: 0 <= i < |log| ==> slot(log[i].1) == log[i].0
    ensures AtTheirSlots(Apply(map[], log, merge), slot)
    decreases |log|
  {
    if log != [] {
      RowsStayAtSlots(log[..|log| - 1], merge, slot);
    }
  }

  lemma {:induction false} PickedFrom<S, T(!new)>(list: seq<S>, pick: S -> Option<T>)
    ensures forall x :: x in Picked(list, pick) ==> exists i :: 0 <= i < |list| && pick(list[i]) == Some(x)
    decreases |list|
  {
    if list != [] {
      var n := |list| - 1;
      PickedFrom(list[..n], pick);
      forall x | x in Picked(list, pick) ensures exists i :: 0 <= i < |list| && pick(list[i]) == Some(x) {
        if x in Picked(list[..n], pick) {
          var i :| 0 <= i < n && pick(list[..n][i]) == Some(x);
          assert pick(list[i]) == Some(x);
        } else {
          assert pick(list[n]) == Some(x);
        }
      }
    }
  }

  /** Of the statements for a slot, the last one in the list is the last one in the log. */
  lemma {:induction false} LatestIsPicked<S, K(!new), R>(list: seq<S>, pick: S -> Option<(K, R)>, k: K, i: nat)
    requires i < |list| && pick(list[i]).Some? && pick(list[i]).value.0 == k
    requires forall j :: i < j < |list| && pick(list[j]).Some? ==> pick(list[j]).value.0 != k
    ensures LastFor(Picked(list, pick), k) == Some(pick(list[i]).value.1)
    decreases |list|
  {
    var n := |list| - 1;
    LastOfOneMore(list, pick, k);
    if i < n {
      assert forall j :: i < j < n ==> list[..n][j] == list[j];
      LatestIsPicked(list[..n], pick, k, i);
    }
  }

  // ---------------------------------------------------------------- routes

  function RouteRowSlot(r: RouteRow): RouteSlot { RouteSlotOf(r.key) }

  lemma RoutesAtSlots(sql: seq<Statement>)
    ensures AtTheirSlots(ExecuteAll(EMPTY, sql).routes, RouteRowSlot)
  {
    ExecuteIsApply(EMPTY, sql);
    PickedFrom(sql, PickRoute);
    var log := RouteLog(sql);
    forall i | 0 <= i < |log| ensures RouteRowSlot(log[i].1) == log[i].0 {
      assert log[i] in log;
    }
    RowsStayAtSlots(log, MergeRoute, RouteRowSlot);
  }

  /** After any SQL on empty tables, no two stored route rows agree in minute, route and segment: those that
      do share one. */
  lemma RoutesAreApart(sql: seq<Statement>, k: RouteSlot, l: RouteSlot)
    requires var rows := ExecuteAll(EMPTY, sql).routes; k in rows && l in rows
    ensures var rows := ExecuteAll(EMPTY, sql).routes; SameSegment(rows[k].key, rows[l].key) <==> k == l
  {
    RoutesAtSlots(sql);
    var rows := ExecuteAll(EMPTY, sql).routes;
    assert RouteRowSlot(rows[k]) == k && RouteRowSlot(rows[l]) == l;
  }

  /** Every route statement ends in the stored row that agrees with it in these three columns, and the last
      such statement has set the others. */
  lemma RouteIsStored(sql: seq<Statement>, i: nat) returns (k: RouteSlot)
    requires i < |sql| && sql[i].UpsertRoute?
    requires forall j :: i < j < |sql| && sql[j].UpsertRoute? ==> !SameSegment(sql[j].route.key, sql[i].route.key)
    ensures k in ExecuteAll(EMPTY, sql).routes
    ensures var row := ExecuteAll(EMPTY, sql).routes[k];
            && SameSegment(row.key, sql[i].route.key)
            && row.hazard == sql[i].route.hazard && row.delayFactor == sql[i].route.delayFactor
            && row.primary == sql[i].route.primary
  {
    k := RouteSlotOf(sql[i].route.key);
    LatestIsPicked(sql, PickRoute, k, i);
    RouteIsOfLast(sql, k);
    RoutesAtSlots(sql);
    assert RouteRowSlot(ExecuteAll(EMPTY, sql).routes[k]) == k;
  }

  /** And no other row is stored. */
  lemma StoredRouteWasSent(sql: seq<Statement>, k: RouteSlot) returns (i: nat)
    requires k in ExecuteAll(EMPTY, sql).routes
    ensures i < |sql| && sql[i].UpsertRoute?
    ensures SameSegment(ExecuteAll(EMPTY, sql).routes[k].key, sql[i].route.key)
  {
    RouteIsOfLast(sql, k);
    i := LastIsPicked(sql, PickRoute, k);
    RoutesAtSlots(sql);
    assert RouteRowSlot(ExecuteAll(EMPTY, sql).routes[k]) == k;
  }

  // ---------------------------------------------------------------- tiles

  function TileRowSlot(r: TileRow): TileSlot { TileSlotOf(r.key) }

  lemma TilesAtSlots(sql: seq<Statement>)
    ensures AtTheirSlots(ExecuteAll(EMPTY, sql).tiles, TileRowSlot)
  {
    ExecuteIsApply(EMPTY, sql);
    PickedFrom(sql, PickTile);
    var log := TileLog(sql);
    forall i | 0 <= i < |log| ensures TileRowSlot(log[i].1) == log[i].0 {
      assert log[i] in log;
    }
    RowsStayAtSlots(log, MergeTile, TileRowSlot);
  }

  /** No two stored tile rows agree in minute, tile and region. */
  lemma TilesAreApart(sql: seq<Statement>, k: TileSlot, l: TileSlot)
    requires var rows := ExecuteAll(EMPTY, sql).tiles; k in rows && l in rows
    ensures var rows := ExecuteAll(EMPTY, sql).tiles; SameTile(rows[k].key, rows[l].key) <==> k == l
  {
    TilesAtSlots(sql);
    var rows := ExecuteAll(EMPTY, sql).tiles;
    assert TileRowSlot(rows[k]) == k && TileRowSlot(rows[l]) == l;
  }

  lemma TileIsStored(sql: seq<Statement>, i: nat) returns (k: TileSlot)
    requires i < |sql| && sql[i].UpsertTile?
    requires forall j :: i < j < |sql| && sql[j].UpsertTile? ==> !SameTile(sql[j].tile.key, sql[i].tile.key)
    ensures k in ExecuteAll(EMPTY, sql).tiles
    ensures var row, last := ExecuteAll(EMPTY, sql).tiles[k], sql[i].tile;
            && SameTile(row.key, last.key) && row.count == last.count && row.hazard == last.hazard
            && row.latitude == last.latitude && row.longitude == last.longitude
            && row.avgTemperature == last.avgTemperature && row.avgHumidity == last.avgHumidity
            && row.avgCloudCover == last.avgCloudCover && row.avgWind == last.avgWind
            && row.avgPressure == last.avgPressure
  {
    k := TileSlotOf(sql[i].tile.key);
    LatestIsPicked(sql, PickTile, k, i);
    SlotIsOfLast(sql, k);
    TilesAtSlots(sql);
    assert TileRowSlot(ExecuteAll(EMPTY, sql).tiles[k]) == k;
  }

  lemma StoredTileWasSent(sql: seq<Statement>, k: TileSlot) returns (i: nat)
    requires k in ExecuteAll(EMPTY, sql).tiles
    ensures i < |sql| && sql[i].UpsertTile? && SameTile(ExecuteAll(EMPTY, sql).tiles[k].key, sql[i].tile.key)
  {
    SlotIsOfLast(sql, k);
    i := LastIsPicked(sql, PickTile, k);
    TilesAtSlots(sql);
    assert TileRowSlot(ExecuteAll(EMPTY, sql).tiles[k]) == k;
  }

  // ---------------------------------------------------------------- cities

  lemma CitiesAtSlots(sql: seq<Statement>)
    ensures AtTheirSlots(ExecuteAll(EMPTY, sql).cities, CityRowKey)
  {
    ExecuteIsApply(EMPTY, sql);
    PickedFrom(sql, PickCity);
    var log := CityLog(sql);
    forall i | 0 <= i < |log| ensures CityRowKey(log[i].1) == log[i].0 {
      assert log[i] in log;
    }
    RowsStayAtSlots(log, MergeCity, CityRowKey);
  }

  /** No two stored city rows agree in minute, continent, country, region and city. */
  lemma CitiesAreApart(sql: seq<Statement>, k: CityKey, l: CityKey)
    requires var rows := ExecuteAll(EMPTY, sql).cities; k in rows && l in rows
    ensures var rows := ExecuteAll(EMPTY, sql).cities; SameCity(rows[k].key, rows[l].key) <==> k == l
  {
    CitiesAtSlots(sql);
    var rows := ExecuteAll(EMPTY, sql).cities;
    assert CityRowKey(rows[k]) == k && CityRowKey(rows[l]) == l;
  }

  lemma CityIsStored(sql: seq<Statement>, i: nat) returns (k: CityKey)
    requires i < |sql| && sql[i].UpsertCity?
    requires forall j :: i < j < |sql| && sql[j].UpsertCity? ==> !SameCity(sql[j].city.key, sql[i].city.key)
    ensures k in ExecuteAll(EMPTY, sql).cities
    ensures var row, last := ExecuteAll(EMPTY, sql).cities[k], sql[i].city;
            && SameCity(row.key, last.key) && row.count == last.count && row.avgTemperature == last.avgTemperature
            && row.avgHumidity == last.avgHumidity && row.avgWind == last.avgWind
  {
    k := sql[i].city.key;
    LatestIsPicked(sql, PickCity, k, i);
    CityIsOfLast(sql, k);
    CitiesAtSlots(sql);
    assert CityRowKey(ExecuteAll(EMPTY, sql).cities[k]) == k;
  }

  lemma StoredCityWasSent(sql: seq<Statement>, k: CityKey) returns (i: nat)
    requires k in ExecuteAll(EMPTY, sql).cities
    ensures i < |sql| && sql[i].UpsertCity? && SameCity(ExecuteAll(EMPTY, sql).cities[k].key, sql[i].city.key)
  {
    CityIsOfLast(sql, k);
    i := LastIsPicked(sql, PickCity, k);
    CitiesAtSlots(sql);
    assert CityRowKey(ExecuteAll(EMPTY, sql).cities[k]) == k;
  }
}
