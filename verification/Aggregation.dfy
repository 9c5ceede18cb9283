/** The batch writer's flush: one pass over a batch feeds three maps of accumulators, which become
    the city, tile and route rows. */
module Aggregation {
  import opened Weather
  import opened Hazards
  import opened Grouping
  import opened Wrappers
  import opened Sequences

  // ---------------------------------------------------------------- samples and keys

  /** A valid packet with its envelope's id, creation time and route. */
  datatype Sample = Sample(id: string, source: string, createdAt: int, route: string, packet: Packet)

  function SampleOf(e: Envelope): Sample
    requires e.packet.Some?
  {
    Sample(e.id, e.source, e.createdAt, e.route, e.packet.value)
  }

  /** The valid envelopes of a batch. */
  function Samples(batch: seq<Envelope>): seq<Sample> {
    if batch == [] then []
    else
      var last := batch[|batch| - 1];
      Samples(batch[..|batch| - 1]) + (if last.packet.Some? then [SampleOf(last)] else [])
  }

  /** The start of a timestamp's minute; C's division rounds towards zero. */
  function MinuteBucket(timestamp: int): int {
    if timestamp >= 0 then timestamp / 60000 * 60000 else -((-timestamp) / 60000 * 60000)
  }

  function Decimal(n: nat): string {
    if n < 10 then ["0123456789"[n]] else Decimal(n / 10) + ["0123456789"[n % 10]]
  }

  function IntText(n: int): string {
    if n < 0 then "-" + Decimal(-n) else Decimal(n)
  }

  function TileId(p: Packet): string {
    if p.latitude.None? || p.longitude.None? then p.region + ":" + p.city
    else
      "q25:" + IntText(((p.latitude.value + 90.0) * 32.0).Floor)
        + ":" + IntText(((p.longitude.value + 180.0) * 32.0).Floor)
  }

  datatype CityKey = CityKey(bucket: int, continent: string, country: string, region: string, city: string)
  datatype TileKey = TileKey(bucket: int, tile: string, continent: string, country: string, region: string)
  datatype RouteKey = RouteKey(bucket: int, route: string, segment: string, region: string)

  function CityKeyOf(s: Sample): CityKey {
    CityKey(MinuteBucket(s.packet.timestamp), s.packet.continent, s.packet.country, s.packet.region, s.packet.city)
  }

  function TileKeyOf(s: Sample): TileKey {
    TileKey(MinuteBucket(s.packet.timestamp), TileId(s.packet), s.packet.continent, s.packet.country, s.packet.region)
  }

  function RouteKeyOf(s: Sample): RouteKey {
    RouteKey(MinuteBucket(s.packet.timestamp),
             if s.route == "" then "route." + s.packet.region else s.route,
             if s.packet.stationId == "" then TileId(s.packet) else s.packet.stationId,
             s.packet.region)
  }

  // ---------------------------------------------------------------- what is measured of a sample

  function Temp(s: Sample): real { s.packet.temperature }
  function Humid(s: Sample): real { s.packet.humidity }
  function WindOf(s: Sample): real { s.packet.windSpeed }
  function HazardOf(s: Sample): real { HazardScore(s.packet) }
  function DelayOf(s: Sample): real { DelayFactor(s.packet) }
  function MaybeTemp(s: Sample): Option<real> { Some(s.packet.temperature) }
  function Visib(s: Sample): Option<real> { s.packet.visibilityKm }
  function Precip(s: Sample): Option<real> { s.packet.precipitationMm }

  function OrZero(x: Option<real>): real { match x case None => 0.0 case Some(v) => v }
  predicate HasPressure(s: Sample) { s.packet.pressureHpa.Some? }
  predicate HasCloud(s: Sample) { s.packet.cloudCoverPercent.Some? }
  predicate HasPlace(s: Sample) { s.packet.latitude.Some? && s.packet.longitude.Some? }
  function Pressure(s: Sample): real { OrZero(s.packet.pressureHpa) }
  function CloudCover(s: Sample): real { OrZero(s.packet.cloudCoverPercent) }
  function Latitude(s: Sample): real { if HasPlace(s) then OrZero(s.packet.latitude) else 0.0 }
  function Longitude(s: Sample): real { if HasPlace(s) then OrZero(s.packet.longitude) else 0.0 }

  // ---------------------------------------------------------------- accumulators

  datatype TileAcc = TileAcc(
    sampleCount: nat, sumLatitude: real, sumLongitude: real, geoCount: nat,
    sumTemperature: real, sumHumidity: real, sumWind: real,
    sumPressure: real, pressureCount: nat, sumCloudCover: real, cloudCount: nat,
    minVisibility: Option<real>, maxPrecipitation: Option<real>, sumHazard: real)

  datatype RouteAcc = RouteAcc(
    sampleCount: nat, sumHazard: real, sumDelayFactor: real, maxHazard: real, primary: Hazard)

  /** What a tile's accumulator must be for a group. */
  function TileStats(g: seq<Sample>): TileAcc {
    TileAcc(|g|, Sum(g, Latitude), Sum(g, Longitude), Count(g, HasPlace),
            Sum(g, Temp), Sum(g, Humid), Sum(g, WindOf),
            Sum(g, Pressure), Count(g, HasPressure), Sum(g, CloudCover), Count(g, HasCloud),
            MinOf(g, Visib), MaxOf(g, Precip), Sum(g, HazardOf))
  }

  predicate IsEarliestWorst(g: seq<Sample>, w: nat) {
    && w < |g|
    && (forall j :: 0 <= j < |g| ==> HazardOf(g[j]) <= HazardOf(g[w]))
    && (forall j :: 0 <= j < w ==> HazardOf(g[j]) < HazardOf(g[w]))
  }

  /** The first sample of a group whose hazard is the group's greatest. */
  function Worst(g: seq<Sample>): (i: nat)
    requires g != []
    ensures IsEarliestWorst(g, i)
  {
    var n := |g| - 1;
    if n == 0 then 0
    else
      var i := Worst(g[..n]);
      assert forall j :: 0 <= j < n ==> g[..n][j] == g[j];
      if HazardOf(g[n]) > HazardOf(g[i]) then n else i
  }

  /** What a route segment's accumulator must be for a group. */
  function RouteStats(g: seq<Sample>): RouteAcc {
    if g == [] then RouteAcc(0, 0.0, 0.0, -1.0, Wind)
    else
      RouteAcc(|g|, Sum(g, HazardOf), Sum(g, DelayOf), HazardOf(g[Worst(g)]), PrimaryHazard(g[Worst(g)].packet))
  }

  function Itself(g: seq<Sample>): seq<Sample> { g }

  // ---------------------------------------------------------------- one pass

  function BoolToNat(b: bool): nat { if b then 1 else 0 }

  /** The accumulator with one sample more: absent measurements add nothing. */
  function TilePlus(a: TileAcc, s: Sample): TileAcc {
    TileAcc(a.sampleCount + 1, a.sumLatitude + Latitude(s), a.sumLongitude + Longitude(s),
            a.geoCount + BoolToNat(HasPlace(s)),
            a.sumTemperature + Temp(s), a.sumHumidity + Humid(s), a.sumWind + WindOf(s),
            a.sumPressure + Pressure(s), a.pressureCount + BoolToNat(HasPressure(s)),
            a.sumCloudCover + CloudCover(s), a.cloudCount + BoolToNat(HasCloud(s)),
            Least(a.minVisibility, Visib(s)), Greatest(a.maxPrecipitation, Precip(s)), a.sumHazard + HazardOf(s))
  }

  method LowerTo(current: Option<real>, measured: Option<real>) returns (r: Option<real>)
    ensures r == Least(current, measured)
  {
    r := current;
    if measured.Some? {
      if r.None? {
        r := measured;
      } else if measured.value < r.value {
        r := measured;
      }
    }
  }

  method RaiseTo(current: Option<real>, measured: Option<real>) returns (r: Option<real>)
    ensures r == Greatest(current, measured)
  {
    r := current;
    if measured.Some? {
      if r.None? {
        r := measured;
      } else if measured.value > r.value {
        r := measured;
      }
    }
  }

  method AddOptional(sum: real, count: nat, measured: Option<real>) returns (newSum: real, newCount: nat)
    ensures newSum == sum + OrZero(measured) && newCount == count + BoolToNat(measured.Some?)
  {
    newSum, newCount := sum, count;
    if measured.Some? {
      newSum := newSum + measured.value;
      newCount := newCount + 1;
    }
  }

  /** The tile part of the loop body. */
  method AddToTile(acc: TileAcc, s: Sample) returns (r: TileAcc)
    ensures r == TilePlus(acc, s)
  {
    var p := s.packet;
    var sumPressure, pressureCount := AddOptional(acc.sumPressure, acc.pressureCount, p.pressureHpa);
    var sumCloudCover, cloudCount := AddOptional(acc.sumCloudCover, acc.cloudCount, p.cloudCoverPercent);
    var minVisibility := LowerTo(acc.minVisibility, p.visibilityKm);
    var maxPrecipitation := RaiseTo(acc.maxPrecipitation, p.precipitationMm);
    var sumLatitude, sumLongitude, geoCount := acc.sumLatitude, acc.sumLongitude, acc.geoCount;
    if p.latitude.Some? && p.longitude.Some? {
      sumLatitude := sumLatitude + p.latitude.value;
      sumLongitude := sumLongitude + p.longitude.value;
      geoCount := geoCount + 1;
    }
    r := TileAcc(acc.sampleCount + 1, sumLatitude, sumLongitude, geoCount,
                 acc.sumTemperature + p.temperature, acc.sumHumidity + p.humidity, acc.sumWind + p.windSpeed,
                 sumPressure, pressureCount, sumCloudCover, cloudCount,
                 minVisibility, maxPrecipitation, acc.sumHazard + HazardOf(s));
  }

  /** Adding a sample to a group's statistic gives the statistic of the longer group. */
  lemma TileStatsOfOneMore(g: seq<Sample>, s: Sample)
    ensures TileStats(g + [s]) == TilePlus(TileStats(g), s)
  {
  }

  method AddToRoute(acc: RouteAcc, s: Sample, ghost g: seq<Sample>) returns (r: RouteAcc)
    requires acc == RouteStats(g)
    ensures r == RouteStats(g + [s])
  {
    var currentHazard := HazardScore(s.packet);
    var crosswindNorm100 := WindNorm(s.packet) * 100.0;
    var currentDelayFactor := 1.0 + 0.004 * currentHazard + 0.002 * crosswindNorm100;
    r := acc.(sampleCount := acc.sampleCount + 1,
              sumHazard := acc.sumHazard + currentHazard,
              sumDelayFactor := acc.sumDelayFactor + currentDelayFactor);
    if currentHazard > r.maxHazard {
      r := r.(maxHazard := currentHazard, primary := PrimaryHazard(s.packet));
    }
    SumOfOneMore(g, s, HazardOf);
    SumOfOneMore(g, s, DelayOf);
    SplitAppend(g, [s]);
  }

  method AddToCity(groups: map<CityKey, seq<Sample>>, s: Sample, ghost done: seq<Sample>)
      returns (r: map<CityKey, seq<Sample>>)
    requires Holds(groups, done, CityKeyOf, Itself)
    ensures Holds(r, done + [s], CityKeyOf, Itself)
  {
    var key := CityKeyOf(s);
    var packets := if key in groups then groups[key] else [];
    assert HoldsAt(groups, done, CityKeyOf, Itself, key);
    HoldsAfterOneMore(groups, done, CityKeyOf, Itself, s, packets + [s]);
    r := groups[key := packets + [s]];
  }

  method AddToTiles(groups: map<TileKey, TileAcc>, s: Sample, ghost done: seq<Sample>)
      returns (r: map<TileKey, TileAcc>)
    requires Holds(groups, done, TileKeyOf, TileStats)
    ensures Holds(r, done + [s], TileKeyOf, TileStats)
  {
    var key := TileKeyOf(s);
    assert HoldsAt(groups, done, TileKeyOf, TileStats, key);
    var nothing := TileAcc(0, 0.0, 0.0, 0, 0.0, 0.0, 0.0, 0.0, 0, 0.0, 0, None, None, 0.0);
    var acc := if key in groups then groups[key] else nothing;
    acc := AddToTile(acc, s);
    TileStatsOfOneMore(Group(done, TileKeyOf, key), s);
    HoldsAfterOneMore(groups, done, TileKeyOf, TileStats, s, acc);
    r := groups[key := acc];
  }

  method AddToRoutes(groups: map<RouteKey, RouteAcc>, s: Sample, ghost done: seq<Sample>)
      returns (r: map<RouteKey, RouteAcc>)
    requires Holds(groups, done, RouteKeyOf, RouteStats)
    ensures Holds(r, done + [s], RouteKeyOf, RouteStats)
  {
    var key := RouteKeyOf(s);
    assert HoldsAt(groups, done, RouteKeyOf, RouteStats, key);
    var acc := if key in groups then groups[key] else RouteAcc(0, 0.0, 0.0, -1.0, Wind);
    acc := AddToRoute(acc, s, Group(done, RouteKeyOf, key));
    HoldsAfterOneMore(groups, done, RouteKeyOf, RouteStats, s, acc);
    r := groups[key := acc];
  }

  lemma SamplesOfOneMore(batch: seq<Envelope>, e: Envelope)
    ensures Samples(batch + [e]) == Samples(batch) + (if e.packet.Some? then [SampleOf(e)] else [])
  {
  }

  /** The loop over the envelopes: a raw row each, and the three maps in one pass. */
  method Accumulate(batch: seq<Envelope>)
    returns (rawRows: seq<Sample>, cities: map<CityKey, seq<Sample>>,
             tiles: map<TileKey, TileAcc>, routes: map<RouteKey, RouteAcc>)
    ensures rawRows == Samples(batch)
    ensures Holds(cities, Samples(batch), CityKeyOf, Itself)
    ensures Holds(tiles, Samples(batch), TileKeyOf, TileStats)
    ensures Holds(routes, Samples(batch), RouteKeyOf, RouteStats)
  {
    rawRows, cities, tiles, routes := [], map[], map[], map[];
    var i := 0;
    while i < |batch|
      invariant 0 <= i <= |batch|
      invariant rawRows == Samples(batch[..i])
      invariant Holds(cities, rawRows, CityKeyOf, Itself)
      invariant Holds(tiles, rawRows, TileKeyOf, TileStats)
      invariant Holds(routes, rawRows, RouteKeyOf, RouteStats)
    {
      NextPrefix(batch, i);
      SamplesOfOneMore(batch[..i], batch[i]);
      if batch[i].packet.Some? {
        var s := SampleOf(batch[i]);
        cities := AddToCity(cities, s, rawRows);
        tiles := AddToTiles(tiles, s, rawRows);
        routes := AddToRoutes(routes, s, rawRows);
        rawRows := rawRows + [s];
      } else {
        AppendNothing(rawRows);
      }
      i := i + 1;
    }
    WholeSlice(batch);
  }

  // ---------------------------------------------------------------- rows

  datatype CityRow = CityRow(
    key: CityKey, count: nat, minTemperature: real, maxTemperature: real,
    avgTemperature: real, avgHumidity: real, avgWind: real)

  datatype TileRow = TileRow(
    key: TileKey, count: nat, latitude: Option<real>, longitude: Option<real>,
    avgTemperature: real, avgHumidity: real, avgCloudCover: Option<real>, avgWind: real,
    avgPressure: Option<real>, minVisibility: Option<real>, maxPrecipitation: Option<real>, hazard: real)

  datatype RouteRow = RouteRow(key: RouteKey, hazard: real, delayFactor: real, primary: Hazard)

  function Average(sum: real, n: nat): real {
    if n == 0 then 0.0 else sum / n as real
  }

  function OptionalAverage(sum: real, n: nat): Option<real> {
    if n == 0 then None else Some(Average(sum, n))
  }

  /** The row of a group of samples, as the program documents its columns. */
  function CityRowOf(key: CityKey, g: seq<Sample>): CityRow {
    CityRow(key, |g|, OrZero(MinOf(g, MaybeTemp)), OrZero(MaxOf(g, MaybeTemp)),
            Average(Sum(g, Temp), |g|), Average(Sum(g, Humid), |g|), Average(Sum(g, WindOf), |g|))
  }

  function TileRowOf(key: TileKey, g: seq<Sample>): TileRow {
    TileRow(key, |g|,
            OptionalAverage(Sum(g, Latitude), Count(g, HasPlace)),
            OptionalAverage(Sum(g, Longitude), Count(g, HasPlace)),
            Average(Sum(g, Temp), |g|), Average(Sum(g, Humid), |g|),
            OptionalAverage(Sum(g, CloudCover), Count(g, HasCloud)), Average(Sum(g, WindOf), |g|),
            OptionalAverage(Sum(g, Pressure), Count(g, HasPressure)),
            MinOf(g, Visib), MaxOf(g, Precip), Average(Sum(g, HazardOf), |g|))
  }

  function RouteRowOf(key: RouteKey, g: seq<Sample>): RouteRow {
    RouteRow(key, Average(Sum(g, HazardOf), |g|), Average(Sum(g, DelayOf), |g|),
             if g == [] then Wind else PrimaryHazard(g[Worst(g)].packet))
  }

  function CityRowKey(row: CityRow): CityKey { row.key }
  function TileRowKey(row: TileRow): TileKey { row.key }
  function RouteRowKey(row: RouteRow): RouteKey { row.key }

  function KeysOf<R, K>(rows: seq<R>, keyOf: R -> K): (keys: seq<K>)
    ensures |keys| == |rows|
  {
    seq(|rows|, i requires 0 <= i < |rows| => keyOf(rows[i]))
  }

  /** One row for every non-empty group, in some order, each the row of its group. */
  ghost predicate RowsFor<S(!new), K(!new), R>(
      rows: seq<R>, samples: seq<S>, key: S -> K, rowKey: R -> K, rowOf: (K, seq<S>) -> R)
  {
    && Distinct(KeysOf(rows, rowKey))
    && (forall k :: k in KeysOf(rows, rowKey) <==> Group(samples, key, k) != [])
    && (forall i :: 0 <= i < |rows| ==> rows[i] == rowOf(rowKey(rows[i]), Group(samples, key, rowKey(rows[i]))))
  }

  /** What the loop over a city's packets has gathered from the first ones. */
  datatype CityAcc = CityAcc(minTemp: real, maxTemp: real, sumTemp: real, sumHumidity: real, sumWind: real)

  ghost predicate Gathered(g: seq<Sample>, acc: CityAcc) {
    && acc.sumTemp == Sum(g, Temp) && acc.sumHumidity == Sum(g, Humid) && acc.sumWind == Sum(g, WindOf)
    && (g != [] ==> MinOf(g, MaybeTemp) == Some(acc.minTemp) && MaxOf(g, MaybeTemp) == Some(acc.maxTemp))
  }

  method Gather(acc: CityAcc, s: Sample, ghost g: seq<Sample>) returns (r: CityAcc)
    requires Gathered(g, acc)
    requires g == [] ==> acc.minTemp == acc.maxTemp == s.packet.temperature
    ensures Gathered(g + [s], r)
  {
    var t := s.packet.temperature;
    var minTemp := if t < acc.minTemp then t else acc.minTemp;
    var maxTemp := if t > acc.maxTemp then t else acc.maxTemp;
    r := CityAcc(minTemp, maxTemp, acc.sumTemp + t, acc.sumHumidity + s.packet.humidity,
                 acc.sumWind + s.packet.windSpeed);
    SumOfOneMore(g, s, Temp);
    SumOfOneMore(g, s, Humid);
    SumOfOneMore(g, s, WindOf);
    ExtremesOfOneMore(g, s, MaybeTemp);
  }

  /** The loop over one city's packets. */
  method MakeCityRow(key: CityKey, packets: seq<Sample>) returns (row: CityRow)
    requires packets != []
    ensures row == CityRowOf(key, packets)
  {
    var acc := CityAcc(packets[0].packet.temperature, packets[0].packet.temperature, 0.0, 0.0, 0.0);
    var i := 0;
    while i < |packets|
      invariant 0 <= i <= |packets|
      invariant Gathered(packets[..i], acc)
      invariant i == 0 ==> acc.minTemp == acc.maxTemp == packets[0].packet.temperature
    {
      NextPrefix(packets, i);
      acc := Gather(acc, packets[i], packets[..i]);
      i := i + 1;
    }
    WholeSlice(packets);
    var n := |packets| as real;
    row := CityRow(key, |packets|, acc.minTemp, acc.maxTemp, acc.sumTemp / n, acc.sumHumidity / n, acc.sumWind / n);
  }

  method MakeTileRow(key: TileKey, acc: TileAcc, ghost g: seq<Sample>) returns (row: TileRow)
    requires g != [] && acc == TileStats(g)
    ensures row == TileRowOf(key, g)
  {
    var n := acc.sampleCount as real;
    row := TileRow(
      key, acc.sampleCount,
      if acc.geoCount > 0 then Some(acc.sumLatitude / acc.geoCount as real) else None,
      if acc.geoCount > 0 then Some(acc.sumLongitude / acc.geoCount as real) else None,
      acc.sumTemperature / n, acc.sumHumidity / n,
      if acc.cloudCount > 0 then Some(acc.sumCloudCover / acc.cloudCount as real) else None,
      acc.sumWind / n,
      if acc.pressureCount > 0 then Some(acc.sumPressure / acc.pressureCount as real) else None,
      acc.minVisibility, acc.maxPrecipitation, acc.sumHazard / n);
  }

  method MakeRouteRow(key: RouteKey, acc: RouteAcc, ghost g: seq<Sample>) returns (row: RouteRow)
    requires g != [] && acc == RouteStats(g)
    ensures row == RouteRowOf(key, g)
  {
    var n := acc.sampleCount as real;
    row := RouteRow(key, acc.sumHazard / n, acc.sumDelayFactor / n, acc.primary);
  }

  // ---------------------------------------------------------------- listing the rows

  /** Rows for all keys but those still left. */
  ghost predicate RowsSoFar<S(!new), K(!new), R>(
      rows: seq<R>, left: set<K>, all: set<K>, samples: seq<S>, key: S -> K, rowKey: R -> K, rowOf: (K, seq<S>) -> R)
  {
    && Distinct(KeysOf(rows, rowKey)) && left <= all
    && (forall k :: k in KeysOf(rows, rowKey) <==> k in all && k !in left)
    && (forall i :: 0 <= i < |rows| ==> rows[i] == rowOf(rowKey(rows[i]), Group(samples, key, rowKey(rows[i]))))
  }

  lemma OneMoreRow<S(!new), K(!new), R>(
      rows: seq<R>, left: set<K>, all: set<K>, samples: seq<S>, key: S -> K, rowKey: R -> K, rowOf: (K, seq<S>) -> R,
      k: K, row: R)
    requires RowsSoFar(rows, left, all, samples, key, rowKey, rowOf)
    requires k in left && rowKey(row) == k && row == rowOf(k, Group(samples, key, k))
    ensures RowsSoFar(rows + [row], left - {k}, all, samples, key, rowKey, rowOf)
  {
    var keys, more := KeysOf(rows, rowKey), KeysOf(rows + [row], rowKey);
    assert more == keys + [k];
    assert k !in keys;
  }

  method CityRows(groups: map<CityKey, seq<Sample>>, ghost samples: seq<Sample>) returns (rows: seq<CityRow>)
    requires Holds(groups, samples, CityKeyOf, Itself)
    ensures RowsFor(rows, samples, CityKeyOf, CityRowKey, CityRowOf)
  {
    rows := [];
    var left := groups.Keys;
    while left != {}
      invariant RowsSoFar(rows, left, groups.Keys, samples, CityKeyOf, CityRowKey, CityRowOf)
      decreases |left|
    {
      var key :| key in left;
      assert HoldsAt(groups, samples, CityKeyOf, Itself, key);
      var row := MakeCityRow(key, groups[key]);
      OneMoreRow(rows, left, groups.Keys, samples, CityKeyOf, CityRowKey, CityRowOf, key, row);
      rows := rows + [row];
      left := left - {key};
    }
    forall k ensures k in KeysOf(rows, CityRowKey) <==> Group(samples, CityKeyOf, k) != [] {
      assert HoldsAt(groups, samples, CityKeyOf, Itself, k);
    }
  }

  method TileRows(groups: map<TileKey, TileAcc>, ghost samples: seq<Sample>) returns (rows: seq<TileRow>)
    requires Holds(groups, samples, TileKeyOf, TileStats)
    ensures RowsFor(rows, samples, TileKeyOf, TileRowKey, TileRowOf)
  {
    rows := [];
    var left := groups.Keys;
    while left != {}
      invariant RowsSoFar(rows, left, groups.Keys, samples, TileKeyOf, TileRowKey, TileRowOf)
      decreases |left|
    {
      var key :| key in left;
      assert HoldsAt(groups, samples, TileKeyOf, TileStats, key);
      var row := MakeTileRow(key, groups[key], Group(samples, TileKeyOf, key));
      OneMoreRow(rows, left, groups.Keys, samples, TileKeyOf, TileRowKey, TileRowOf, key, row);
      rows := rows + [row];
      left := left - {key};
    }
    forall k ensures k in KeysOf(rows, TileRowKey) <==> Group(samples, TileKeyOf, k) != [] {
      assert HoldsAt(groups, samples, TileKeyOf, TileStats, k);
    }
  }

  method RouteRows(groups: map<RouteKey, RouteAcc>, ghost samples: seq<Sample>) returns (rows: seq<RouteRow>)
    requires Holds(groups, samples, RouteKeyOf, RouteStats)
    ensures RowsFor(rows, samples, RouteKeyOf, RouteRowKey, RouteRowOf)
  {
    rows := [];
    var left := groups.Keys;
    while left != {}
      invariant RowsSoFar(rows, left, groups.Keys, samples, RouteKeyOf, RouteRowKey, RouteRowOf)
      decreases |left|
    {
      var key :| key in left;
      assert HoldsAt(groups, samples, RouteKeyOf, RouteStats, key);
      var row := MakeRouteRow(key, groups[key], Group(samples, RouteKeyOf, key));
      OneMoreRow(rows, left, groups.Keys, samples, RouteKeyOf, RouteRowKey, RouteRowOf, key, row);
      rows := rows + [row];
      left := left - {key};
    }
    forall k ensures k in KeysOf(rows, RouteRowKey) <==> Group(samples, RouteKeyOf, k) != [] {
      assert HoldsAt(groups, samples, RouteKeyOf, RouteStats, k);
    }
  }

  /** What a flush writes for a batch, whatever the order of the rows within a table. */
  datatype Flush = Flush(raw: seq<Sample>, cities: seq<CityRow>, tiles: seq<TileRow>, routes: seq<RouteRow>)

  ghost predicate IsFlush(batch: seq<Envelope>, f: Flush) {
    && f.raw == Samples(batch)
    && RowsFor(f.cities, Samples(batch), CityKeyOf, CityRowKey, CityRowOf)
    && RowsFor(f.tiles, Samples(batch), TileKeyOf, TileRowKey, TileRowOf)
    && RowsFor(f.routes, Samples(batch), RouteKeyOf, RouteRowKey, RouteRowOf)
  }

  /** The one-pass flush computes the group-by of the valid envelopes. */
  method FlushBatch(batch: seq<Envelope>) returns (f: Flush)
    ensures IsFlush(batch, f)
  {
    var rawRows, cities, tiles, routes := Accumulate(batch);
    var cityRows := CityRows(cities, Samples(batch));
    var tileRows := TileRows(tiles, Samples(batch));
    var routeRows := RouteRows(routes, Samples(batch));
    f := Flush(rawRows, cityRows, tileRows, routeRows);
  }

  // ---------------------------------------------------------------- what the rows say

  function CityCounts(rows: seq<CityRow>): nat {
    if rows == [] then 0 else rows[0].count + CityCounts(rows[1..])
  }

  function TileCounts(rows: seq<TileRow>): nat {
    if rows == [] then 0 else rows[0].count + TileCounts(rows[1..])
  }

  /** Every sample's key has a row. */
  lemma RowsCover<S(!new), K(!new), R>(rows: seq<R>, samples: seq<S>, key: S -> K, rowKey: R -> K,
      rowOf: (K, seq<S>) -> R)
    requires RowsFor(rows, samples, key, rowKey, rowOf)
    ensures SizeTotal(samples, key, KeysOf(rows, rowKey)) == |samples|
  {
    forall i | 0 <= i < |samples| ensures key(samples[i]) in KeysOf(rows, rowKey) {
      GroupMembers(samples, key, key(samples[i]));
    }
    GroupsPartition(samples, key, KeysOf(rows, rowKey));
  }

  lemma {:induction false} CityCountsAreSizes(rows: seq<CityRow>, samples: seq<Sample>)
    requires forall i :: 0 <= i < |rows| ==> rows[i] == CityRowOf(rows[i].key, Group(samples, CityKeyOf, rows[i].key))
    ensures CityCounts(rows) == SizeTotal(samples, CityKeyOf, KeysOf(rows, CityRowKey))
    decreases |rows|
  {
    if rows != [] {
      CityCountsAreSizes(rows[1..], samples);
      assert KeysOf(rows, CityRowKey)[1..] == KeysOf(rows[1..], CityRowKey);
    }
  }

  lemma {:induction false} TileCountsAreSizes(rows: seq<TileRow>, samples: seq<Sample>)
    requires forall i :: 0 <= i < |rows| ==> rows[i] == TileRowOf(rows[i].key, Group(samples, TileKeyOf, rows[i].key))
    ensures TileCounts(rows) == SizeTotal(samples, TileKeyOf, KeysOf(rows, TileRowKey))
    decreases |rows|
  {
    if rows != [] {
      TileCountsAreSizes(rows[1..], samples);
      assert KeysOf(rows, TileRowKey)[1..] == KeysOf(rows[1..], TileRowKey);
    }
  }

  /** Every valid envelope is counted in exactly one city row, one tile row and one route group. */
  lemma CountsAddUp(batch: seq<Envelope>, f: Flush)
    requires IsFlush(batch, f)
    ensures CityCounts(f.cities) == TileCounts(f.tiles) == |Samples(batch)|
    ensures SizeTotal(Samples(batch), RouteKeyOf, KeysOf(f.routes, RouteRowKey)) == |Samples(batch)|
  {
    RowsCover(f.cities, Samples(batch), CityKeyOf, CityRowKey, CityRowOf);
    RowsCover(f.tiles, Samples(batch), TileKeyOf, TileRowKey, TileRowOf);
    RowsCover(f.routes, Samples(batch), RouteKeyOf, RouteRowKey, RouteRowOf);
    CityCountsAreSizes(f.cities, Samples(batch));
    TileCountsAreSizes(f.tiles, Samples(batch));
  }

  /** The average temperature of a city row lies between its minimum and maximum, which samples attain. */
  lemma CityRowIsSound(batch: seq<Envelope>, f: Flush, i: nat)
    requires IsFlush(batch, f) && i < |f.cities|
    ensures var row := f.cities[i];
            && row.count > 0 && row.minTemperature <= row.avgTemperature <= row.maxTemperature
            && (exists s :: s in Samples(batch) && CityKeyOf(s) == row.key && Temp(s) == row.minTemperature)
            && (exists s :: s in Samples(batch) && CityKeyOf(s) == row.key && Temp(s) == row.maxTemperature)
  {
    var row := f.cities[i];
    assert KeysOf(f.cities, CityRowKey)[i] == row.key;
    var g := Group(Samples(batch), CityKeyOf, row.key);
    MinIsLeast(g, MaybeTemp);
    MaxIsGreatest(g, MaybeTemp);
    assert MaybeTemp(g[0]).Some?;
    AverageWithinBounds(g, Temp, row.minTemperature, row.maxTemperature);
    GroupMembers(Samples(batch), CityKeyOf, row.key);
    var lo :| 0 <= lo < |g| && MaybeTemp(g[lo]) == MinOf(g, MaybeTemp);
    var hi :| 0 <= hi < |g| && MaybeTemp(g[hi]) == MaxOf(g, MaybeTemp);
    assert g[lo] in g && g[hi] in g;
  }

  /** Tile and route hazards lie between 0 and 100, delay factors between 1 and 1.6. */
  lemma HazardsAreInRange(batch: seq<Envelope>, f: Flush)
    requires IsFlush(batch, f)
    ensures forall i :: 0 <= i < |f.tiles| ==> 0.0 <= f.tiles[i].hazard <= 100.0
    ensures forall i :: 0 <= i < |f.routes| ==>
              0.0 <= f.routes[i].hazard <= 100.0 && 1.0 <= f.routes[i].delayFactor <= 1.6
  {
    forall i | 0 <= i < |f.tiles| ensures 0.0 <= f.tiles[i].hazard <= 100.0 {
      assert KeysOf(f.tiles, TileRowKey)[i] == f.tiles[i].key;
      AverageWithinBounds(Group(Samples(batch), TileKeyOf, f.tiles[i].key), HazardOf, 0.0, 100.0);
    }
    forall i | 0 <= i < |f.routes|
      ensures 0.0 <= f.routes[i].hazard <= 100.0 && 1.0 <= f.routes[i].delayFactor <= 1.6
    {
      assert KeysOf(f.routes, RouteRowKey)[i] == f.routes[i].key;
      AverageWithinBounds(Group(Samples(batch), RouteKeyOf, f.routes[i].key), HazardOf, 0.0, 100.0);
      AverageWithinBounds(Group(Samples(batch), RouteKeyOf, f.routes[i].key), DelayOf, 1.0, 1.6);
    }
  }

  lemma RouteRowAt(batch: seq<Envelope>, f: Flush, i: nat)
    requires IsFlush(batch, f) && i < |f.routes|
    ensures var g := Group(Samples(batch), RouteKeyOf, f.routes[i].key);
            g != [] && f.routes[i].primary == PrimaryHazard(g[Worst(g)].packet)
  {
    assert KeysOf(f.routes, RouteRowKey)[i] == f.routes[i].key;
  }

  /** A route row's primary hazard is that of the earliest sample with the group's greatest hazard. */
  lemma PrimaryOfTheWorst(batch: seq<Envelope>, f: Flush, i: nat) returns (w: nat)
    requires IsFlush(batch, f) && i < |f.routes|
    ensures var g := Group(Samples(batch), RouteKeyOf, f.routes[i].key);
            IsEarliestWorst(g, w) && f.routes[i].primary == PrimaryHazard(g[w].packet)
  {
    RouteRowAt(batch, f, i);
    var g := Group(Samples(batch), RouteKeyOf, f.routes[i].key);
    w := Worst(g);
  }
}
