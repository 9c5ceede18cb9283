/** What the rows of a flush say about its samples: whose they are, and how each column grows with a sample. */
module RowMeaning {
  import opened Weather
  import opened Hazards
  import opened Grouping
  import opened Aggregation
  import opened Numbers
  import opened Wrappers
  import opened Sequences

  // ---------------------------------------------------------------- minutes

  /** A whole minute, at or before the time; before 1970, at or after it. */
  predicate IsMinuteOf(bucket: int, timestamp: int) {
    bucket % 60000 == 0
    && (if timestamp >= 0 then bucket <= timestamp < bucket + 60000 else bucket - 60000 < timestamp <= bucket)
  }

  lemma MinuteMeaning(timestamp: int)
    ensures IsMinuteOf(MinuteBucket(timestamp), timestamp)
  {
  }

  // ---------------------------------------------------------------- tiles

  /** The number that digits denote. */
  function Value(digits: string): nat
    requires AllDigits(digits)
  {
    if digits == "" then 0
    else Value(digits[..|digits| - 1]) * 10 + (digits[|digits| - 1] - '0') as nat
  }

  predicate AllDigits(s: string) { forall i :: 0 <= i < |s| ==> '0' <= s[i] <= '9' }

  lemma {:induction false} DecimalReadsBack(n: nat)
    ensures Decimal(n) != "" && AllDigits(Decimal(n)) && Value(Decimal(n)) == n
    decreases n
  {
    if n >= 10 {
      DecimalReadsBack(n / 10);
      var front, last := Decimal(n / 10), "0123456789"[n % 10];
      SplitAppend(front, [last]);
      assert last == '0' + (n % 10) as char;
    } else {
      assert Decimal(n) == ['0' + n as char] && Decimal(n)[..0] == "";
    }
  }

  /** The number that a text with an optional minus sign denotes. */
  function Number(text: string): int {
    if text != "" && text[0] == '-' then (if AllDigits(text[1..]) then -(Value(text[1..]) as int) else 0)
    else if AllDigits(text) then Value(text) else 0
  }

  lemma DigitsRead(d: string)
    requires d != "" && AllDigits(d)
    ensures Number(d) == Value(d) && ':' !in d
  {
    assert '0' <= d[0] <= '9';
  }

  lemma MinusRead(d: string)
    requires AllDigits(d)
    ensures Number("-" + d) == -(Value(d) as int)
    ensures ':' !in d ==> ':' !in "-" + d
  {
    SplitAppend("-", d);
  }

  lemma IntTextReadsBack(n: int)
    ensures Number(IntText(n)) == n && ':' !in IntText(n)
  {
    var size: nat := if n < 0 then -n else n;
    DecimalReadsBack(size);
    DigitsRead(Decimal(size));
    MinusRead(Decimal(size));
  }

  /** The cell of a grid of 32 to the degree, counted from 90 south and 180 west. */
  predicate InCell(p: Packet, row: int, column: int) {
    && p.latitude.Some? && p.longitude.Some?
    && row as real <= (p.latitude.value + 90.0) * 32.0 < (row + 1) as real
    && column as real <= (p.longitude.value + 180.0) * 32.0 < (column + 1) as real
  }

  lemma CellIsTile(p: Packet, row: int, column: int)
    requires InCell(p, row, column)
    ensures TileId(p) == "q25:" + IntText(row) + ":" + IntText(column)
  {
    FloorIs((p.latitude.value + 90.0) * 32.0, row);
    FloorIs((p.longitude.value + 180.0) * 32.0, column);
    TileOfFloors(p, row, column);
  }

  lemma TileOfFloors(p: Packet, row: int, column: int)
    requires p.latitude.Some? && p.longitude.Some?
    requires row == ((p.latitude.value + 90.0) * 32.0).Floor && column == ((p.longitude.value + 180.0) * 32.0).Floor
    ensures TileId(p) == "q25:" + IntText(row) + ":" + IntText(column)
  {
  }

  lemma FloorIs(x: real, n: int)
    requires n as real <= x < (n + 1) as real
    ensures x.Floor == n
  {
  }

  lemma PacketHasCell(p: Packet) returns (row: int, column: int)
    requires p.latitude.Some? && p.longitude.Some?
    ensures InCell(p, row, column)
  {
    row, column := ((p.latitude.value + 90.0) * 32.0).Floor, ((p.longitude.value + 180.0) * 32.0).Floor;
  }

  lemma FirstColon(a: string, b: string)
    requires ':' !in a
    ensures var t := a + ":" + b;
            && |a| < |t| && t[|a|] == ':' && (forall i :: 0 <= i < |a| ==> t[i] != ':')
            && t[..|a|] == a && t[|a| + 1..] == b
  {
  }

  lemma SplitAtColon(a: string, b: string, c: string, d: string)
    requires ':' !in a && ':' !in c
    ensures a + ":" + b == c + ":" + d <==> a == c && b == d
  {
    FirstColon(a, b);
    FirstColon(c, d);
  }

  lemma Unprefixed(row: int, column: int)
    ensures ("q25:" + IntText(row) + ":" + IntText(column))[4..] == IntText(row) + ":" + IntText(column)
  {
    Associate("q25:", IntText(row), ":");
    Associate("q25:", IntText(row) + ":", IntText(column));
    SplitAppend("q25:", IntText(row) + ":" + IntText(column));
  }

  lemma CellTextsDiffer(row: int, column: int, row': int, column': int)
    ensures "q25:" + IntText(row) + ":" + IntText(column) == "q25:" + IntText(row') + ":" + IntText(column')
       <==> row == row' && column == column'
  {
    IntTextReadsBack(row);
    IntTextReadsBack(row');
    IntTextReadsBack(column);
    IntTextReadsBack(column');
    Unprefixed(row, column);
    Unprefixed(row', column');
    SplitAtColon(IntText(row), IntText(column), IntText(row'), IntText(column'));
  }

  /** Packets with a place have the same tile exactly when they are in the same cell; a packet without one
      has a tile of its region and city. */
  lemma TileMeaning(p: Packet, q: Packet)
    ensures p.latitude.Some? && p.longitude.Some? && q.latitude.Some? && q.longitude.Some? ==>
              (TileId(p) == TileId(q) <==> exists row, column :: InCell(p, row, column) && InCell(q, row, column))
    ensures p.latitude.None? || p.longitude.None? ==> TileId(p) == p.region + ":" + p.city
  {
    if p.latitude.Some? && p.longitude.Some? && q.latitude.Some? && q.longitude.Some? {
      var row, column := PacketHasCell(p);
      var row', column' := PacketHasCell(q);
      CellIsTile(p, row, column);
      CellIsTile(q, row', column');
      CellTextsDiffer(row, column, row', column');
      if r, c :| InCell(p, r, c) && InCell(q, r, c) {
        CellIsTile(p, r, c);
        CellIsTile(q, r, c);
      }
    }
  }

  // ---------------------------------------------------------------- every sample has its row

  lemma RowOfSample<S(!new), K(!new), R>(rows: seq<R>, samples: seq<S>, key: S -> K, rowKey: R -> K,
      rowOf: (K, seq<S>) -> R, s: S) returns (i: nat)
    requires RowsFor(rows, samples, key, rowKey, rowOf) && s in samples
    ensures i < |rows| && rowKey(rows[i]) == key(s)
  {
    GroupMembers(samples, key, key(s));
    assert s in Group(samples, key, key(s));
    assert key(s) in KeysOf(rows, rowKey);
    var j: nat :| j < |rows| && KeysOf(rows, rowKey)[j] == key(s);
    i := j;
  }

  lemma {:induction false} SampleOfEnvelope(batch: seq<Envelope>, e: Envelope) returns (i: nat)
    requires e in batch && e.packet.Some?
    ensures i < |Samples(batch)| && Samples(batch)[i] == SampleOf(e)
    decreases |batch|
  {
    var n := |batch| - 1;
    if batch[n] == e {
      i := |Samples(batch[..n])|;
    } else {
      NextPrefix(batch, n);
      WholeSlice(batch);
      i := SampleOfEnvelope(batch[..n], e);
    }
  }

  /** A flush has a raw row for every valid envelope, with the envelope's columns and its packet. */
  lemma RawRowOfEnvelope(batch: seq<Envelope>, f: Flush, e: Envelope) returns (i: nat)
    requires IsFlush(batch, f) && e in batch && e.packet.Some?
    ensures i < |f.raw|
    ensures var r := f.raw[i];
            && r.id == e.id && r.source == e.source && r.createdAt == e.createdAt && r.route == e.route
            && r.packet == e.packet.value
  {
    i := SampleOfEnvelope(batch, e);
  }

  /** A flush has a city row for every sample, with the sample's minute and place. */
  lemma CityRowOfSample(batch: seq<Envelope>, f: Flush, s: Sample) returns (i: nat)
    requires IsFlush(batch, f) && s in Samples(batch)
    ensures i < |f.cities|
    ensures var k, p := f.cities[i].key, s.packet;
            && IsMinuteOf(k.bucket, p.timestamp) && k.continent == p.continent && k.country == p.country
            && k.region == p.region && k.city == p.city
  {
    MinuteMeaning(s.packet.timestamp);
    i := RowOfSample(f.cities, Samples(batch), CityKeyOf, CityRowKey, CityRowOf, s);
  }

  /** A tile row for every sample, with the sample's minute, tile and place. */
  lemma TileRowOfSample(batch: seq<Envelope>, f: Flush, s: Sample) returns (i: nat)
    requires IsFlush(batch, f) && s in Samples(batch)
    ensures i < |f.tiles|
    ensures var k, p := f.tiles[i].key, s.packet;
            && IsMinuteOf(k.bucket, p.timestamp) && k.tile == TileId(p)
            && k.continent == p.continent && k.country == p.country && k.region == p.region
  {
    MinuteMeaning(s.packet.timestamp);
    i := RowOfSample(f.tiles, Samples(batch), TileKeyOf, TileRowKey, TileRowOf, s);
  }

  /** And a route row, with the envelope's route or one named after the region, and the packet's station or
      its tile as the segment. */
  lemma RouteRowOfSample(batch: seq<Envelope>, f: Flush, s: Sample) returns (i: nat)
    requires IsFlush(batch, f) && s in Samples(batch)
    ensures i < |f.routes|
    ensures var k, p := f.routes[i].key, s.packet;
            && IsMinuteOf(k.bucket, p.timestamp) && k.region == p.region
            && (s.route != "" ==> k.route == s.route) && (s.route == "" ==> k.route == "route." + p.region)
            && (p.stationId != "" ==> k.segment == p.stationId) && (p.stationId == "" ==> k.segment == TileId(p))
  {
    MinuteMeaning(s.packet.timestamp);
    i := RowOfSample(f.routes, Samples(batch), RouteKeyOf, RouteRowKey, RouteRowOf, s);
  }

  /** No two rows of a table have the same key. */
  lemma RowsAreApart(batch: seq<Envelope>, f: Flush)
    requires IsFlush(batch, f)
    ensures forall i, j :: 0 <= i < j < |f.cities| ==> f.cities[i].key != f.cities[j].key
    ensures forall i, j :: 0 <= i < j < |f.tiles| ==> f.tiles[i].key != f.tiles[j].key
    ensures forall i, j :: 0 <= i < j < |f.routes| ==> f.routes[i].key != f.routes[j].key
  {
    var cities, tiles, routes :=
      KeysOf(f.cities, CityRowKey), KeysOf(f.tiles, TileRowKey), KeysOf(f.routes, RouteRowKey);
    assert forall i :: 0 <= i < |f.cities| ==> cities[i] == f.cities[i].key;
    assert forall i :: 0 <= i < |f.tiles| ==> tiles[i] == f.tiles[i].key;
    assert forall i :: 0 <= i < |f.routes| ==> routes[i] == f.routes[i].key;
  }

  // ---------------------------------------------------------------- how columns grow

  /** The mean of n values and one more. */
  predicate MeanGrows(before: real, n: nat, x: real, after: real) {
    Times(after, (n + 1) as real) == Times(before, n as real) + x
  }

  lemma AverageTimes(sum: real, n: nat)
    ensures n > 0 ==> Times(Average(sum, n), n as real) == sum
  {
  }

  lemma MeanOfOneMore<S>(g: seq<S>, s: S, f: S -> real)
    ensures MeanGrows(Average(Sum(g, f), |g|), |g|, f(s), Average(Sum(g + [s], f), |g| + 1))
  {
    SumOfOneMore(g, s, f);
    MeanFromSum(Sum(g, f), |g|, f(s), Sum(g + [s], f));
  }

  lemma MeanFromSum(sum: real, n: nat, x: real, more: real)
    requires (n == 0 ==> sum == 0.0) && more == sum + x
    ensures MeanGrows(Average(sum, n), n, x, Average(more, n + 1))
  {
    AverageTimes(sum, n);
    AverageTimes(more, n + 1);
  }

  /** A city's row with one sample more. */
  lemma CityRowGrows(key: CityKey, g: seq<Sample>, s: Sample)
    ensures var a, b, p, n := CityRowOf(key, g), CityRowOf(key, g + [s]), s.packet, |g|;
            && a.count == n && b.count == n + 1 && b.key == key
            && MeanGrows(a.avgTemperature, n, p.temperature, b.avgTemperature)
            && MeanGrows(a.avgHumidity, n, p.humidity, b.avgHumidity)
            && MeanGrows(a.avgWind, n, p.windSpeed, b.avgWind)
  {
    MeanOfOneMore(g, s, Temp);
    MeanOfOneMore(g, s, Humid);
    MeanOfOneMore(g, s, WindOf);
  }

  lemma CityExtremesGrow(key: CityKey, g: seq<Sample>, s: Sample)
    ensures var a, b, t := CityRowOf(key, g), CityRowOf(key, g + [s]), s.packet.temperature;
            && b.minTemperature == (if g == [] || t < a.minTemperature then t else a.minTemperature)
            && b.maxTemperature == (if g == [] || t > a.maxTemperature then t else a.maxTemperature)
  {
    ExtremesOfOneMore(g, s, MaybeTemp);
    if g != [] {
      assert MinOf(g, MaybeTemp).Some? && MaxOf(g, MaybeTemp).Some?;
    }
  }

  /** How many samples have a value. */
  function Measured<S>(g: seq<S>, of: S -> Option<real>): nat {
    if g == [] then 0 else Measured(g[..|g| - 1], of) + (if of(g[|g| - 1]).Some? then 1 else 0)
  }

  /** The mean of what was measured, n times so far. */
  predicate OptionalMeanGrows(before: Option<real>, n: nat, x: Option<real>, after: Option<real>) {
    && (before.Some? <==> n > 0)
    && (if x.None? then after == before
        else after.Some? && MeanGrows(if n == 0 then 0.0 else before.value, n, x.value, after.value))
  }

  /** A sum and a count over the samples that have a value. */
  ghost predicate Splits<S(!new)>(of: S -> Option<real>, value: S -> real, has: S -> bool) {
    forall s :: has(s) == of(s).Some? && value(s) == (if of(s).Some? then of(s).value else 0.0)
  }

  lemma {:induction false} CountIsMeasured<S(!new)>(g: seq<S>, of: S -> Option<real>, value: S -> real, has: S -> bool)
    requires Splits(of, value, has)
    ensures Count(g, has) == Measured(g, of) && (Measured(g, of) == 0 ==> Sum(g, value) == 0.0)
    decreases |g|
  {
    if g != [] {
      CountIsMeasured(g[..|g| - 1], of, value, has);
    }
  }

  lemma OptionalOfOneMore<S(!new)>(g: seq<S>, s: S, of: S -> Option<real>, value: S -> real, has: S -> bool)
    requires Splits(of, value, has)
    ensures OptionalMeanGrows(OptionalAverage(Sum(g, value), Count(g, has)), Measured(g, of), of(s),
                              OptionalAverage(Sum(g + [s], value), Count(g + [s], has)))
  {
    var all := g + [s];
    CountIsMeasured(g, of, value, has);
    SumOfOneMore(g, s, value);
    SplitAppend(g, [s]);
    assert all[..|all| - 1] == g && all[|all| - 1] == s;
    assert Count(all, has) == Count(g, has) + (if has(s) then 1 else 0);
    MeanFromSum(Sum(g, value), Count(g, has), value(s), Sum(g, value) + value(s));
  }

  function MaybeCloud(s: Sample): Option<real> { s.packet.cloudCoverPercent }
  function MaybePressure(s: Sample): Option<real> { s.packet.pressureHpa }
  function MaybeLatitude(s: Sample): Option<real> { if s.packet.longitude.Some? then s.packet.latitude else None }
  function MaybeLongitude(s: Sample): Option<real> { if s.packet.latitude.Some? then s.packet.longitude else None }

  lemma MeasurementsSplit()
    ensures Splits(MaybeCloud, CloudCover, HasCloud) && Splits(MaybePressure, Pressure, HasPressure)
    ensures Splits(MaybeLatitude, Latitude, HasPlace) && Splits(MaybeLongitude, Longitude, HasPlace)
  {
  }

  /** A tile's row with one sample more: the means of what every packet has. */
  lemma TileRowGrows(key: TileKey, g: seq<Sample>, s: Sample)
    ensures var a, b, p, n := TileRowOf(key, g), TileRowOf(key, g + [s]), s.packet, |g|;
            && a.count == n && b.count == n + 1 && b.key == key
            && MeanGrows(a.avgTemperature, n, p.temperature, b.avgTemperature)
            && MeanGrows(a.avgHumidity, n, p.humidity, b.avgHumidity)
            && MeanGrows(a.avgWind, n, p.windSpeed, b.avgWind)
            && MeanGrows(a.hazard, n, HazardScore(p), b.hazard)
  {
    MeanOfOneMore(g, s, Temp);
    MeanOfOneMore(g, s, Humid);
    MeanOfOneMore(g, s, WindOf);
    MeanOfOneMore(g, s, HazardOf);
  }

  /** The means of what only some have; a place counts only with both its coordinates. */
  lemma TileOptionsGrow(key: TileKey, g: seq<Sample>, s: Sample)
    ensures var a, b, p := TileRowOf(key, g), TileRowOf(key, g + [s]), s.packet;
            && OptionalMeanGrows(a.avgCloudCover, Measured(g, MaybeCloud), p.cloudCoverPercent, b.avgCloudCover)
            && OptionalMeanGrows(a.avgPressure, Measured(g, MaybePressure), p.pressureHpa, b.avgPressure)
            && OptionalMeanGrows(a.latitude, Measured(g, MaybeLatitude),
                                 if p.longitude.Some? then p.latitude else None, b.latitude)
            && OptionalMeanGrows(a.longitude, Measured(g, MaybeLongitude),
                                 if p.latitude.Some? then p.longitude else None, b.longitude)
  {
    MeasurementsSplit();
    OptionalOfOneMore(g, s, MaybeCloud, CloudCover, HasCloud);
    OptionalOfOneMore(g, s, MaybePressure, Pressure, HasPressure);
    OptionalOfOneMore(g, s, MaybeLatitude, Latitude, HasPlace);
    OptionalOfOneMore(g, s, MaybeLongitude, Longitude, HasPlace);
  }

  /** The worst sight and the heaviest rain. */
  lemma TileExtremesGrow(key: TileKey, g: seq<Sample>, s: Sample)
    ensures var a, b, p := TileRowOf(key, g), TileRowOf(key, g + [s]), s.packet;
            && b.minVisibility == Least(a.minVisibility, p.visibilityKm)
            && b.maxPrecipitation == Greatest(a.maxPrecipitation, p.precipitationMm)
  {
    ExtremesOfOneMore(g, s, Visib);
    ExtremesOfOneMore(g, s, Precip);
  }

  /** The means of a route segment's row with one sample more. */
  lemma RouteRowGrows(key: RouteKey, g: seq<Sample>, s: Sample)
    ensures var a, b, p, n := RouteRowOf(key, g), RouteRowOf(key, g + [s]), s.packet, |g|;
            && b.key == key
            && MeanGrows(a.hazard, n, HazardScore(p), b.hazard)
            && MeanGrows(a.delayFactor, n, DelayFactor(p), b.delayFactor)
  {
    MeanOfOneMore(g, s, HazardOf);
    MeanOfOneMore(g, s, DelayOf);
  }
}
