/** The columns that every batch overwrites: of the rows of a batch for one slot, the last one wins. */
module LastRows {
  import opened Weather
  import opened Grouping
  import opened Aggregation
  import opened MergeAlgebra
  import opened Upsert
  import opened BatchSql
  import opened Wrappers
  import opened Sequences

  // ---------------------------------------------------------------- one batch

  lemma {:induction false} TotalOfNone<K, R>(log: seq<(K, R)>, key: K, merge: (R, R) -> R)
    requires forall i :: 0 <= i < |log| ==> log[i].0 != key
    ensures Total(log, key, merge) == None
    decreases |log|
  {
    if log != [] {
      assert forall i :: 0 <= i < |log| - 1 ==> log[..|log| - 1][i] == log[i];
      TotalOfNone(log[..|log| - 1], key, merge);
    }
  }

  lemma {:induction false} TotalOfOne<K, R>(log: seq<(K, R)>, i: nat, merge: (R, R) -> R)
    requires i < |log| && forall j :: 0 <= j < |log| && j != i ==> log[j].0 != log[i].0
    ensures Total(log, log[i].0, merge) == Some(log[i].1)
    decreases |log|
  {
    var n := |log| - 1;
    assert forall j :: 0 <= j < n ==> log[..n][j] == log[j];
    if i == n {
      TotalOfNone(log[..n], log[i].0, merge);
    } else {
      TotalOfOne(log[..n], i, merge);
    }
  }

  /** A batch's total at a key is the row of the key's group. */
  lemma RowsTotal<S(!new), K(!new), R>(
      rows: seq<R>, samples: seq<S>, key: S -> K, rowKey: R -> K, rowOf: (K, seq<S>) -> R,
      log: seq<(K, R)>, k: K, merge: (R, R) -> R)
    requires RowsFor(rows, samples, key, rowKey, rowOf)
    requires |log| == |rows| && forall i :: 0 <= i < |rows| ==> log[i] == (rowKey(rows[i]), rows[i])
    ensures Total(log, k, merge)
         == if Group(samples, key, k) == [] then None else Some(rowOf(k, Group(samples, key, k)))
  {
    var keys := KeysOf(rows, rowKey);
    assert forall i :: 0 <= i < |log| ==> log[i].0 == keys[i];
    if Group(samples, key, k) == [] {
      TotalOfNone(log, k, merge);
    } else {
      assert k in keys;
      var i: nat :| i < |keys| && keys[i] == k;
      TotalOfOne(log, i, merge);
    }
  }

  /** A batch's contribution to a city's row. */
  lemma CityTotalOfBatch(batch: seq<Envelope>, f: Flush, k: CityKey)
    requires IsFlush(batch, f)
    ensures var g := Group(Samples(batch), CityKeyOf, k);
            Total(CityLog(SqlOf(f)), k, MergeCity) == if g == [] then None else Some(CityRowOf(k, g))
  {
    CityLogOfBatch(f);
    RowsTotal(f.cities, Samples(batch), CityKeyOf, CityRowKey, CityRowOf, CityEntries(f), k, MergeCity);
  }

  /** A batch with samples of a city overwrites the count and the averages in the city's row by its
      own; a batch without leaves the row alone. */
  lemma CityRowIsOfTheLastBatch(db: Db, batch: seq<Envelope>, f: Flush, k: CityKey)
    requires IsFlush(batch, f)
    ensures var after, g := ExecuteAll(db, SqlOf(f)).cities, Group(Samples(batch), CityKeyOf, k);
            if g == [] then At(after, k) == At(db.cities, k)
            else
              && k in after
              && after[k].count == |g|
              && after[k].avgTemperature == Average(Sum(g, Temp), |g|)
              && after[k].avgHumidity == Average(Sum(g, Humid), |g|)
              && after[k].avgWind == Average(Sum(g, WindOf), |g|)
  {
    ExecuteIsApply(db, SqlOf(f));
    CityMergeLaws();
    ApplyAt(db.cities, CityLog(SqlOf(f)), k, MergeCity);
    CityTotalOfBatch(batch, f, k);
  }

  lemma {:induction false} GroupAppends<S, K>(a: seq<S>, b: seq<S>, key: S -> K, k: K)
    ensures Group(a + b, key, k) == Group(a, key, k) + Group(b, key, k)
    decreases |b|
  {
    if b == [] {
      AppendNothing(a);
      AppendNothing(Group(a, key, k));
    } else {
      FrontOfAppend(a, b);
      GroupAppends(a, b[..|b| - 1], key, k);
      var last := b[|b| - 1];
      Associate(Group(a, key, k), Group(b[..|b| - 1], key, k), if key(last) == k then [last] else []);
    }
  }

  // ---------------------------------------------------------------- a tile's count within one batch

  /** When one key is finer than another, a group by the finer key is the whole coarser group exactly when
      the coarser group has no other key. */
  lemma {:induction false} FinerGroup<S, K, L>(samples: seq<S>, key: S -> K, slot: S -> L, k: K, l: L)
    requires forall i :: 0 <= i < |samples| && key(samples[i]) == k ==> slot(samples[i]) == l
    ensures |Group(samples, key, k)| <= |Group(samples, slot, l)|
    ensures |Group(samples, key, k)| == |Group(samples, slot, l)|
       <==> forall i :: 0 <= i < |samples| && slot(samples[i]) == l ==> key(samples[i]) == k
    decreases |samples|
  {
    if samples != [] {
      var n := |samples| - 1;
      assert forall i :: 0 <= i < n ==> samples[..n][i] == samples[i];
      FinerGroup(samples[..n], key, slot, k, l);
    }
  }

  lemma LastOfOneMore<S, K(!new), R>(list: seq<S>, pick: S -> Option<(K, R)>, k: K)
    requires list != []
    ensures var last, before := pick(list[|list| - 1]), LastFor(Picked(list[..|list| - 1], pick), k);
            LastFor(Picked(list, pick), k) == if last.Some? && last.value.0 == k then Some(last.value.1) else before
  {
    var front, last := Picked(list[..|list| - 1], pick), pick(list[|list| - 1]);
    AppendNothing(front);
    if last.Some? {
      SplitAppend(front, [last.value]);
    }
  }

  lemma {:induction false} LastIsPicked<S, K(!new), R>(list: seq<S>, pick: S -> Option<(K, R)>, k: K) returns (j: nat)
    requires LastFor(Picked(list, pick), k).Some?
    ensures j < |list| && pick(list[j]) == Some((k, LastFor(Picked(list, pick), k).value))
    decreases |list|
  {
    j := |list| - 1;
    LastOfOneMore(list, pick, k);
    if !(pick(list[j]).Some? && pick(list[j]).value.0 == k) {
      j := LastIsPicked(list[..j], pick, k);
    }
  }

  lemma {:induction false} PickedHasLast<S, K(!new), R>(list: seq<S>, pick: S -> Option<(K, R)>, k: K, j: nat)
    requires j < |list| && pick(list[j]).Some? && pick(list[j]).value.0 == k
    ensures LastFor(Picked(list, pick), k).Some?
    decreases |list|
  {
    var n := |list| - 1;
    LastOfOneMore(list, pick, k);
    if j < n {
      PickedHasLast(list[..n], pick, k, j);
    }
  }

  /** The stored columns are those of the last statement for the slot. */
  lemma TileIsOfLast(db: Db, sql: seq<Statement>, l: TileSlot)
    requires LastFor(TileLog(sql), l).Some?
    ensures SameView(At(ExecuteAll(db, sql).tiles, l), LastFor(TileLog(sql), l), TileColumnsOf)
  {
    ExecuteIsApply(db, sql);
    TileMergeLaws();
    TileOverwrites();
    ApplyAt(db.tiles, TileLog(sql), l, MergeTile);
    TotalIsOfLast(TileLog(sql), l, MergeTile, TileColumnsOf);
  }

  predicate OneTileKey(samples: seq<Sample>, l: TileSlot) {
    forall i, j :: 0 <= i < |samples| && 0 <= j < |samples| && TileOf(samples[i]) == l && TileOf(samples[j]) == l ==>
      TileKeyOf(samples[i]) == TileKeyOf(samples[j])
  }

  lemma KeyOfGroup(samples: seq<Sample>, key: TileKey, l: TileSlot)
    requires Group(samples, TileKeyOf, key) != [] && TileSlotOf(key) == l
    ensures (forall i :: 0 <= i < |samples| && TileOf(samples[i]) == l ==> TileKeyOf(samples[i]) == key)
       <==> OneTileKey(samples, l)
  {
    GroupMembers(samples, TileKeyOf, key);
    var n :| 0 <= n < |samples| && TileKeyOf(samples[n]) == key;
    assert TileOf(samples[n]) == l;
  }

  /** The row of a city in the SQL of a batch is the row of the batch's samples of the city. */
  lemma CityStatement(batch: seq<Envelope>, f: Flush, row: CityRow)
    requires IsFlush(batch, f) && UpsertCity(row) in SqlOf(f)
    ensures var g := Group(Samples(batch), CityKeyOf, row.key); g != [] && row == CityRowOf(row.key, g)
  {
    var i: nat :| i < |f.cities| && f.cities[i] == row;
    assert KeysOf(f.cities, CityRowKey)[i] == row.key;
  }

  lemma RouteStatement(batch: seq<Envelope>, f: Flush, row: RouteRow)
    requires IsFlush(batch, f) && UpsertRoute(row) in SqlOf(f)
    ensures var g := Group(Samples(batch), RouteKeyOf, row.key); g != [] && row == RouteRowOf(row.key, g)
  {
    var i: nat :| i < |f.routes| && f.routes[i] == row;
    assert KeysOf(f.routes, RouteRowKey)[i] == row.key;
  }

  lemma TileStatement(batch: seq<Envelope>, f: Flush, row: TileRow)
    requires IsFlush(batch, f) && UpsertTile(row) in SqlOf(f)
    ensures var g := Group(Samples(batch), TileKeyOf, row.key); g != [] && row == TileRowOf(row.key, g)
  {
    var i: nat :| i < |f.tiles| && f.tiles[i] == row;
    assert KeysOf(f.tiles, TileRowKey)[i] == row.key;
  }

  lemma RowOfSlot(batch: seq<Envelope>, f: Flush, row: TileRow, l: TileSlot)
    requires IsFlush(batch, f) && UpsertTile(row) in SqlOf(f) && TileSlotOf(row.key) == l
    ensures row.count == |Group(Samples(batch), TileOf, l)| <==> OneTileKey(Samples(batch), l)
  {
    TileStatement(batch, f, row);
    KeyOfGroup(Samples(batch), row.key, l);
    FinerGroup(Samples(batch), TileKeyOf, TileOf, row.key, l);
  }

  lemma RowOfSample(batch: seq<Envelope>, f: Flush, s: Sample) returns (row: TileRow)
    requires IsFlush(batch, f) && s in Samples(batch)
    ensures row in f.tiles && row.key == TileKeyOf(s)
  {
    GroupMembers(Samples(batch), TileKeyOf, TileKeyOf(s));
    assert s in Group(Samples(batch), TileKeyOf, TileKeyOf(s));
    assert TileKeyOf(s) in KeysOf(f.tiles, TileRowKey);
    var i: nat :| i < |f.tiles| && KeysOf(f.tiles, TileRowKey)[i] == TileKeyOf(s);
    row := f.tiles[i];
  }

  lemma RowIsWritten(f: Flush, row: TileRow) returns (j: nat)
    requires row in f.tiles
    ensures j < |SqlOf(f)| && SqlOf(f)[j] == UpsertTile(row)
  {
    var i: nat :| i < |f.tiles| && f.tiles[i] == row;
    j := |f.raw| + |f.cities| + i;
  }

  lemma SlotIsWritten(batch: seq<Envelope>, f: Flush, l: TileSlot)
    requires IsFlush(batch, f) && Group(Samples(batch), TileOf, l) != []
    ensures LastFor(TileLog(SqlOf(f)), l).Some?
  {
    GroupMembers(Samples(batch), TileOf, l);
    var s := Group(Samples(batch), TileOf, l)[0];
    assert s in Samples(batch) && TileOf(s) == l;
    var row := RowOfSample(batch, f, s);
    var j := RowIsWritten(f, row);
    PickedHasLast(SqlOf(f), PickTile, l, j);
  }

  /** A tile's stored count is the number of the batch's samples at its slot exactly when all of them have
      one key: rows of a batch that differ in continent or country only overwrite each other. */
  lemma TileCountIsBatchTotalIff(db: Db, batch: seq<Envelope>, f: Flush, l: TileSlot)
    requires IsFlush(batch, f) && Group(Samples(batch), TileOf, l) != []
    ensures var after := ExecuteAll(db, SqlOf(f)).tiles;
            && l in after
            && (after[l].count == |Group(Samples(batch), TileOf, l)| <==> OneTileKey(Samples(batch), l))
  {
    SlotIsWritten(batch, f, l);
    TileIsOfLast(db, SqlOf(f), l);
    var j := LastIsPicked(SqlOf(f), PickTile, l);
    RowOfSlot(batch, f, LastFor(TileLog(SqlOf(f)), l).value, l);
  }

  // ---------------------------------------------------------------- an input on which it is not

  /** A packet of one place, whose country is the caller's. */
  function Report(id: string, country: string): Envelope {
    Envelope(id, "sensor", "", 0,
             Some(Packet("EU", country, "Alps", "Border", 20.0, 50.0, 5.0, 0,
                         None, None, None, None, None, None, "", "", "")))
  }

  lemma TwoReports(country1: string, country2: string)
    ensures var batch := [Report("a", country1), Report("b", country2)];
            Samples(batch) == [SampleOf(batch[0]), SampleOf(batch[1])]
  {
    var batch := [Report("a", country1), Report("b", country2)];
    assert batch[..1] == [batch[0]];
    OneReport(batch[0]);
  }

  lemma OneReport(e: Envelope)
    requires e.packet.Some?
    ensures Samples([e]) == [SampleOf(e)]
  {
    assert [e][..0] == [];
  }

  lemma GroupOfTwo<S, K>(a: S, b: S, key: S -> K, k: K)
    requires key(a) == k && key(b) == k
    ensures Group([a, b], key, k) == [a, b]
  {
    assert [a, b][..1] == [a] && [a][..0] == [];
    assert Group([a], key, k) == [] + [a];
  }

  /** Two reports on one tile from two countries: whatever flush the batch gives, one of the two samples
      is missing from the tile's count. */
  lemma TileCountCanMissSamples(db: Db, f: Flush)
    requires IsFlush([Report("a", "Italy"), Report("b", "Austria")], f)
    ensures var batch := [Report("a", "Italy"), Report("b", "Austria")];
            var l := TileOf(SampleOf(batch[0]));
            && |Group(Samples(batch), TileOf, l)| == 2
            && l in ExecuteAll(db, SqlOf(f)).tiles && ExecuteAll(db, SqlOf(f)).tiles[l].count != 2
  {
    var batch := [Report("a", "Italy"), Report("b", "Austria")];
    var a, b := SampleOf(batch[0]), SampleOf(batch[1]);
    var l := TileOf(a);
    TwoReports("Italy", "Austria");
    GroupOfTwo(a, b, TileOf, l);
    assert Samples(batch)[0] == a && Samples(batch)[1] == b && TileKeyOf(a).country != TileKeyOf(b).country;
    TileCountIsBatchTotalIff(db, batch, f, l);
  }
}
