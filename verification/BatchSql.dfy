/** The SQL of a flushed batch, and what its rows stand for: the batch's samples, taken one by one. */
module BatchSql {
  import opened Weather
  import opened Grouping
  import opened Aggregation
  import opened MergeAlgebra
  import opened Upsert
  import opened Wrappers
  import opened Sequences

  // ---------------------------------------------------------------- the SQL of a batch

  function SqlOf(f: Flush): seq<Statement> {
    seq(|f.raw|, i requires 0 <= i < |f.raw| => InsertRaw(f.raw[i]))
    + seq(|f.cities|, i requires 0 <= i < |f.cities| => UpsertCity(f.cities[i]))
    + seq(|f.tiles|, i requires 0 <= i < |f.tiles| => UpsertTile(f.tiles[i]))
    + seq(|f.routes|, i requires 0 <= i < |f.routes| => UpsertRoute(f.routes[i]))
  }

  /** The statements table by table, in the order they are written out. */
  method BuildBatchSql(f: Flush) returns (sql: seq<Statement>)
    ensures sql == SqlOf(f)
  {
    sql := [];
    for i := 0 to |f.raw|
      invariant sql == seq(i, j requires 0 <= j < i => InsertRaw(f.raw[j]))
    {
      sql := sql + [InsertRaw(f.raw[i])];
    }
    ghost var raw := sql;
    for i := 0 to |f.cities|
      invariant sql == raw + seq(i, j requires 0 <= j < i => UpsertCity(f.cities[j]))
    {
      sql := sql + [UpsertCity(f.cities[i])];
    }
    ghost var cities := sql;
    for i := 0 to |f.tiles|
      invariant sql == cities + seq(i, j requires 0 <= j < i => UpsertTile(f.tiles[j]))
    {
      sql := sql + [UpsertTile(f.tiles[i])];
    }
    ghost var tiles := sql;
    for i := 0 to |f.routes|
      invariant sql == tiles + seq(i, j requires 0 <= j < i => UpsertRoute(f.routes[j]))
    {
      sql := sql + [UpsertRoute(f.routes[i])];
    }
  }

  predicate IsRowOf(s: Statement, f: Flush) {
    match s
    case InsertRaw(row) => row in f.raw
    case UpsertCity(row) => row in f.cities
    case UpsertTile(row) => row in f.tiles
    case UpsertRoute(row) => row in f.routes
  }

  /** Every row of all four kinds has a statement, and no other is written. */
  lemma StatementsAreRows(f: Flush, s: Statement)
    ensures s in SqlOf(f) <==> IsRowOf(s, f)
    ensures |SqlOf(f)| == |f.raw| + |f.cities| + |f.tiles| + |f.routes|
  {
    var a := seq(|f.raw|, i requires 0 <= i < |f.raw| => InsertRaw(f.raw[i]));
    var b := seq(|f.cities|, i requires 0 <= i < |f.cities| => UpsertCity(f.cities[i]));
    var c := seq(|f.tiles|, i requires 0 <= i < |f.tiles| => UpsertTile(f.tiles[i]));
    var d := seq(|f.routes|, i requires 0 <= i < |f.routes| => UpsertRoute(f.routes[i]));
    match s
    case InsertRaw(row) =>
      forall i | 0 <= i < |f.raw| && f.raw[i] == row ensures s in a {
        assert a[i] == s;
      }
    case UpsertCity(row) =>
      forall i | 0 <= i < |f.cities| && f.cities[i] == row ensures s in b {
        assert b[i] == s;
      }
    case UpsertTile(row) =>
      forall i | 0 <= i < |f.tiles| && f.tiles[i] == row ensures s in c {
        assert c[i] == s;
      }
    case UpsertRoute(row) =>
      forall i | 0 <= i < |f.routes| && f.routes[i] == row ensures s in d {
        assert d[i] == s;
      }
  }

  function RawEntries(f: Flush): seq<(string, Sample)> {
    seq(|f.raw|, i requires 0 <= i < |f.raw| => (f.raw[i].id, f.raw[i]))
  }

  function CityEntries(f: Flush): seq<(CityKey, CityRow)> {
    seq(|f.cities|, i requires 0 <= i < |f.cities| => (f.cities[i].key, f.cities[i]))
  }

  function TileEntries(f: Flush): seq<(TileSlot, TileRow)> {
    seq(|f.tiles|, i requires 0 <= i < |f.tiles| => (TileSlotOf(f.tiles[i].key), f.tiles[i]))
  }

  lemma {:induction false} PickedNone<S, T>(list: seq<S>, pick: S -> Option<T>)
    requires forall i :: 0 <= i < |list| ==> pick(list[i]).None?
    ensures Picked(list, pick) == []
    decreases |list|
  {
    if list != [] {
      PickedNone(list[..|list| - 1], pick);
    }
  }

  lemma {:induction false} PickedAll<S, T>(list: seq<S>, pick: S -> Option<T>, found: seq<T>)
    requires |found| == |list| && forall i :: 0 <= i < |list| ==> pick(list[i]) == Some(found[i])
    ensures Picked(list, pick) == found
    decreases |list|
  {
    if list != [] {
      var n := |list| - 1;
      PickedAll(list[..n], pick, found[..n]);
      NextPrefix(found, n);
      WholeSlice(found);
    }
  }

  lemma PickedFour<S, T>(a: seq<S>, b: seq<S>, c: seq<S>, d: seq<S>, pick: S -> Option<T>)
    ensures Picked(a + b + c + d, pick) == Picked(a, pick) + Picked(b, pick) + Picked(c, pick) + Picked(d, pick)
  {
    PickedAppends(a + b + c, d, pick);
    PickedAppends(a + b, c, pick);
    PickedAppends(a, b, pick);
  }

  lemma RawLogOfBatch(f: Flush)
    ensures RawLog(SqlOf(f)) == RawEntries(f)
  {
    var a := seq(|f.raw|, i requires 0 <= i < |f.raw| => InsertRaw(f.raw[i]));
    var b := seq(|f.cities|, i requires 0 <= i < |f.cities| => UpsertCity(f.cities[i]));
    var c := seq(|f.tiles|, i requires 0 <= i < |f.tiles| => UpsertTile(f.tiles[i]));
    var d := seq(|f.routes|, i requires 0 <= i < |f.routes| => UpsertRoute(f.routes[i]));
    PickedFour(a, b, c, d, PickRaw);
    PickedAll(a, PickRaw, RawEntries(f)); PickedNone(b, PickRaw); PickedNone(c, PickRaw); PickedNone(d, PickRaw);
    AppendNothing(RawEntries(f));
  }

  lemma CityLogOfBatch(f: Flush)
    ensures CityLog(SqlOf(f)) == CityEntries(f)
  {
    var a := seq(|f.raw|, i requires 0 <= i < |f.raw| => InsertRaw(f.raw[i]));
    var b := seq(|f.cities|, i requires 0 <= i < |f.cities| => UpsertCity(f.cities[i]));
    var c := seq(|f.tiles|, i requires 0 <= i < |f.tiles| => UpsertTile(f.tiles[i]));
    var d := seq(|f.routes|, i requires 0 <= i < |f.routes| => UpsertRoute(f.routes[i]));
    PickedFour(a, b, c, d, PickCity);
    PickedNone(a, PickCity); PickedAll(b, PickCity, CityEntries(f)); PickedNone(c, PickCity); PickedNone(d, PickCity);
    AppendNothing(CityEntries(f));
  }

  lemma TileLogOfBatch(f: Flush)
    ensures TileLog(SqlOf(f)) == TileEntries(f)
  {
    var a := seq(|f.raw|, i requires 0 <= i < |f.raw| => InsertRaw(f.raw[i]));
    var b := seq(|f.cities|, i requires 0 <= i < |f.cities| => UpsertCity(f.cities[i]));
    var c := seq(|f.tiles|, i requires 0 <= i < |f.tiles| => UpsertTile(f.tiles[i]));
    var d := seq(|f.routes|, i requires 0 <= i < |f.routes| => UpsertRoute(f.routes[i]));
    PickedFour(a, b, c, d, PickTile);
    PickedNone(a, PickTile); PickedNone(b, PickTile); PickedAll(c, PickTile, TileEntries(f)); PickedNone(d, PickTile);
    AppendNothing(TileEntries(f));
  }

  // ---------------------------------------------------------------- samples as pieces of the tables

  /** Samples as one-sample rows: their slot in a table and what they contribute to it. */
  function Pieces<S, K, V>(samples: seq<S>, slot: S -> K, of: S -> V): seq<(K, V)> {
    seq(|samples|, i requires 0 <= i < |samples| => (slot(samples[i]), of(samples[i])))
  }

  /** A row's part of a table's view. */
  function Entries<R, K, V>(rows: seq<R>, slot: R -> K, view: R -> V): seq<(K, V)> {
    seq(|rows|, i requires 0 <= i < |rows| => (slot(rows[i]), view(rows[i])))
  }

  /** A group's total takes in each of its samples. */
  lemma GroupTakesIn<S, K(!new), V(!new)>(g: seq<S>, s: S, slot: S -> K, of: S -> V, join: (V, V) -> V)
    requires Semilattice(join) && s in g
    ensures var t := Total(Pieces(g, slot, of), slot(s), join); Join(t, Some(of(s)), join) == t
  {
    var j: nat :| j < |g| && g[j] == s;
    assert Pieces(g, slot, of)[j] == (slot(s), of(s));
    TotalAbsorbs(Pieces(g, slot, of), j, join);
  }

  /** The total of all samples takes in the total of some of them. */
  lemma TakesInPart<S, K(!new), V(!new)>(samples: seq<S>, g: seq<S>, slot: S -> K, of: S -> V, join: (V, V) -> V, l: K)
    requires Semilattice(join) && forall s :: s in g ==> s in samples
    ensures var t := Total(Pieces(samples, slot, of), l, join); Join(t, Total(Pieces(g, slot, of), l, join), join) == t
  {
    var t := Total(Pieces(samples, slot, of), l, join);
    forall i | 0 <= i < |g| && slot(g[i]) == l ensures Join(t, Some(of(g[i])), join) == t {
      assert g[i] in g;
      GroupTakesIn(samples, g[i], slot, of, join);
    }
    TotalIsLeast(Pieces(g, slot, of), l, t, join);
  }

  /** Each row's view is the total of its group's pieces. */
  ghost predicate RowsSumUp<S(!new), K(!new), R, L(!new), V(!new)>(
      rows: seq<R>, samples: seq<S>, key: S -> K, rowKey: R -> K,
      slot: S -> L, rowSlot: R -> L, of: S -> V, view: R -> V, join: (V, V) -> V)
  {
    forall i :: 0 <= i < |rows| ==>
      Some(view(rows[i])) == Total(Pieces(Group(samples, key, rowKey(rows[i])), slot, of), rowSlot(rows[i]), join)
  }

  /** The key decides the slot. */
  ghost predicate SlotsFollow<S(!new), K(!new), R, L(!new)>(
      rows: seq<R>, samples: seq<S>, key: S -> K, rowKey: R -> K, slot: S -> L, rowSlot: R -> L)
  {
    forall i, j :: 0 <= i < |rows| && 0 <= j < |samples| && key(samples[j]) == rowKey(rows[i]) ==>
      slot(samples[j]) == rowSlot(rows[i])
  }

  lemma AbsorbThrough<V(!new)>(a: Option<V>, row: V, piece: V, join: (V, V) -> V)
    requires Semilattice(join)
    requires Join(a, Some(row), join) == a && Join(Some(row), Some(piece), join) == Some(row)
    ensures Join(a, Some(piece), join) == a
  {
  }

  /** The rows take in every sample, through the row of the sample's group. */
  lemma RowsTakeIn<S(!new), K(!new), R, L(!new), V(!new)>(
      rows: seq<R>, samples: seq<S>, key: S -> K, rowKey: R -> K, rowOf: (K, seq<S>) -> R,
      slot: S -> L, rowSlot: R -> L, of: S -> V, view: R -> V, join: (V, V) -> V, j: nat)
    requires Semilattice(join) && RowsFor(rows, samples, key, rowKey, rowOf) && j < |samples|
    requires RowsSumUp(rows, samples, key, rowKey, slot, rowSlot, of, view, join)
    requires SlotsFollow(rows, samples, key, rowKey, slot, rowSlot)
    ensures var t := Total(Entries(rows, rowSlot, view), slot(samples[j]), join);
            Join(t, Some(of(samples[j])), join) == t
  {
    var s := samples[j];
    var k := key(s);
    GroupMembers(samples, key, k);
    assert s in samples && s in Group(samples, key, k);
    assert k in KeysOf(rows, rowKey);
    var i: nat :| i < |rows| && KeysOf(rows, rowKey)[i] == k;
    assert rowKey(rows[i]) == k;
    GroupTakesIn(Group(samples, key, k), s, slot, of, join);
    TotalAbsorbs(Entries(rows, rowSlot, view), i, join);
    AbsorbThrough(Total(Entries(rows, rowSlot, view), slot(s), join), view(rows[i]), of(s), join);
  }

  /** The rows of a batch stand for its samples: the same totals at every slot. */
  lemma RowsStandForSamples<S(!new), K(!new), R, L(!new), V(!new)>(
      rows: seq<R>, samples: seq<S>, key: S -> K, rowKey: R -> K, rowOf: (K, seq<S>) -> R,
      slot: S -> L, rowSlot: R -> L, of: S -> V, view: R -> V, join: (V, V) -> V)
    requires Semilattice(join) && RowsFor(rows, samples, key, rowKey, rowOf)
    requires RowsSumUp(rows, samples, key, rowKey, slot, rowSlot, of, view, join)
    requires SlotsFollow(rows, samples, key, rowKey, slot, rowSlot)
    ensures SameTotals(Entries(rows, rowSlot, view), Pieces(samples, slot, of), join)
  {
    var entries, pieces := Entries(rows, rowSlot, view), Pieces(samples, slot, of);
    forall l ensures Total(entries, l, join) == Total(pieces, l, join) {
      forall i | 0 <= i < |entries| && entries[i].0 == l
        ensures Join(Total(pieces, l, join), Some(entries[i].1), join) == Total(pieces, l, join)
      {
        var g := Group(samples, key, rowKey(rows[i]));
        GroupMembers(samples, key, rowKey(rows[i]));
        TakesInPart(samples, g, slot, of, join, l);
      }
      forall j | 0 <= j < |pieces| && pieces[j].0 == l
        ensures Join(Total(entries, l, join), Some(pieces[j].1), join) == Total(entries, l, join)
      {
        RowsTakeIn(rows, samples, key, rowKey, rowOf, slot, rowSlot, of, view, join, j);
      }
      MutualTotals(entries, pieces, l, join);
    }
  }

  // ---------------------------------------------------------------- raw rows, city and tile extremes

  datatype Present = Present
  function Mark(s: Sample): Present { Present.Present }
  function Both(a: Present, b: Present): Present { a }

  function IdOf(s: Sample): string { s.id }
  function TileOf(s: Sample): TileSlot { TileSlotOf(TileKeyOf(s)) }
  function TileRowSlot(row: TileRow): TileSlot { TileSlotOf(row.key) }
  function CityPiece(s: Sample): Extremes { Extremes(MaybeTemp(s), MaybeTemp(s)) }
  function TilePiece(s: Sample): Extremes { Extremes(Visib(s), Precip(s)) }

  /** The extremes of the samples at a slot; absent when there are none. */
  function ExtremesAt<K(==)>(samples: seq<Sample>, slot: Sample -> K, low: Sample -> Option<real>,
      high: Sample -> Option<real>, l: K): Option<Extremes> {
    var g := Group(samples, slot, l);
    if g == [] then None else Some(Extremes(MinOf(g, low), MaxOf(g, high)))
  }

  /** The extremes with one sample more. */
  lemma ExtremesNext<K(!new)>(
      front: seq<Sample>, s: Sample, slot: Sample -> K,
      low: Sample -> Option<real>, high: Sample -> Option<real>, l: K)
    ensures var before := ExtremesAt(front, slot, low, high, l);
            ExtremesAt(front + [s], slot, low, high, l)
            == if slot(s) == l then Join(before, Some(Extremes(low(s), high(s))), JoinExtremes) else before
  {
    var g := Group(front, slot, l);
    GroupOfOneMore(front, s, slot, l);
    AppendNothing(g);
    ExtremesOfOneMore(g, s, low);
    ExtremesOfOneMore(g, s, high);
  }

  lemma {:induction false} TotalIsExtremes<K(!new)>(
      samples: seq<Sample>, slot: Sample -> K, of: Sample -> Extremes,
      low: Sample -> Option<real>, high: Sample -> Option<real>, l: K)
    requires forall s :: of(s) == Extremes(low(s), high(s))
    ensures Total(Pieces(samples, slot, of), l, JoinExtremes) == ExtremesAt(samples, slot, low, high, l)
    decreases |samples|
  {
    if samples != [] {
      var n := |samples| - 1;
      var front, s := samples[..n], samples[n];
      TotalIsExtremes(front, slot, of, low, high, l);
      assert Pieces(samples, slot, of)[..n] == Pieces(front, slot, of);
      assert samples == front + [s];
      ExtremesNext(front, s, slot, low, high, l);
    }
  }

  lemma {:induction false} GroupOfAll<S, K>(g: seq<S>, key: S -> K, k: K)
    requires forall i :: 0 <= i < |g| ==> key(g[i]) == k
    ensures Group(g, key, k) == g
    decreases |g|
  {
    if g != [] {
      GroupOfAll(g[..|g| - 1], key, k);
    }
  }

  /** What the total is for a group all of one slot. */
  lemma TotalOfGroup<K(!new)>(
      g: seq<Sample>, slot: Sample -> K, of: Sample -> Extremes,
      low: Sample -> Option<real>, high: Sample -> Option<real>, l: K)
    requires g != [] && forall i :: 0 <= i < |g| ==> slot(g[i]) == l
    requires forall s :: of(s) == Extremes(low(s), high(s))
    ensures Total(Pieces(g, slot, of), l, JoinExtremes) == Some(Extremes(MinOf(g, low), MaxOf(g, high)))
  {
    TotalIsExtremes(g, slot, of, low, high, l);
    GroupOfAll(g, slot, l);
  }

  lemma CityRowsSumUp(batch: seq<Envelope>, f: Flush)
    requires IsFlush(batch, f)
    ensures RowsSumUp(f.cities, Samples(batch), CityKeyOf, CityRowKey,
                      CityKeyOf, CityRowKey, CityPiece, CityExtremes, JoinExtremes)
  {
    forall i | 0 <= i < |f.cities|
      ensures Some(CityExtremes(f.cities[i]))
           == Total(Pieces(Group(Samples(batch), CityKeyOf, CityRowKey(f.cities[i])), CityKeyOf, CityPiece),
                   CityRowKey(f.cities[i]), JoinExtremes)
    {
      var g := Group(Samples(batch), CityKeyOf, CityRowKey(f.cities[i]));
      assert KeysOf(f.cities, CityRowKey)[i] == CityRowKey(f.cities[i]);
      GroupMembers(Samples(batch), CityKeyOf, CityRowKey(f.cities[i]));
      TotalOfGroup(g, CityKeyOf, CityPiece, MaybeTemp, MaybeTemp, CityRowKey(f.cities[i]));
      EveryTemperatureIsThere(g);
    }
  }

  lemma EveryTemperatureIsThere(g: seq<Sample>)
    requires g != []
    ensures MinOf(g, MaybeTemp).Some? && MaxOf(g, MaybeTemp).Some?
  {
  }

  lemma TileRowsSumUp(batch: seq<Envelope>, f: Flush)
    requires IsFlush(batch, f)
    ensures RowsSumUp(f.tiles, Samples(batch), TileKeyOf, TileRowKey,
                      TileOf, TileRowSlot, TilePiece, TileExtremes, JoinExtremes)
  {
    forall i | 0 <= i < |f.tiles|
      ensures Some(TileExtremes(f.tiles[i]))
           == Total(Pieces(Group(Samples(batch), TileKeyOf, TileRowKey(f.tiles[i])), TileOf, TilePiece),
                   TileRowSlot(f.tiles[i]), JoinExtremes)
    {
      var g := Group(Samples(batch), TileKeyOf, TileRowKey(f.tiles[i]));
      assert KeysOf(f.tiles, TileRowKey)[i] == TileRowKey(f.tiles[i]);
      GroupMembers(Samples(batch), TileKeyOf, TileRowKey(f.tiles[i]));
      TotalOfGroup(g, TileOf, TilePiece, Visib, Precip, TileRowSlot(f.tiles[i]));
    }
  }

  // ---------------------------------------------------------------- the three views together

  function RawChanges(sql: seq<Statement>): seq<(string, Present)> { ViewLog(RawLog(sql), Mark) }
  function CityChanges(sql: seq<Statement>): seq<(CityKey, Extremes)> { ViewLog(CityLog(sql), CityExtremes) }
  function TileChanges(sql: seq<Statement>): seq<(TileSlot, Extremes)> { ViewLog(TileLog(sql), TileExtremes) }

  function RawPieces(samples: seq<Sample>): seq<(string, Present)> { Pieces(samples, IdOf, Mark) }
  function CityPieces(samples: seq<Sample>): seq<(CityKey, Extremes)> { Pieces(samples, CityKeyOf, CityPiece) }
  function TilePieces(samples: seq<Sample>): seq<(TileSlot, Extremes)> { Pieces(samples, TileOf, TilePiece) }

  lemma RawStandsForSamples(batch: seq<Envelope>, f: Flush)
    requires IsFlush(batch, f)
    ensures SameTotals(RawChanges(SqlOf(f)), RawPieces(Samples(batch)), Both)
  {
    RawLogOfBatch(f);
    MarksOfEntries(f);
  }

  lemma MarksOfEntries(f: Flush)
    ensures ViewLog(RawEntries(f), Mark) == Pieces(f.raw, IdOf, Mark)
  {
    var view, pieces := ViewLog(RawEntries(f), Mark), Pieces(f.raw, IdOf, Mark);
    assert view == pieces;
  }

  lemma CitiesStandForSamples(batch: seq<Envelope>, f: Flush)
    requires IsFlush(batch, f)
    ensures SameTotals(CityChanges(SqlOf(f)), CityPieces(Samples(batch)), JoinExtremes)
  {
    ExtremesLaws();
    CityLogOfBatch(f);
    CityRowsSumUp(batch, f);
    RowsStandForSamples(f.cities, Samples(batch), CityKeyOf, CityRowKey, CityRowOf,
                        CityKeyOf, CityRowKey, CityPiece, CityExtremes, JoinExtremes);
    assert ViewLog(CityEntries(f), CityExtremes) == Entries(f.cities, CityRowKey, CityExtremes);
  }

  lemma TilesStandForSamples(batch: seq<Envelope>, f: Flush)
    requires IsFlush(batch, f)
    ensures SameTotals(TileChanges(SqlOf(f)), TilePieces(Samples(batch)), JoinExtremes)
  {
    ExtremesLaws();
    TileLogOfBatch(f);
    TileRowsSumUp(batch, f);
    RowsStandForSamples(f.tiles, Samples(batch), TileKeyOf, TileRowKey, TileRowOf,
                        TileOf, TileRowSlot, TilePiece, TileExtremes, JoinExtremes);
    assert ViewLog(TileEntries(f), TileExtremes) == Entries(f.tiles, TileRowSlot, TileExtremes);
  }

  /** What each table's part of a batch's SQL stands for. */
  lemma BatchStandsForSamples(batch: seq<Envelope>, f: Flush)
    requires IsFlush(batch, f)
    ensures SameTotals(RawChanges(SqlOf(f)), RawPieces(Samples(batch)), Both)
    ensures SameTotals(CityChanges(SqlOf(f)), CityPieces(Samples(batch)), JoinExtremes)
    ensures SameTotals(TileChanges(SqlOf(f)), TilePieces(Samples(batch)), JoinExtremes)
  {
    RawStandsForSamples(batch, f);
    CitiesStandForSamples(batch, f);
    TilesStandForSamples(batch, f);
  }
}
