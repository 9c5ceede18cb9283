/** What any sequence of batches and replays, whole or interrupted, leaves in the tables: every overwritten
    column comes from one batch, and every raw row is a recorded sample. */
module Histories {
  import opened Weather
  import opened Grouping
  import opened Aggregation
  import opened MergeAlgebra
  import opened Upsert
  import opened BatchSql
  import opened LastRows
  import opened Sequences

  // ---------------------------------------------------------------- histories

  /** A batch with what its flush made of it. */
  datatype Taken = Taken(batch: seq<Envelope>, flush: Flush)

  ghost predicate AllFlushed(history: seq<Taken>) {
    forall i :: 0 <= i < |history| ==> IsFlush(history[i].batch, history[i].flush)
  }

  function AllSamples(history: seq<Taken>): seq<Sample> {
    if history == [] then []
    else AllSamples(history[..|history| - 1]) + Samples(history[|history| - 1].batch)
  }

  predicate IsFrom(s: Statement, history: seq<Taken>) {
    exists i :: 0 <= i < |history| && s in SqlOf(history[i].flush)
  }

  /** Every statement is one of the batches', in whatever order, number and part: so it is with what was
      executed, replays and interrupted replays included. */
  predicate MadeOf(sql: seq<Statement>, history: seq<Taken>) {
    forall j :: 0 <= j < |sql| ==> IsFrom(sql[j], history)
  }

  lemma MadeOfMore(sql: seq<Statement>, history: seq<Taken>, t: Taken)
    requires MadeOf(sql, history)
    ensures MadeOf(sql, history + [t])
  {
    forall j | 0 <= j < |sql| ensures IsFrom(sql[j], history + [t]) {
      assert IsFrom(sql[j], history);
      var i :| 0 <= i < |history| && sql[j] in SqlOf(history[i].flush);
      assert (history + [t])[i] == history[i];
    }
  }

  lemma MadeOfBatch(sql: seq<Statement>, history: seq<Taken>, t: Taken)
    requires MadeOf(sql, history)
    ensures MadeOf(sql + SqlOf(t.flush), history + [t])
  {
    MadeOfMore(sql, history, t);
    forall j | 0 <= j < |SqlOf(t.flush)| ensures IsFrom(SqlOf(t.flush)[j], history + [t]) {
      assert (history + [t])[|history|] == t;
    }
    MadeOfAppends(sql, SqlOf(t.flush), history + [t]);
  }

  lemma MadeOfAppends(a: seq<Statement>, b: seq<Statement>, history: seq<Taken>)
    requires MadeOf(a, history) && MadeOf(b, history)
    ensures MadeOf(a + b, history)
  {
  }

  lemma MadeOfPrefix(sql: seq<Statement>, n: nat, history: seq<Taken>)
    requires MadeOf(sql, history) && n <= |sql|
    ensures MadeOf(sql[..n], history)
  {
  }

  lemma {:induction false} ExecuteAppends(db: Db, a: seq<Statement>, b: seq<Statement>)
    ensures ExecuteAll(db, a + b) == ExecuteAll(ExecuteAll(db, a), b)
    decreases |b|
  {
    if b == [] {
      AppendNothing(a);
    } else {
      FrontOfAppend(a, b);
      ExecuteAppends(db, a, b[..|b| - 1]);
    }
  }

  // ---------------------------------------------------------------- the samples of a history

  lemma {:induction false} SamplesOfBatch(history: seq<Taken>, i: nat, s: Sample)
    requires i < |history| && s in Samples(history[i].batch)
    ensures s in AllSamples(history)
    decreases |history|
  {
    var n := |history| - 1;
    if i < n {
      assert history[..n][i] == history[i];
      SamplesOfBatch(history[..n], i, s);
    }
  }

  // ---------------------------------------------------------------- one of many

  function AddUp(counts: seq<nat>): nat {
    if counts == [] then 0 else AddUp(counts[..|counts| - 1]) + counts[|counts| - 1]
  }

  lemma {:induction false} NoneOfMany(counts: seq<nat>)
    ensures AddUp(counts) == 0 <==> forall j :: 0 <= j < |counts| ==> counts[j] == 0
    decreases |counts|
  {
    if counts != [] {
      var n := |counts| - 1;
      assert forall j :: 0 <= j < n ==> counts[..n][j] == counts[j];
      NoneOfMany(counts[..n]);
    }
  }

  /** One number is the sum of all exactly when the others are zero. */
  lemma {:induction false} OneOfMany(counts: seq<nat>, i: nat)
    requires i < |counts|
    ensures counts[i] <= AddUp(counts)
    ensures counts[i] == AddUp(counts) <==> forall j :: 0 <= j < |counts| && j != i ==> counts[j] == 0
    decreases |counts|
  {
    var n := |counts| - 1;
    assert forall j :: 0 <= j < n ==> counts[..n][j] == counts[j];
    if i < n {
      OneOfMany(counts[..n], i);
    } else {
      NoneOfMany(counts[..n]);
    }
  }

  /** How many samples a batch has at a city or a tile. */
  function CountIn<K(==)>(t: Taken, slot: Sample -> K, k: K): nat { |Group(Samples(t.batch), slot, k)| }

  function Counts<K(==)>(history: seq<Taken>, slot: Sample -> K, k: K): seq<nat> {
    seq(|history|, i requires 0 <= i < |history| => CountIn(history[i], slot, k))
  }

  lemma {:induction false} CountsOfAllSamples<K>(history: seq<Taken>, slot: Sample -> K, k: K)
    ensures |Group(AllSamples(history), slot, k)| == AddUp(Counts(history, slot, k))
    decreases |history|
  {
    if history != [] {
      var n := |history| - 1;
      CountsOfAllSamples(history[..n], slot, k);
      assert Counts(history, slot, k)[..n] == Counts(history[..n], slot, k);
      GroupAppends(AllSamples(history[..n]), Samples(history[n].batch), slot, k);
    }
  }

  /** No two batches have samples there. */
  predicate OneBatchAtMost<K(==)>(history: seq<Taken>, slot: Sample -> K, k: K) {
    forall i, j :: 0 <= i < j < |history| ==> CountIn(history[i], slot, k) == 0 || CountIn(history[j], slot, k) == 0
  }

  lemma OthersHaveNone<K>(history: seq<Taken>, i: nat, slot: Sample -> K, k: K)
    requires i < |history| && CountIn(history[i], slot, k) > 0
    ensures OneBatchAtMost(history, slot, k)
       <==> forall j :: 0 <= j < |history| && j != i ==> Counts(history, slot, k)[j] == 0
  {
    if OneBatchAtMost(history, slot, k) {
      forall j | 0 <= j < |history| && j != i ensures Counts(history, slot, k)[j] == 0 {
        var first, second := if i < j then i else j, if i < j then j else i;
        assert CountIn(history[first], slot, k) == 0 || CountIn(history[second], slot, k) == 0;
      }
    } else {
      var a, b :|
        0 <= a < b < |history| && CountIn(history[a], slot, k) > 0 && CountIn(history[b], slot, k) > 0;
      var j := if a == i then b else a;
      assert Counts(history, slot, k)[j] > 0;
    }
  }

  /** One batch has as many samples there as the whole history exactly when no other batch has any. */
  lemma OneBatchHasAll<K>(history: seq<Taken>, i: nat, slot: Sample -> K, k: K)
    requires i < |history| && CountIn(history[i], slot, k) > 0
    ensures CountIn(history[i], slot, k) <= |Group(AllSamples(history), slot, k)|
    ensures CountIn(history[i], slot, k) == |Group(AllSamples(history), slot, k)| <==> OneBatchAtMost(history, slot, k)
  {
    OneOfMany(Counts(history, slot, k), i);
    OthersHaveNone(history, i, slot, k);
    CountsOfAllSamples(history, slot, k);
  }

  // ---------------------------------------------------------------- the last statement is what is stored

  lemma StoredIsOfLast<K(!new), R(!new), V(!new)>(log: seq<(K, R)>, merge: (R, R) -> R, view: R -> V, k: K)
    requires Associative(merge) && Overwrites(merge, view)
    ensures At(Apply(map[], log, merge), k).Some? <==> LastFor(log, k).Some?
    ensures LastFor(log, k).Some? ==> SameView(At(Apply(map[], log, merge), k), LastFor(log, k), view)
  {
    ApplyAt(map[], log, k, merge);
    TotalIsOfLast(log, k, merge, view);
  }

  lemma CityIsOfLast(executed: seq<Statement>, k: CityKey)
    ensures k in ExecuteAll(EMPTY, executed).cities <==> LastFor(CityLog(executed), k).Some?
    ensures LastFor(CityLog(executed), k).Some? ==>
              SameView(At(ExecuteAll(EMPTY, executed).cities, k), LastFor(CityLog(executed), k), CityColumnsOf)
  {
    ExecuteIsApply(EMPTY, executed);
    CityMergeLaws();
    CityOverwrites();
    StoredIsOfLast(CityLog(executed), MergeCity, CityColumnsOf, k);
  }

  lemma SlotIsOfLast(executed: seq<Statement>, l: TileSlot)
    ensures l in ExecuteAll(EMPTY, executed).tiles <==> LastFor(TileLog(executed), l).Some?
    ensures LastFor(TileLog(executed), l).Some? ==>
              SameView(At(ExecuteAll(EMPTY, executed).tiles, l), LastFor(TileLog(executed), l), TileColumnsOf)
  {
    ExecuteIsApply(EMPTY, executed);
    TileMergeLaws();
    TileOverwrites();
    StoredIsOfLast(TileLog(executed), MergeTile, TileColumnsOf, l);
  }

  lemma RouteIsOfLast(executed: seq<Statement>, l: RouteSlot)
    ensures l in ExecuteAll(EMPTY, executed).routes <==> LastFor(RouteLog(executed), l).Some?
    ensures LastFor(RouteLog(executed), l).Some? ==>
              SameView(At(ExecuteAll(EMPTY, executed).routes, l), LastFor(RouteLog(executed), l), RouteColumnsOf)
  {
    ExecuteIsApply(EMPTY, executed);
    RouteMergeLaws();
    RouteOverwrites();
    StoredIsOfLast(RouteLog(executed), MergeRoute, RouteColumnsOf, l);
  }

  /** Whatever was executed of a history, the overwritten columns of a city's row are those that one of
      the batches computed from its own samples of the city. */
  lemma CityIsOfOneBatch(executed: seq<Statement>, history: seq<Taken>, k: CityKey) returns (i: nat)
    requires AllFlushed(history) && MadeOf(executed, history) && k in ExecuteAll(EMPTY, executed).cities
    ensures i < |history| && CountIn(history[i], CityKeyOf, k) > 0
    ensures CityColumnsOf(ExecuteAll(EMPTY, executed).cities[k])
         == CityColumnsOf(CityRowOf(k, Group(Samples(history[i].batch), CityKeyOf, k)))
  {
    CityIsOfLast(executed, k);
    var j := LastIsPicked(executed, PickCity, k);
    var row := LastFor(CityLog(executed), k).value;
    assert executed[j] == UpsertCity(row) && IsFrom(executed[j], history);
    i :| i < |history| && executed[j] in SqlOf(history[i].flush);
    CityStatement(history[i].batch, history[i].flush, row);
  }

  /** Those of a tile's row are of one batch too, and of one of the keys that share the tile's slot. */
  lemma TileIsOfOneBatch(executed: seq<Statement>, history: seq<Taken>, l: TileSlot) returns (i: nat, key: TileKey)
    requires AllFlushed(history) && MadeOf(executed, history) && l in ExecuteAll(EMPTY, executed).tiles
    ensures i < |history| && TileSlotOf(key) == l && CountIn(history[i], TileKeyOf, key) > 0
    ensures TileColumnsOf(ExecuteAll(EMPTY, executed).tiles[l])
         == TileColumnsOf(TileRowOf(key, Group(Samples(history[i].batch), TileKeyOf, key)))
  {
    SlotIsOfLast(executed, l);
    var j := LastIsPicked(executed, PickTile, l);
    var row := LastFor(TileLog(executed), l).value;
    assert executed[j] == UpsertTile(row) && IsFrom(executed[j], history);
    i :| i < |history| && executed[j] in SqlOf(history[i].flush);
    key := row.key;
    TileStatement(history[i].batch, history[i].flush, row);
  }

  /** And so are those of a route segment's row. */
  lemma RouteIsOfOneBatch(executed: seq<Statement>, history: seq<Taken>, l: RouteSlot)
      returns (i: nat, key: RouteKey)
    requires AllFlushed(history) && MadeOf(executed, history) && l in ExecuteAll(EMPTY, executed).routes
    ensures i < |history| && RouteSlotOf(key) == l && CountIn(history[i], RouteKeyOf, key) > 0
    ensures RouteColumnsOf(ExecuteAll(EMPTY, executed).routes[l])
         == RouteColumnsOf(RouteRowOf(key, Group(Samples(history[i].batch), RouteKeyOf, key)))
  {
    RouteIsOfLast(executed, l);
    var j := LastIsPicked(executed, PickRoute, l);
    var row := LastFor(RouteLog(executed), l).value;
    assert executed[j] == UpsertRoute(row) && IsFrom(executed[j], history);
    i :| i < |history| && executed[j] in SqlOf(history[i].flush);
    key := row.key;
    RouteStatement(history[i].batch, history[i].flush, row);
  }

  // ---------------------------------------------------------------- when counts are totals

  /** A city's stored count is the number of all its samples in the history exactly when no two batches
      have any: whatever was executed, in whatever order and however often. */
  lemma CountIsTotalIff(executed: seq<Statement>, history: seq<Taken>, k: CityKey)
    requires AllFlushed(history) && MadeOf(executed, history) && k in ExecuteAll(EMPTY, executed).cities
    ensures ExecuteAll(EMPTY, executed).cities[k].count == |Group(AllSamples(history), CityKeyOf, k)|
       <==> OneBatchAtMost(history, CityKeyOf, k)
  {
    var i := CityIsOfOneBatch(executed, history, k);
    OneBatchHasAll(history, i, CityKeyOf, k);
  }

  /** Two batches with a report each on one city and minute: whatever flushes they give, one report is
      missing from the count. */
  lemma CountCanMissSamples(f1: Flush, f2: Flush)
    requires IsFlush([Report("a", "Italy")], f1) && IsFlush([Report("b", "Italy")], f2)
    ensures var history := [Taken([Report("a", "Italy")], f1), Taken([Report("b", "Italy")], f2)];
            var executed, k := SqlOf(f1) + SqlOf(f2), CityKeyOf(SampleOf(Report("a", "Italy")));
            && |Group(AllSamples(history), CityKeyOf, k)| == 2
            && k in ExecuteAll(EMPTY, executed).cities && ExecuteAll(EMPTY, executed).cities[k].count == 1
  {
    var a, b := Report("a", "Italy"), Report("b", "Italy");
    var k := CityKeyOf(SampleOf(a));
    OneReport(a);
    OneReport(b);
    AllOfTwo(Taken([a], f1), Taken([b], f2));
    GroupOfTwo(SampleOf(a), SampleOf(b), CityKeyOf, k);
    GroupOfOne(SampleOf(b), CityKeyOf, k);
    ExecuteAppends(EMPTY, SqlOf(f1), SqlOf(f2));
    CityRowIsOfTheLastBatch(ExecuteAll(EMPTY, SqlOf(f1)), [b], f2, k);
  }

  lemma AllOfTwo(t1: Taken, t2: Taken)
    ensures AllSamples([t1, t2]) == Samples(t1.batch) + Samples(t2.batch)
  {
    assert [t1, t2][..1] == [t1] && [t1][..0] == [];
    assert AllSamples([t1]) == [] + Samples(t1.batch);
  }

  lemma GroupOfOne<S, K>(a: S, key: S -> K, k: K)
    requires key(a) == k
    ensures Group([a], key, k) == [a]
  {
    assert [a][..0] == [];
  }

  /** The key of some samples of a tile is the key of all of them, if these have one key only. */
  lemma KeyOfSlot(history: seq<Taken>, j: nat, key: TileKey, l: TileSlot)
    requires j < |history| && TileSlotOf(key) == l && OneTileKey(AllSamples(history), l)
    requires Group(AllSamples(history), TileKeyOf, key) != []
    ensures CountIn(history[j], TileKeyOf, key) == CountIn(history[j], TileOf, l)
  {
    var all, samples := AllSamples(history), Samples(history[j].batch);
    KeyOfGroup(all, key, l);
    forall i | 0 <= i < |samples| && TileOf(samples[i]) == l ensures TileKeyOf(samples[i]) == key {
      SamplesOfBatch(history, j, samples[i]);
      var m :| 0 <= m < |all| && all[m] == samples[i];
    }
    FinerGroup(samples, TileKeyOf, TileOf, key, l);
  }

  /** A tile's stored count is the number of all samples at its slot exactly when no two batches have any
      and all of them have one key. */
  lemma TileCountIsTotalIff(executed: seq<Statement>, history: seq<Taken>, l: TileSlot)
    requires AllFlushed(history) && MadeOf(executed, history) && l in ExecuteAll(EMPTY, executed).tiles
    ensures ExecuteAll(EMPTY, executed).tiles[l].count == |Group(AllSamples(history), TileOf, l)|
       <==> OneBatchAtMost(history, TileOf, l) && OneTileKey(AllSamples(history), l)
  {
    var i, key := TileIsOfOneBatch(executed, history, l);
    OneBatchHasAll(history, i, TileKeyOf, key);
    KeyOfGroup(AllSamples(history), key, l);
    FinerGroup(AllSamples(history), TileKeyOf, TileOf, key, l);
    if OneTileKey(AllSamples(history), l) {
      forall j | 0 <= j < |history|
        ensures CountIn(history[j], TileKeyOf, key) == CountIn(history[j], TileOf, l)
      {
        KeyOfSlot(history, j, key, l);
      }
    }
  }

  // ---------------------------------------------------------------- raw rows

  /** Every stored raw row is one of the history's samples, with its id. */
  lemma {:induction false} RawRowsAreSamples(executed: seq<Statement>, history: seq<Taken>, id: string)
    requires AllFlushed(history) && MadeOf(executed, history) && id in ExecuteAll(EMPTY, executed).raw
    ensures var row := ExecuteAll(EMPTY, executed).raw[id]; row.id == id && row in AllSamples(history)
    decreases |executed|
  {
    var n := |executed| - 1;
    var front, last := executed[..n], executed[n];
    MadeOfPrefix(executed, n, history);
    ExecuteByTable(ExecuteAll(EMPTY, front), last);
    if id in ExecuteAll(EMPTY, front).raw {
      RawRowsAreSamples(front, history, id);
    } else {
      assert IsFrom(last, history);
      var i: nat :| i < |history| && last in SqlOf(history[i].flush);
      RawStatement(history[i].batch, history[i].flush, last.sample);
      SamplesOfBatch(history, i, last.sample);
    }
  }

  lemma RawStatement(batch: seq<Envelope>, f: Flush, s: Sample)
    requires IsFlush(batch, f) && InsertRaw(s) in SqlOf(f)
    ensures s in Samples(batch)
  {
  }
}
