/** Batches go to the database or, when it does not take them, to the outbox file, which is replayed
    later.  However batches were cut, delayed or repeated, the raw ids and the extreme columns are
    those of all samples recorded; the other columns are those of the batch applied last. */
module Outbox {
  import opened Weather
  import opened Aggregation
  import opened MergeAlgebra
  import opened Upsert
  import opened BatchSql
  import opened Histories
  import opened Sequences

  function RawView(db: Db): map<string, Present> { View(db.raw, Mark) }
  function CityView(db: Db): map<CityKey, Extremes> { View(db.cities, CityExtremes) }
  function TileView(db: Db): map<TileSlot, Extremes> { View(db.tiles, TileExtremes) }

  /** The database, once the outbox is replayed, holds the samples: their ids and their extremes. */
  ghost predicate Recorded(db: Db, outbox: seq<Statement>, samples: seq<Sample>) {
    && Accounts(RawView(db), RawChanges(outbox), RawPieces(samples), Both)
    && Accounts(CityView(db), CityChanges(outbox), CityPieces(samples), JoinExtremes)
    && Accounts(TileView(db), TileChanges(outbox), TilePieces(samples), JoinExtremes)
  }

  lemma BothLaws()
    ensures Semilattice(Both)
    ensures forall a, b :: Mark(MergeRaw(a, b)) == Both(Mark(a), Mark(b))
  {
  }

  /** What executing SQL does to the three views. */
  lemma ViewsOfExecute(db: Db, sql: seq<Statement>)
    ensures var r := ExecuteAll(db, sql);
            && RawView(r) == Apply(RawView(db), RawChanges(sql), Both)
            && CityView(r) == Apply(CityView(db), CityChanges(sql), JoinExtremes)
            && TileView(r) == Apply(TileView(db), TileChanges(sql), JoinExtremes)
  {
    ExecuteIsApply(db, sql);
    ExtremesLaws();
    BothLaws();
    ViewOfApply(db.raw, RawLog(sql), MergeRaw, Mark, Both);
    ViewOfApply(db.cities, CityLog(sql), MergeCity, CityExtremes, JoinExtremes);
    ViewOfApply(db.tiles, TileLog(sql), MergeTile, TileExtremes, JoinExtremes);
  }

  lemma ViewLogAppends<K, R, V>(a: seq<(K, R)>, b: seq<(K, R)>, view: R -> V)
    ensures ViewLog(a + b, view) == ViewLog(a, view) + ViewLog(b, view)
  {
  }

  lemma ViewLogsAppend(a: seq<Statement>, b: seq<Statement>)
    ensures RawChanges(a + b) == RawChanges(a) + RawChanges(b)
    ensures CityChanges(a + b) == CityChanges(a) + CityChanges(b)
    ensures TileChanges(a + b) == TileChanges(a) + TileChanges(b)
  {
    LogsAppend(a, b);
    ViewLogAppends(RawLog(a), RawLog(b), Mark);
    ViewLogAppends(CityLog(a), CityLog(b), CityExtremes);
    ViewLogAppends(TileLog(a), TileLog(b), TileExtremes);
  }

  lemma AllPiecesAppend(a: seq<Sample>, b: seq<Sample>)
    ensures RawPieces(a + b) == RawPieces(a) + RawPieces(b)
    ensures CityPieces(a + b) == CityPieces(a) + CityPieces(b)
    ensures TilePieces(a + b) == TilePieces(a) + TilePieces(b)
  {
  }

  // ---------------------------------------------------------------- the steps keep the account

  /** The database took a batch. */
  lemma TakenKeepsAccount(db: Db, outbox: seq<Statement>, samples: seq<Sample>, batch: seq<Envelope>, f: Flush)
    requires Recorded(db, outbox, samples) && IsFlush(batch, f)
    ensures Recorded(ExecuteAll(db, SqlOf(f)), outbox, samples + Samples(batch))
  {
    ExtremesLaws();
    BothLaws();
    ViewsOfExecute(db, SqlOf(f));
    BatchStandsForSamples(batch, f);
    AllPiecesAppend(samples, Samples(batch));
    TakenIsAccounted(RawView(db), RawChanges(outbox), RawPieces(samples),
                     RawChanges(SqlOf(f)), RawPieces(Samples(batch)), Both);
    TakenIsAccounted(CityView(db), CityChanges(outbox), CityPieces(samples),
                     CityChanges(SqlOf(f)), CityPieces(Samples(batch)), JoinExtremes);
    TakenIsAccounted(TileView(db), TileChanges(outbox), TilePieces(samples),
                     TileChanges(SqlOf(f)), TilePieces(Samples(batch)), JoinExtremes);
  }

  /** The batch went to the outbox. */
  lemma OutboxKeepsAccount(db: Db, outbox: seq<Statement>, samples: seq<Sample>, batch: seq<Envelope>, f: Flush)
    requires Recorded(db, outbox, samples) && IsFlush(batch, f)
    ensures Recorded(db, outbox + SqlOf(f), samples + Samples(batch))
  {
    ExtremesLaws();
    BothLaws();
    ViewLogsAppend(outbox, SqlOf(f));
    BatchStandsForSamples(batch, f);
    AllPiecesAppend(samples, Samples(batch));
    PendingIsAccounted(RawView(db), RawChanges(outbox), RawPieces(samples),
                       RawChanges(SqlOf(f)), RawPieces(Samples(batch)), Both);
    PendingIsAccounted(CityView(db), CityChanges(outbox), CityPieces(samples),
                       CityChanges(SqlOf(f)), CityPieces(Samples(batch)), JoinExtremes);
    PendingIsAccounted(TileView(db), TileChanges(outbox), TilePieces(samples),
                       TileChanges(SqlOf(f)), TilePieces(Samples(batch)), JoinExtremes);
  }

  /** The database took a batch but the answer was lost, so that it is in the outbox too. */
  lemma TwiceKeepsAccount(db: Db, outbox: seq<Statement>, sql: seq<Statement>, samples: seq<Sample>)
    requires Recorded(db, outbox + sql, samples)
    ensures Recorded(ExecuteAll(db, sql), outbox + sql, samples)
  {
    ExtremesLaws();
    BothLaws();
    ViewLogsAppend(outbox, sql);
    ViewsOfExecute(db, sql);
    PendingAgain(RawView(db), RawChanges(outbox), RawChanges(sql), RawPieces(samples), Both);
    PendingAgain(CityView(db), CityChanges(outbox), CityChanges(sql), CityPieces(samples), JoinExtremes);
    PendingAgain(TileView(db), TileChanges(outbox), TileChanges(sql), TilePieces(samples), JoinExtremes);
  }

  /** A replay stopped after a part of the outbox, or ran through without emptying it. */
  lemma PartReplayKeepsAccount(db: Db, done: seq<Statement>, rest: seq<Statement>, samples: seq<Sample>)
    requires Recorded(db, done + rest, samples)
    ensures Recorded(ExecuteAll(db, done), done + rest, samples)
  {
    ExtremesLaws();
    BothLaws();
    ViewLogsAppend(done, rest);
    ViewsOfExecute(db, done);
    PartReplayed(RawView(db), RawChanges(done), RawChanges(rest), RawPieces(samples), Both);
    PartReplayed(CityView(db), CityChanges(done), CityChanges(rest), CityPieces(samples), JoinExtremes);
    PartReplayed(TileView(db), TileChanges(done), TileChanges(rest), TilePieces(samples), JoinExtremes);
  }

  /** A replay ran through and emptied the outbox. */
  lemma ReplayKeepsAccount(db: Db, outbox: seq<Statement>, samples: seq<Sample>)
    requires Recorded(db, outbox, samples)
    ensures Recorded(ExecuteAll(db, outbox), [], samples)
  {
    ExtremesLaws();
    BothLaws();
    ViewsOfExecute(db, outbox);
    Replayed(RawView(db), RawChanges(outbox), RawPieces(samples), Both);
    Replayed(CityView(db), CityChanges(outbox), CityPieces(samples), JoinExtremes);
    Replayed(TileView(db), TileChanges(outbox), TilePieces(samples), JoinExtremes);
  }

  // ---------------------------------------------------------------- the writer's database side

  /** What the writer's past is: the batches that reached the database or the outbox, and the SQL that was
      executed, replays included.  All SQL in the database and in the outbox is made of these batches. */
  ghost predicate Remembers(db: Db, outbox: seq<Statement>, history: seq<Taken>, executed: seq<Statement>) {
    AllFlushed(history) && db == ExecuteAll(EMPTY, executed) && MadeOf(executed, history) && MadeOf(outbox, history)
  }

  /** A batch was recorded: executed, written to the outbox, or both. */
  lemma BatchIsRemembered(db: Db, outbox: seq<Statement>, history: seq<Taken>, executed: seq<Statement>, t: Taken)
    requires Remembers(db, outbox, history, executed) && IsFlush(t.batch, t.flush)
    ensures Remembers(db, outbox, history + [t], executed)
    ensures Remembers(db, outbox + SqlOf(t.flush), history + [t], executed)
    ensures Remembers(ExecuteAll(db, SqlOf(t.flush)), outbox, history + [t], executed + SqlOf(t.flush))
    ensures Remembers(ExecuteAll(db, SqlOf(t.flush)), outbox + SqlOf(t.flush), history + [t], executed + SqlOf(t.flush))
  {
    MadeOfMore(outbox, history, t);
    MadeOfMore(executed, history, t);
    MadeOfBatch(outbox, history, t);
    MadeOfBatch(executed, history, t);
    ExecuteAppends(EMPTY, executed, SqlOf(t.flush));
  }

  lemma OneMoreTaken(history: seq<Taken>, t: Taken)
    ensures AllSamples(history + [t]) == AllSamples(history) + Samples(t.batch)
  {
    SplitAppend(history, [t]);
  }

  /** A part of the outbox was executed. */
  lemma ReplayIsRemembered(db: Db, outbox: seq<Statement>, history: seq<Taken>, executed: seq<Statement>, n: nat)
    requires Remembers(db, outbox, history, executed) && n <= |outbox|
    ensures Remembers(ExecuteAll(db, outbox[..n]), outbox, history, executed + outbox[..n])
    ensures Remembers(ExecuteAll(db, outbox[..n]), [], history, executed + outbox[..n])
  {
    MadeOfPrefix(outbox, n, history);
    MadeOfAppends(executed, outbox[..n], history);
    ExecuteAppends(EMPTY, executed, outbox[..n]);
  }

  lemma SplitAt<T>(s: seq<T>, n: nat)
    requires n <= |s|
    ensures s == s[..n] + s[n..]
  {
  }

  /** Whatever part of the outbox a replay executed, the account is kept; and after all of it the outbox
      may be emptied. */
  lemma AnyReplayKeepsAccount(db: Db, outbox: seq<Statement>, samples: seq<Sample>, n: nat)
    requires Recorded(db, outbox, samples) && n <= |outbox|
    ensures Recorded(ExecuteAll(db, outbox[..n]), outbox, samples)
    ensures n == |outbox| ==> Recorded(ExecuteAll(db, outbox[..n]), [], samples)
  {
    SplitAt(outbox, n);
    PartReplayKeepsAccount(db, outbox[..n], outbox[n..], samples);
    if n == |outbox| {
      WholeSlice(outbox);
      ReplayKeepsAccount(db, outbox, samples);
    }
  }

  lemma NothingToReplay(db: Db, outbox: seq<Statement>, executed: seq<Statement>)
    requires outbox == []
    ensures ExecuteAll(db, outbox[..0]) == db && executed + outbox[..0] == executed
  {
  }

  /** The account and the memory together. */
  ghost predicate Kept(db: Db, outbox: seq<Statement>, samples: seq<Sample>, history: seq<Taken>,
      executed: seq<Statement>) {
    Recorded(db, outbox, samples) && samples == AllSamples(history) && Remembers(db, outbox, history, executed)
  }

  lemma ReplayKeeps(db: Db, outbox: seq<Statement>, samples: seq<Sample>, history: seq<Taken>,
      executed: seq<Statement>, n: nat)
    requires Kept(db, outbox, samples, history, executed) && n <= |outbox|
    ensures Kept(ExecuteAll(db, outbox[..n]), outbox, samples, history, executed + outbox[..n])
    ensures n == |outbox| ==> Kept(ExecuteAll(db, outbox[..n]), [], samples, history, executed + outbox[..n])
  {
    AnyReplayKeepsAccount(db, outbox, samples, n);
    ReplayIsRemembered(db, outbox, history, executed, n);
  }

  /** What becomes of a batch that the database took, that went to the outbox, or both. */
  lemma BatchKeeps(db: Db, outbox: seq<Statement>, samples: seq<Sample>, history: seq<Taken>,
      executed: seq<Statement>, t: Taken, sql: seq<Statement>)
    requires Kept(db, outbox, samples, history, executed) && IsFlush(t.batch, t.flush) && sql == SqlOf(t.flush)
    ensures var after, more, all := ExecuteAll(db, sql), samples + Samples(t.batch), history + [t];
            && Kept(after, outbox, more, all, executed + sql)
            && Kept(db, outbox + sql, more, all, executed)
            && Kept(after, outbox + sql, more, all, executed + sql)
  {
    BatchIsRemembered(db, outbox, history, executed, t);
    OneMoreTaken(history, t);
    TakenKeepsAccount(db, outbox, samples, t.batch, t.flush);
    OutboxKeepsAccount(db, outbox, samples, t.batch, t.flush);
    TwiceKeepsAccount(db, outbox, sql, samples + Samples(t.batch));
  }

  class OutboxWriter {
    var db: Db
    var outbox: seq<Statement>
    /** The samples of every batch that reached the database or the outbox. */
    ghost var recorded: seq<Sample>
    ghost var history: seq<Taken>
    ghost var executed: seq<Statement>

    ghost predicate Valid()
      reads this
    {
      Kept(db, outbox, recorded, history, executed)
    }

    constructor ()
      ensures Valid() && db == EMPTY && outbox == [] && recorded == [] && history == [] && executed == []
    {
      db, outbox, recorded, history, executed := EMPTY, [], [], [], [];
    }

    /** Sends a batch.  The database may take it or not, the answer may be lost on the way back, and
        the outbox file may fail to open; only a batch that both refuse is lost. */
    method FlushBatch(batch: seq<Envelope>, committed: bool, answered: bool, opens: bool) returns (f: Flush)
      requires Valid() && (answered ==> committed)
      modifies this
      ensures Valid() && IsFlush(batch, f)
      ensures db == if committed then ExecuteAll(old(db), SqlOf(f)) else old(db)
      ensures outbox == if answered || !opens then old(outbox) else old(outbox) + SqlOf(f)
      ensures recorded == if committed || opens then old(recorded) + Samples(batch) else old(recorded)
      ensures history == if committed || opens then old(history) + [Taken(batch, f)] else old(history)
      ensures executed == if committed then old(executed) + SqlOf(f) else old(executed)
    {
      f := Aggregation.FlushBatch(batch);
      var sql := BuildBatchSql(f);
      BatchKeeps(db, outbox, recorded, history, executed, Taken(batch, f), sql);
      Send(sql, Taken(batch, f), Samples(batch), committed, answered, opens);
    }

    /** The part after the SQL is built: the database first, then the outbox. */
    method Send(sql: seq<Statement>, ghost t: Taken, ghost samples: seq<Sample>, committed: bool, answered: bool,
        opens: bool)
      requires answered ==> committed
      modifies this
      ensures db == if committed then ExecuteAll(old(db), sql) else old(db)
      ensures outbox == if answered || !opens then old(outbox) else old(outbox) + sql
      ensures executed == if committed then old(executed) + sql else old(executed)
      ensures recorded == if committed || opens then old(recorded) + samples else old(recorded)
      ensures history == if committed || opens then old(history) + [t] else old(history)
    {
      if committed || opens {
        history := history + [t];
        recorded := recorded + samples;
      }
      if committed {
        db := ExecuteAll(db, sql);
        executed := executed + sql;
      }
      if answered {
        return;
      }
      if !opens {
        return;
      }
      outbox := outbox + sql;
    }

    /** Replays the outbox.  A failed replay may have executed any part of the file from the front;
        a finished one may still fail to empty the file. */
    method ReplayOutbox(count: nat, emptied: bool)
      requires Valid() && count <= |outbox|
      modifies this
      ensures Valid() && recorded == old(recorded) && history == old(history)
      ensures db == ExecuteAll(old(db), old(outbox)[..count]) && executed == old(executed) + old(outbox)[..count]
      ensures outbox == if count == |old(outbox)| && emptied then [] else old(outbox)
    {
      ReplayKeeps(db, outbox, recorded, history, executed, count);
      if |outbox| == 0 {
        NothingToReplay(db, outbox, executed);
        return;
      }
      var sql := outbox;
      db := ExecuteAll(db, sql[..count]);
      executed := executed + sql[..count];
      if count == |sql| && emptied {
        outbox := [];
      }
    }
  }

  // ---------------------------------------------------------------- what the account means

  lemma {:induction false} MarksTotal(samples: seq<Sample>, id: string)
    ensures Total(RawPieces(samples), id, Both).Some? <==> exists s :: s in samples && s.id == id
    decreases |samples|
  {
    if samples != [] {
      var n := |samples| - 1;
      assert Pieces(samples, IdOf, Mark)[..n] == Pieces(samples[..n], IdOf, Mark);
      MarksTotal(samples[..n], id);
      NextPrefix(samples, n);
      WholeSlice(samples);
    }
  }

  lemma EmptyOutbox()
    ensures RawChanges([]) == [] && CityChanges([]) == [] && TileChanges([]) == []
  {
  }

  /** With nothing pending, the raw table has a row for every recorded id and no other, and the extreme
      columns of every city and tile are those of all its recorded samples. */
  lemma NothingIsLost(db: Db, samples: seq<Sample>)
    requires Recorded(db, [], samples)
    ensures forall id :: id in db.raw <==> exists s :: s in samples && s.id == id
    ensures forall k :: At(CityView(db), k) == ExtremesAt(samples, CityKeyOf, MaybeTemp, MaybeTemp, k)
    ensures forall k :: At(TileView(db), k) == ExtremesAt(samples, TileOf, Visib, Precip, k)
  {
    EmptyOutbox();
    forall id ensures id in db.raw <==> exists s :: s in samples && s.id == id {
      assert AccountsAt(RawView(db), [], RawPieces(samples), Both, id);
      MarksTotal(samples, id);
    }
    forall k ensures At(CityView(db), k) == ExtremesAt(samples, CityKeyOf, MaybeTemp, MaybeTemp, k) {
      assert AccountsAt(CityView(db), [], CityPieces(samples), JoinExtremes, k);
      TotalIsExtremes(samples, CityKeyOf, CityPiece, MaybeTemp, MaybeTemp, k);
    }
    forall k ensures At(TileView(db), k) == ExtremesAt(samples, TileOf, Visib, Precip, k) {
      assert AccountsAt(TileView(db), [], TilePieces(samples), JoinExtremes, k);
      TotalIsExtremes(samples, TileOf, TilePiece, Visib, Precip, k);
    }
  }

  lemma PiecesOfSameSamples<S, K, V>(a: seq<S>, b: seq<S>, slot: S -> K, of: S -> V)
    requires forall s :: s in a ==> s in b
    ensures forall x :: x in Pieces(a, slot, of) ==> x in Pieces(b, slot, of)
  {
    forall x | x in Pieces(a, slot, of) ensures x in Pieces(b, slot, of) {
      var i: nat :| i < |a| && Pieces(a, slot, of)[i] == x;
      assert a[i] in b;
      var j: nat :| j < |b| && b[j] == a[i];
      assert Pieces(b, slot, of)[j] == x;
    }
  }

  lemma SameAccounts<K(!new), V(!new)>(a: map<K, V>, b: map<K, V>, piecesA: seq<(K, V)>, piecesB: seq<(K, V)>,
      join: (V, V) -> V)
    requires Semilattice(join) && forall x :: x in piecesA <==> x in piecesB
    requires Accounts(a, [], piecesA, join) && Accounts(b, [], piecesB, join)
    ensures a == b
  {
    forall k ensures At(a, k) == At(b, k) {
      assert AccountsAt(a, [], piecesA, join, k) && AccountsAt(b, [], piecesB, join, k);
      SameRowsSameTotal(piecesA, piecesB, k, join);
    }
    SameTable(a, b);
  }

  /** Two histories that recorded the same set of samples, in whatever batches, order and repetition,
      end with the same raw ids and the same extreme columns. */
  lemma BatchingDoesNotMatter(db1: Db, samples1: seq<Sample>, db2: Db, samples2: seq<Sample>)
    requires Recorded(db1, [], samples1) && Recorded(db2, [], samples2)
    requires forall s :: s in samples1 <==> s in samples2
    ensures RawView(db1) == RawView(db2)
    ensures CityView(db1) == CityView(db2)
    ensures TileView(db1) == TileView(db2)
  {
    EmptyOutbox();
    ExtremesLaws();
    BothLaws();
    PiecesOfSameSamples(samples1, samples2, IdOf, Mark);
    PiecesOfSameSamples(samples2, samples1, IdOf, Mark);
    PiecesOfSameSamples(samples1, samples2, CityKeyOf, CityPiece);
    PiecesOfSameSamples(samples2, samples1, CityKeyOf, CityPiece);
    PiecesOfSameSamples(samples1, samples2, TileOf, TilePiece);
    PiecesOfSameSamples(samples2, samples1, TileOf, TilePiece);
    SameAccounts(RawView(db1), RawView(db2), RawPieces(samples1), RawPieces(samples2), Both);
    SameAccounts(CityView(db1), CityView(db2),
                 CityPieces(samples1), CityPieces(samples2), JoinExtremes);
    SameAccounts(TileView(db1), TileView(db2),
                 TilePieces(samples1), TilePieces(samples2), JoinExtremes);
  }

  /** A raw row, once stored, is never changed. */
  lemma {:induction false} RawRowsStay(db: Db, sql: seq<Statement>, id: string)
    requires id in db.raw
    ensures id in ExecuteAll(db, sql).raw && ExecuteAll(db, sql).raw[id] == db.raw[id]
    decreases |sql|
  {
    if sql != [] {
      RawRowsStay(db, sql[..|sql| - 1], id);
      ExecuteByTable(ExecuteAll(db, sql[..|sql| - 1]), sql[|sql| - 1]);
    }
  }
}
