/**
 The layers joined: a write transaction on the shared connection, seen through the
 merged view, is the sequence of its statements on one keyed table.
 */
module CommittedView {
  import opened Wrappers
  import opened Rows
  import opened Core
  import opened Dml
  import opened Exact
  import opened TieredStore
  import opened Refinement
  import opened Relational
  import opened Interleaving
  import Simulation
  import T = TxnSpec

  // ---------- a chunk as an operation on the view alone ----------

  function Side(cx: Ctx, view: map<Key, Row>, target: Core.Target): map<Key, Row> {
    OnSide(view, cx.cut, target)
  }

  function Struck(cx: Ctx, view: map<Key, Row>, olds: seq<Json>): set<Key> {
    Side(cx, view, Hot).Keys * Requested(cx, olds, Hot) + Side(cx, view, Cold).Keys * Requested(cx, olds, Cold)
  }

  function AllImages(cx: Ctx, news: seq<Json>): map<Key, Row> {
    Images(cx, news, Hot) + Images(cx, news, Cold)
  }

  function Operate(cx: Ctx, view: map<Key, Row>, dml: Dml): map<Key, Row> {
    match dml
    case Insert(rows) => view + AllImages(cx, rows)
    case Delete(keys) => view - Struck(cx, view, keys)
    case Update(pairs) =>
      if SplitPairs(pairs).Ok? then
        var (olds, news) := SplitPairs(pairs).value;
        (view - Struck(cx, view, olds)) + AllImages(cx, news)
      else view
  }

  predicate Crosses(cx: Ctx, view: map<Key, Row>, olds: seq<Json>, news: seq<Json>) {
    !(&& Images(cx, news, Hot).Keys !! Side(cx, view, Cold).Keys - Requested(cx, olds, Cold)
      && Images(cx, news, Cold).Keys !! Side(cx, view, Hot).Keys - Requested(cx, olds, Hot)
      && Images(cx, news, Hot).Keys !! Images(cx, news, Cold).Keys)
  }

  predicate CrossFree(cx: Ctx, view: map<Key, Row>, dml: Dml) {
    match dml
    case Insert(rows) => !Crosses(cx, view, [], rows)
    case Delete(_) => true
    case Update(pairs) =>
      SplitPairs(pairs).Ok? && !Crosses(cx, view, SplitPairs(pairs).value.0, SplitPairs(pairs).value.1)
  }

  // The effect of a chunk on a well-placed store, as far as the view tells.
  predicate ActsOnView(cx: Ctx, s: Store, after: Store, dml: Dml) {
    var view := View(cx.mode, s, cx.cut);
    && (Placed(cx.mode, after, cx.cut) <==> CrossFree(cx, view, dml))
    && (CrossFree(cx, view, dml) ==> View(cx.mode, after, cx.cut) == Operate(cx, view, dml))
  }

  lemma InsertOnView(cx: Ctx, s: Store, rows: seq<Json>)
    requires !cx.mode.Mirrored? && Placed(cx.mode, s, cx.cut)
    requires Chunk(cx, s.t, Insert(rows)).lake.Ok?
    ensures ActsOnView(cx, s, Landed(s, Chunk(cx, s.t, Insert(rows))), Insert(rows))
  {
    Simulation.SidesOfView(cx.mode, s, cx.cut);
    InsertRefines(cx, s, rows);
    assert Requested(cx, [], Hot) == {} && Requested(cx, [], Cold) == {};
  }

  lemma DeleteOnView(cx: Ctx, s: Store, keys: seq<Json>)
    requires !cx.mode.Mirrored? && Placed(cx.mode, s, cx.cut)
    requires Chunk(cx, s.t, Delete(keys)).lake.Ok?
    ensures ActsOnView(cx, s, Landed(s, Chunk(cx, s.t, Delete(keys))), Delete(keys))
  {
    Simulation.SidesOfView(cx.mode, s, cx.cut);
    DeleteRefines(cx, s, keys);
  }

  lemma UpdateOnView(cx: Ctx, s: Store, pairs: seq<Json>)
    requires !cx.mode.Mirrored? && Placed(cx.mode, s, cx.cut)
    requires Chunk(cx, s.t, Update(pairs)).lake.Ok?
    ensures ActsOnView(cx, s, Landed(s, Chunk(cx, s.t, Update(pairs))), Update(pairs))
  {
    Simulation.SidesOfView(cx.mode, s, cx.cut);
    var (olds, news) := SplitPairs(pairs).value;
    UpdateLands(cx, s, olds, news);
    LegsExact(cx, s, olds, news);
  }

  /** Any accepted chunk on a well-placed store: the store stays well placed exactly
      when the chunk is free of crossings on the view, and then its effect on the
      view depends on the view alone. */
  lemma ChunkOnView(cx: Ctx, s: Store, dml: Dml)
    requires !cx.mode.Mirrored? && Placed(cx.mode, s, cx.cut)
    requires Chunk(cx, s.t, dml).lake.Ok?
    ensures ActsOnView(cx, s, Landed(s, Chunk(cx, s.t, dml)), dml)
  {
    match dml
    case Insert(rows) => InsertOnView(cx, s, rows);
    case Delete(keys) => DeleteOnView(cx, s, keys);
    case Update(pairs) => UpdateOnView(cx, s, pairs);
  }

  // A tiered chunk sends nothing to the lake.
  lemma TieredSparesLake(cx: Ctx, s: Store, dml: Dml)
    requires cx.mode.Tiered? && Chunk(cx, s.t, dml).lake.Ok?
    ensures Landed(s, Chunk(cx, s.t, dml)) == Store(Chunk(cx, s.t, dml).t, s.lake)
  {
    match dml
    case Insert(rows) =>
      InsertLands(cx, s, rows);
      NothingElsewhere(cx, rows, InLake);
    case Delete(keys) =>
      DeleteLands(cx, s, keys);
      NothingElsewhere(cx, keys, InLake);
      LakeSides(s.lake, {}, cx.cut);
    case Update(pairs) =>
      var (olds, news) := SplitPairs(pairs).value;
      UpdateLands(cx, s, olds, news);
      NothingElsewhere(cx, olds, InLake);
      NothingElsewhere(cx, news, InLake);
      LakeSides(s.lake, {}, cx.cut);
      assert s.lake + map[] == s.lake;
  }

  // ---------- the statements of a transaction on one table ----------

  function FoldViews(view: map<Key, Row>, table: int, actions: seq<Action>): map<Key, Row>
    decreases |actions|
  {
    if actions == [] then view
    else
      var before, a := FoldViews(view, table, actions[..|actions| - 1]), actions[|actions| - 1];
      if a.Write? && a.table == table then Operate(a.cx, before, a.dml) else before
  }

  // Every chunk on the table reads this T, is accepted, and crosses nothing.
  predicate GoodWrites(tables: map<int, Tables>, view: map<Key, Row>, table: int,
                       cut: Option<int>, actions: seq<Action>)
    decreases |actions|
  {
    actions == [] ||
    var before, a := actions[..|actions| - 1], actions[|actions| - 1];
    && GoodWrites(tables, view, table, cut, before)
    && (a.Write? && a.table == table ==>
          && a.cx.mode.Tiered? && a.cx.cut == cut
          && table in FoldChunks(tables, before)
          && Chunk(a.cx, FoldChunks(tables, before)[table], a.dml).lake.Ok?
          && CrossFree(a.cx, FoldViews(view, table, before), a.dml))
  }

  predicate Shows(tables: map<int, Tables>, table: int, lake: map<Key, Row>, cut: Option<int>, view: map<Key, Row>) {
    table in tables &&
    var s := Store(tables[table], lake);
    Placed(Tiered, s, cut) && View(Tiered, s, cut) == view
  }

  lemma OneWriteShows(tables: map<int, Tables>, table: int, lake: map<Key, Row>, cx: Ctx, view: map<Key, Row>, dml: Dml)
    requires cx.mode.Tiered? && Shows(tables, table, lake, cx.cut, view)
    requires Chunk(cx, tables[table], dml).lake.Ok? && CrossFree(cx, view, dml)
    ensures Shows(tables[table := Chunk(cx, tables[table], dml).t], table, lake, cx.cut, Operate(cx, view, dml))
  {
    var s := Store(tables[table], lake);
    ChunkOnView(cx, s, dml);
    TieredSparesLake(cx, s, dml);
  }

  lemma {:induction false} FoldShows(tables: map<int, Tables>, table: int, lake: map<Key, Row>, cut: Option<int>,
                                     view: map<Key, Row>, actions: seq<Action>)
    requires Shows(tables, table, lake, cut, view) && GoodWrites(tables, view, table, cut, actions)
    ensures Shows(FoldChunks(tables, actions), table, lake, cut, FoldViews(view, table, actions))
    decreases |actions|
  {
    if actions != [] {
      var before, a := actions[..|actions| - 1], actions[|actions| - 1];
      FoldShows(tables, table, lake, cut, view, before);
      if a.Write? && a.table == table {
        OneWriteShows(FoldChunks(tables, before), table, lake, a.cx, FoldViews(view, table, before), a.dml);
      }
    }
  }

  /** From any state reached with one writer at a time, between write transactions:
      a transaction begins, writes accepted chunks to a tiered table among any
      readers' steps, sees no refused statement and commits.  Until then everyone
      reads what was committed before; afterwards the UNION ALL read of the table is
      free of duplicates and is its old view with the chunks' relational operations
      applied in order. */
  lemma TransactionIsOneTable(w0: World, history: seq<Action>, writer: int, mid: seq<Action>,
                              table: int, lake: map<Key, Row>, cut: Option<int>)
    requires w0.clients == map[] && !w0.conn.inTxn && w0.conn.txn.NoTxn? && OneWriterRun(w0, history)
    requires var v := Run(w0, history); !v.conn.inTxn && IsActive(v, writer)
    requires forall a <- mid :: MidWrite(writer, a)
    requires var v := Run(w0, history);
             var w := Step(v, Ensure(writer, true));
             && !SawRefusal(w, mid)
             && table in v.conn.committed.tables
             && var s := Store(v.conn.committed.tables[table], lake);
             && Placed(Tiered, s, cut)
             && GoodWrites(v.conn.committed.tables, View(Tiered, s, cut), table, cut, mid)
    ensures var v := Run(w0, history);
            var w := Step(v, Ensure(writer, true));
            var view := View(Tiered, Store(v.conn.committed.tables[table], lake), cut);
            var after := Step(Run(w, mid), EndCommit(writer, true));
            && Run(w, mid).conn.committed == v.conn.committed
            && table in after.conn.committed.tables
            && var s := Store(after.conn.committed.tables[table], lake);
            && KeyUnique(MergedRead(Tiered, s, cut))
            && View(Tiered, s, cut) == FoldViews(view, table, mid)
  {
    var v := Run(w0, history);
    var w := Step(v, Ensure(writer, true));
    var s := Store(v.conn.committed.tables[table], lake);
    ReachableFlagsAgree(w0, history);
    FirstWriteBegins(v, writer);
    WriterCommits(w, writer, mid);
    FoldShows(v.conn.committed.tables, table, lake, cut, View(Tiered, s, cut), mid);
    var after := Step(Run(w, mid), EndCommit(writer, true));
    ReadIsViewIffPlaced(Tiered, Store(after.conn.committed.tables[table], lake), cut);
  }
}
