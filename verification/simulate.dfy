/**
 Tiered and direct tables simulate each other, although one buffers cold writes
 row by row in the delta and the other defers them to one lake batch.
 */
module Simulation {
  import opened Wrappers
  import opened Rows
  import opened Core
  import opened Dml
  import opened Exact
  import opened TieredStore
  import opened Refinement

  // ---------- which chunks are accepted ----------

  predicate Accepted(cx: Ctx, t: Tables, dml: Dml) {
    Chunk(cx, t, dml).lake.Ok?
  }

  predicate WritesFit(cx: Ctx, heapKeys: set<Key>, rows: seq<Json>) {
    (forall raw <- rows :: Writable(cx, raw)) && (cx.policy.RejectDuplicate? ==> Fresh(cx, heapKeys, rows))
  }

  predicate KeysAreColumns(ts: TableSchema) {
    (set c | c in ts.pkCols) <= (set col | col in ts.columns :: col.name)
  }

  predicate DeletesFit(cx: Ctx, rows: seq<Json>) {
    KeysAreColumns(cx.ts) && forall row <- rows :: Deletable(cx, row)
  }

  predicate Fits(cx: Ctx, t: Tables, dml: Dml) {
    match dml
    case Insert(rows) => WritesFit(cx, t.heap.Keys, rows)
    case Delete(keys) => DeletesFit(cx, keys)
    case Update(pairs) =>
      SplitPairs(pairs).Ok? &&
      var (olds, news) := SplitPairs(pairs).value;
      DeletesFit(cx, olds) && WritesFit(cx, AfterDelete(cx, t, olds).heap.Keys, news)
  }

  // Only a direct table batches rows for the lake.
  lemma NothingBatched(cx: Ctx, rows: seq<Json>)
    requires !cx.mode.Direct?
    ensures LakeKeys(cx, rows) == [] && LakeRows(cx, rows) == []
  {
    NothingElsewhere(cx, rows, InLake);
    BatchKeys(cx, rows);
    BatchRows(cx, rows);
    EmptyBatch(LakeKeys(cx, rows), LakeRows(cx, rows));
  }

  lemma EmptyBatch(keys: seq<Key>, rows: seq<(Key, Row)>)
    ensures (set k | k in keys) == {} ==> keys == []
    ensures MapOf(rows) == map[] ==> rows == []
  {
    var all := set k | k in keys;
    if keys != [] {
      assert keys[0] in keys && keys[0] in all;
    }
    if rows != [] {
      assert rows[0].0 in MapOf(rows);
    }
  }

  lemma DeleteLegAccepted(cx: Ctx, t: Tables, ran: nat, rows: seq<Json>)
    requires Runnable(cx)
    ensures DeleteLeg(cx, t, ran, rows).lake.Ok? <==> DeletesFit(cx, rows)
  {
    DeleteFoldAccepted(cx, Start(t, ran), rows);
    DeleteFoldExact(cx, Start(t, ran), rows);
    KnownIsColumn(cx.ts);
    if !cx.mode.Direct? {
      NothingBatched(cx, rows);
    }
  }

  lemma KnownIsColumn(ts: TableSchema)
    ensures PkKnown(ts) <==> KeysAreColumns(ts)
  {
    var keys, names := set c | c in ts.pkCols, set col | col in ts.columns :: col.name;
    forall c | c in ts.pkCols ensures c in keys && (c in names <==> exists col <- ts.columns :: col.name == c) {
    }
  }

  lemma WriteLegAccepted(cx: Ctx, t: Tables, ran: nat, rows: seq<Json>)
    requires Runnable(cx)
    ensures WriteLeg(cx, t, ran, rows).lake.Ok? <==> WritesFit(cx, t.heap.Keys, rows)
  {
    WriteFoldAccepted(cx, Start(t, ran), rows);
    WriteFoldExact(cx, Start(t, ran), rows);
    if !cx.mode.Direct? {
      NothingBatched(cx, rows);
    }
  }

  /** When Postgres refuses nothing and a direct table has its catalog, a chunk is
      accepted exactly when every row fits and no heap key collides. */
  lemma AcceptedIffFits(cx: Ctx, t: Tables, dml: Dml)
    requires Runnable(cx)
    ensures Accepted(cx, t, dml) <==> Fits(cx, t, dml)
  {
    match dml
    case Insert(rows) =>
      WriteLegAccepted(cx, t, 0, rows);
    case Delete(keys) =>
      DeleteLegAccepted(cx, t, 0, keys);
    case Update(pairs) =>
      if SplitPairs(pairs).Ok? {
        var (olds, news) := SplitPairs(pairs).value;
        DeleteLegAccepted(cx, t, 0, olds);
        var d := DeleteLeg(cx, t, 0, olds);
        if d.lake.Ok? {
          DeleteFoldExact(cx, Start(t, 0), olds);
          WriteLegAccepted(cx, d.t, d.ran, news);
        }
      }
  }

  /** A chunk is answered with a missing catalog if and only if the table is direct
      and has none, whatever the chunk holds; then nothing has been executed. */
  lemma NoCatalogIffUnserved(cx: Ctx, t: Tables, dml: Dml)
    ensures var r := Chunk(cx, t, dml);
            && (r.lake == Err(NoCatalog) <==> cx.mode.Direct? && !cx.catalog)
            && (r.lake == Err(NoCatalog) ==> r.t == t && r.ran == 0 && r.wrote == [])
  {
    match dml
    case Insert(rows) =>
      WriteLegCatalog(cx, t, 0, rows);
    case Delete(keys) =>
      DeleteLegCatalog(cx, t, 0, keys);
    case Update(pairs) =>
      if SplitPairs(pairs).Ok? {
        var (olds, news) := SplitPairs(pairs).value;
        DeleteLegCatalog(cx, t, 0, olds);
        var d := DeleteLeg(cx, t, 0, olds);
        WriteLegCatalog(cx, d.t, d.ran, news);
      } else {
        SplitPairsMeans(pairs);
      }
  }

  lemma WriteLegCatalog(cx: Ctx, t: Tables, ran: nat, rows: seq<Json>)
    ensures (cx.mode.Direct? ==> cx.catalog) ==> WriteLeg(cx, t, ran, rows).lake != Err(NoCatalog)
  {
    WriteFoldCatalog(cx, Start(t, ran), rows);
    WriteFoldExact(cx, Start(t, ran), rows);
    if !cx.mode.Direct? {
      NothingBatched(cx, rows);
    }
  }

  lemma DeleteLegCatalog(cx: Ctx, t: Tables, ran: nat, rows: seq<Json>)
    ensures (cx.mode.Direct? ==> cx.catalog) ==> DeleteLeg(cx, t, ran, rows).lake != Err(NoCatalog)
  {
    DeleteFoldCatalog(cx, Start(t, ran), rows);
    DeleteFoldExact(cx, Start(t, ran), rows);
    if !cx.mode.Direct? {
      NothingBatched(cx, rows);
    }
  }

  lemma {:induction false} WriteFoldCatalog(cx: Ctx, w: Work<(Key, Row)>, rows: seq<Json>)
    ensures WriteFold(cx, w, rows).err != Some(NoCatalog)
    decreases |rows|
  {
    if rows != [] {
      assert WriteRow(cx, w, rows[0]).err != Some(NoCatalog);
      WriteFoldCatalog(cx, WriteRow(cx, w, rows[0]).work, rows[1..]);
    }
  }

  lemma {:induction false} DeleteFoldCatalog(cx: Ctx, w: Work<Key>, rows: seq<Json>)
    ensures DeleteFold(cx, w, rows).err != Some(NoCatalog)
    decreases |rows|
  {
    if rows != [] {
      assert DeleteRow(cx, w, rows[0]).err != Some(NoCatalog);
      DeleteFoldCatalog(cx, DeleteRow(cx, w, rows[0]).work, rows[1..]);
    }
  }

  // ---------- acceptance, side by side ----------

  function WrittenRows(dml: Dml): seq<Json> {
    match dml
    case Insert(rows) => rows
    case Delete(_) => []
    case Update(pairs) => if SplitPairs(pairs).Ok? then SplitPairs(pairs).value.1 else []
  }

  // The same test on the hot keys a reader sees.
  predicate FitsSides(cx: Ctx, hotKeys: set<Key>, dml: Dml) {
    match dml
    case Insert(rows) => WritesFit(cx, hotKeys, rows)
    case Delete(keys) => DeletesFit(cx, keys)
    case Update(pairs) =>
      SplitPairs(pairs).Ok? &&
      var (olds, news) := SplitPairs(pairs).value;
      DeletesFit(cx, olds) && WritesFit(cx, hotKeys - Requested(cx, olds, Hot), news)
  }

  // Keys of heap rows that have gone below T: no read shows them, but a heap that
  // refuses duplicates still knows them.
  function HiddenKeys(s: Store, cut: Option<int>): set<Key> {
    s.t.heap.Keys - HotLeg(s, cut).Keys
  }

  predicate HiddenClear(cx: Ctx, s: Store, dml: Dml) {
    cx.policy.RejectDuplicate? ==> Images(cx, WrittenRows(dml), Hot).Keys !! HiddenKeys(s, cx.cut)
  }

  lemma FreshBySides(cx: Ctx, hotKeys: set<Key>, hidden: set<Key>, rows: seq<Json>)
    ensures Fresh(cx, hotKeys + hidden, rows) <==> Fresh(cx, hotKeys, rows) && Written(cx, rows, InHeap).Keys !! hidden
  {
    FreshFrom(cx, hotKeys + hidden, rows);
    FreshFrom(cx, hotKeys, rows);
  }

  lemma FitsBySides(cx: Ctx, s: Store, dml: Dml)
    requires !cx.mode.Mirrored?
    ensures Fits(cx, s.t, dml) <==> FitsSides(cx, HotLeg(s, cx.cut).Keys, dml) && HiddenClear(cx, s, dml)
  {
    var hot, hidden := HotLeg(s, cx.cut).Keys, HiddenKeys(s, cx.cut);
    assert s.t.heap.Keys == hot + hidden;
    match dml
    case Insert(rows) => FreshBySides(cx, hot, hidden, rows);
    case Delete(_) =>
    case Update(pairs) =>
      if SplitPairs(pairs).Ok? {
        var (olds, news) := SplitPairs(pairs).value;
        var gone := Requested(cx, olds, Hot);
        HeapMinusKeys(s.t.heap, gone, cx.cut);
        assert AfterDelete(cx, s.t, olds).heap.Keys == (hot - gone) + hidden;
        FreshBySides(cx, hot - gone, hidden, news);
      }
  }

  // ---------- the simulation relation ----------

  predicate Alike(cx: Ctx, tiered: Store, direct: Store) {
    && HotLeg(tiered, cx.cut) == HotLeg(direct, cx.cut)
    && ColdRows(Tiered, tiered, cx.cut) == ColdRows(Direct, direct, cx.cut)
  }

  /** Equal views of well-placed stores already agree side by side. */
  lemma EqualViewsAreAlike(cx: Ctx, tiered: Store, direct: Store)
    requires Placed(Tiered, tiered, cx.cut) && Placed(Direct, direct, cx.cut)
    ensures Alike(cx, tiered, direct) <==> View(Tiered, tiered, cx.cut) == View(Direct, direct, cx.cut)
  {
    SidesOfView(Tiered, tiered, cx.cut);
    SidesOfView(Direct, direct, cx.cut);
  }

  lemma SidesOfView(mode: Mode, s: Store, cut: Option<int>)
    requires Placed(mode, s, cut)
    ensures HotLeg(s, cut) == OnSide(View(mode, s, cut), cut, Hot)
    ensures ColdRows(mode, s, cut) == OnSide(View(mode, s, cut), cut, Cold)
  {
  }

  lemma {:induction false} SameRequests(a: Ctx, b: Ctx, rows: seq<Json>, target: Core.Target)
    requires a.mode.Tiered? && b == a.(mode := Direct)
    ensures Requested(a, rows, target) == Requested(b, rows, target)
    ensures Images(a, rows, target) == Images(b, rows, target)
    decreases |rows|
  {
    if rows != [] {
      SameRequests(a, b, rows[1..], target);
    }
  }

  lemma {:induction false} SameFresh(a: Ctx, b: Ctx, heapKeys: set<Key>, rows: seq<Json>)
    requires a.mode.Tiered? && b == a.(mode := Direct)
    ensures Fresh(a, heapKeys, rows) <==> Fresh(b, heapKeys, rows)
    decreases |rows|
  {
    if rows != [] {
      SameFresh(a, b, heapKeys, rows[1..]);
      SameFresh(a, b, heapKeys + {ImageKey(a, rows[0])}, rows[1..]);
    }
  }

  // The delta needs the key of a cold row; the lake batch never asks for it.
  predicate ColdKeysReadable(cx: Ctx, dml: Dml) {
    forall raw <- WrittenRows(dml) ::
      ImagePlace(cx, raw) == Some(InDelta) ==> ReadKey(Normalize(cx.ts, raw), cx.ts.pkCols).Ok?
  }

  lemma SameFit(a: Ctx, b: Ctx, rows: seq<Json>)
    requires a.mode.Tiered? && b == a.(mode := Direct)
    ensures DeletesFit(a, rows) <==> DeletesFit(b, rows)
    ensures (forall raw <- rows :: Writable(a, raw)) <==>
            (forall raw <- rows :: Writable(b, raw)) && ColdKeysReadable(a, Insert(rows))
  {
    assert forall row :: Deletable(a, row) <==> Deletable(b, row);
    assert forall raw :: Writable(a, raw) <==>
      Writable(b, raw) && (ImagePlace(a, raw) == Some(InDelta) ==> ReadKey(Normalize(a.ts, raw), a.ts.pkCols).Ok?);
  }

  lemma AlikeAfterDelete(a: Ctx, b: Ctx, tiered: Store, direct: Store, rows: seq<Json>)
    requires a.mode.Tiered? && b == a.(mode := Direct) && Alike(a, tiered, direct)
    ensures Alike(a, Deleted(a, tiered, rows), Deleted(b, direct, rows))
  {
    DeletedSides(a, tiered, rows);
    DeletedSides(b, direct, rows);
    SameRequests(a, b, rows, Hot);
    SameRequests(a, b, rows, Cold);
  }

  lemma HeapMinusKeys(heap: map<Key, Row>, keys: set<Key>, cut: Option<int>)
    ensures HeapMinus(heap, keys, true, cut).Keys == heap.Keys - (OnSide(heap, cut, Hot).Keys * keys)
  {
  }

  lemma AlikeAfterWrite(a: Ctx, b: Ctx, tiered: Store, direct: Store, rows: seq<Json>)
    requires a.mode.Tiered? && b == a.(mode := Direct) && Alike(a, tiered, direct)
    ensures Alike(a, Wrote(a, tiered, rows), Wrote(b, direct, rows))
  {
    WroteSides(a, tiered, rows);
    WroteSides(b, direct, rows);
    SameRequests(a, b, rows, Hot);
    SameRequests(a, b, rows, Cold);
  }

  lemma AlikeAfterChunk(a: Ctx, b: Ctx, tiered: Store, direct: Store, dml: Dml)
    requires a.mode.Tiered? && b == a.(mode := Direct) && Alike(a, tiered, direct)
    requires Accepted(a, tiered.t, dml) && Accepted(b, direct.t, dml)
    ensures Alike(a, Landed(tiered, Chunk(a, tiered.t, dml)), Landed(direct, Chunk(b, direct.t, dml)))
  {
    match dml
    case Insert(rows) =>
      WriteLegLands(a, tiered, 0, rows);
      WriteLegLands(b, direct, 0, rows);
      AlikeAfterWrite(a, b, tiered, direct, rows);
    case Delete(keys) =>
      DeleteLegLands(a, tiered, 0, keys);
      DeleteLegLands(b, direct, 0, keys);
      AlikeAfterDelete(a, b, tiered, direct, keys);
    case Update(pairs) =>
      var (olds, news) := SplitPairs(pairs).value;
      UpdateLands(a, tiered, olds, news);
      UpdateLands(b, direct, olds, news);
      AlikeAfterDelete(a, b, tiered, direct, olds);
      AlikeAfterWrite(a, b, Deleted(a, tiered, olds), Deleted(b, direct, olds), news);
  }

  lemma SameFitsSides(a: Ctx, b: Ctx, hotKeys: set<Key>, dml: Dml)
    requires a.mode.Tiered? && b == a.(mode := Direct)
    ensures FitsSides(a, hotKeys, dml) <==> FitsSides(b, hotKeys, dml) && ColdKeysReadable(a, dml)
  {
    match dml
    case Insert(rows) =>
      SameFit(a, b, rows);
      SameFresh(a, b, hotKeys, rows);
    case Delete(keys) =>
      SameFit(a, b, keys);
    case Update(pairs) =>
      if SplitPairs(pairs).Ok? {
        var (olds, news) := SplitPairs(pairs).value;
        SameFit(a, b, olds);
        SameFit(a, b, news);
        SameRequests(a, b, olds, Hot);
        SameFresh(a, b, hotKeys - Requested(a, olds, Hot), news);
      }
  }

  /** From alike stores, both tables accept a chunk that fits what a reader sees,
      except that the tiered one also has to read its cold keys, the direct one needs
      its catalog, and a heap refusing duplicates also minds its own hidden keys.  So
      they agree on a chunk exactly when these exceptions do; and after acceptance
      they are alike again. */
  lemma TieredDirectSimulation(a: Ctx, b: Ctx, tiered: Store, direct: Store, dml: Dml)
    requires a.mode.Tiered? && b == a.(mode := Direct) && a.fail.None?
    requires Alike(a, tiered, direct)
    ensures var fits := FitsSides(b, HotLeg(direct, a.cut).Keys, dml);
            && (Accepted(a, tiered.t, dml) <==> fits && ColdKeysReadable(a, dml) && HiddenClear(a, tiered, dml))
            && (Accepted(b, direct.t, dml) <==> fits && b.catalog && HiddenClear(b, direct, dml))
            && ((Accepted(a, tiered.t, dml) <==> Accepted(b, direct.t, dml)) <==>
                  (fits ==> (ColdKeysReadable(a, dml) && HiddenClear(a, tiered, dml) <==>
                               b.catalog && HiddenClear(b, direct, dml))))
    ensures Accepted(a, tiered.t, dml) && Accepted(b, direct.t, dml) ==>
              Alike(a, Landed(tiered, Chunk(a, tiered.t, dml)), Landed(direct, Chunk(b, direct.t, dml)))
  {
    AcceptedIffFits(a, tiered.t, dml);
    if b.catalog {
      AcceptedIffFits(b, direct.t, dml);
    }
    FitsBySides(a, tiered, dml);
    FitsBySides(b, direct, dml);
    SameFitsSides(a, b, HotLeg(direct, a.cut).Keys, dml);
    if Accepted(a, tiered.t, dml) && Accepted(b, direct.t, dml) {
      AlikeAfterChunk(a, b, tiered, direct, dml);
    }
  }

  // ---------- over runs ----------

  // A rejected chunk is rolled back.
  function AfterOne(cx: Ctx, s: Store, dml: Dml): Store {
    if Accepted(cx, s.t, dml) then Landed(s, Chunk(cx, s.t, dml)) else s
  }

  function AfterRun(mode: Mode, s: Store, run: seq<(Ctx, Dml)>): Store
    decreases |run|
  {
    if run == [] then s else AfterRun(mode, AfterOne(run[0].0.(mode := mode), s, run[0].1), run[1..])
  }

  // Which chunks of a run are accepted.
  function Verdicts(mode: Mode, s: Store, run: seq<(Ctx, Dml)>): seq<bool>
    decreases |run|
  {
    if run == [] then []
    else
      var cx := run[0].0.(mode := mode);
      [Accepted(cx, s.t, run[0].1)] + Verdicts(mode, AfterOne(cx, s, run[0].1), run[1..])
  }

  // On no chunk of the run do the exceptions of the two modes differ.
  predicate ExceptionsAgree(tiered: Store, direct: Store, run: seq<(Ctx, Dml)>)
    decreases |run|
  {
    run == [] ||
    var (a, b, dml) := (run[0].0.(mode := Tiered), run[0].0.(mode := Direct), run[0].1);
    && (FitsSides(b, HotLeg(direct, b.cut).Keys, dml) ==>
          (ColdKeysReadable(a, dml) && HiddenClear(a, tiered, dml) <==> b.catalog && HiddenClear(b, direct, dml)))
    && ExceptionsAgree(AfterOne(a, tiered, dml), AfterOne(b, direct, dml), run[1..])
  }

  predicate PlainRun(cut: Option<int>, run: seq<(Ctx, Dml)>) {
    forall i :: 0 <= i < |run| ==> run[i].0.fail.None? && run[i].0.cut == cut
  }

  /** From alike stores a whole run is accepted chunk by chunk on both sides or on
      neither, if and only if the exceptions agree on every chunk; then the stores
      are alike at the end. */
  lemma {:induction false} TieredDirectRuns(cx: Ctx, tiered: Store, direct: Store, run: seq<(Ctx, Dml)>)
    requires PlainRun(cx.cut, run) && Alike(cx, tiered, direct)
    ensures Verdicts(Tiered, tiered, run) == Verdicts(Direct, direct, run) <==> ExceptionsAgree(tiered, direct, run)
    ensures ExceptionsAgree(tiered, direct, run) ==>
              Alike(cx, AfterRun(Tiered, tiered, run), AfterRun(Direct, direct, run))
    decreases |run|
  {
    if run != [] {
      var (a, b, dml) := (run[0].0.(mode := Tiered), run[0].0.(mode := Direct), run[0].1);
      assert forall i {:trigger run[1..][i]} :: 0 <= i < |run[1..]| ==> run[1..][i] == run[i + 1];
      TieredDirectSimulation(a, b, tiered, direct, dml);
      var va, vb := Verdicts(Tiered, tiered, run), Verdicts(Direct, direct, run);
      assert va[0] == Accepted(a, tiered.t, dml) && vb[0] == Accepted(b, direct.t, dml);
      if Accepted(a, tiered.t, dml) <==> Accepted(b, direct.t, dml) {
        var t, d := AfterOne(a, tiered, dml), AfterOne(b, direct, dml);
        TieredDirectRuns(cx, t, d, run[1..]);
        assert va[1..] == Verdicts(Tiered, t, run[1..]) && vb[1..] == Verdicts(Direct, d, run[1..]);
      }
    }
  }

  // ---------- both exceptions are real ----------

  /** A cold row whose key is SQL NULL: the delta refuses it, the lake takes it. */
  lemma NullKeyDiverges(a: Ctx, b: Ctx, t: Tables)
    requires a.mode.Tiered? && b == a.(mode := Direct) && a.fail.None? && a.catalog
    requires (forall c <- a.ts.columns :: !IsJsonType(c.pgType)) && a.ts.pkCols == ["id"] && a.ts.tierCol == "ts"
    requires a.ts.encodeText("5") == Some(5) && a.cut == Some(10) && a.retention == None
    ensures var rows := [Object(map["id" := Null, "ts" := Number("5")])];
            !Accepted(a, t, Insert(rows)) && Accepted(b, t, Insert(rows))
  {
    var row := Object(map["id" := Null, "ts" := Number("5")]);
    NormalizePlainTable(a.ts, row.fields, a.ts.columns);
    assert ReadTier(a.ts, row) == Ok(5);
    assert FieldText(row, "id") == Err(MissingField("id"));
    AcceptedIffFits(a, t, Insert([row]));
    AcceptedIffFits(b, t, Insert([row]));
    assert row in [row];
    assert !Writable(a, row) && Writable(b, row);
  }

  /** Two well-placed stores with equal views, a heap row below T hidden in one: the
      same hot insert is refused by the tiered table and taken by the direct one. */
  lemma HiddenKeyDiverges(a: Ctx, b: Ctx, hidden: Json, row: Json)
    requires a.mode.Tiered? && b == a.(mode := Direct) && a.fail.None? && a.catalog
    requires (forall c <- a.ts.columns :: !IsJsonType(c.pgType)) && a.ts.pkCols == ["id"] && a.ts.tierCol == "ts"
    requires a.ts.encodeText("15") == Some(15) && a.cut == Some(10) && a.policy.RejectDuplicate?
    requires row == Object(map["id" := Text("1"), "ts" := Number("15")])
    ensures var key := Key([TextCell("1")]);
            var tiered := Store(Tables(map[key := Row(3, hidden)], map[]), map[]);
            var direct := Store(Tables(map[], map[]), map[]);
            && Placed(Tiered, tiered, a.cut) && Placed(Direct, direct, a.cut)
            && View(Tiered, tiered, a.cut) == View(Direct, direct, a.cut)
            && !Accepted(a, tiered.t, Insert([row])) && Accepted(b, direct.t, Insert([row]))
  {
    var tiered := Store(Tables(map[Key([TextCell("1")]) := Row(3, hidden)], map[]), map[]);
    var direct := Store(Tables(map[], map[]), map[]);
    assert View(Tiered, tiered, a.cut) == map[] == View(Direct, direct, a.cut);
    HotRowReads(a, row);
    HotRowReads(b, row);
    AcceptedIffFits(a, tiered.t, Insert([row]));
    AcceptedIffFits(b, direct.t, Insert([row]));
    assert row in [row];
    OneFreshRow(b, row, direct.t.heap.Keys);
    assert WritesFit(b, direct.t.heap.Keys, [row]);
  }

  lemma OneFreshRow(cx: Ctx, row: Json, heapKeys: set<Key>)
    requires ImageKey(cx, row) !in heapKeys
    ensures Fresh(cx, heapKeys, [row])
  {
    assert [row][1..] == [];
    assert forall keys :: Fresh(cx, keys, []);
  }

  lemma HotRowReads(cx: Ctx, row: Json)
    requires (forall c <- cx.ts.columns :: !IsJsonType(c.pgType)) && cx.ts.pkCols == ["id"] && cx.ts.tierCol == "ts"
    requires cx.ts.encodeText("15") == Some(15) && cx.cut == Some(10) && !cx.mode.Mirrored?
    requires row == Object(map["id" := Text("1"), "ts" := Number("15")])
    ensures Writable(cx, row) && ImagePlace(cx, row) == Some(InHeap) && ImageKey(cx, row) == Key([TextCell("1")])
  {
    NormalizePlainTable(cx.ts, row.fields, cx.ts.columns);
    assert ReadTier(cx.ts, row) == Ok(15);
    assert Cells(row, cx.ts.pkCols[1..]) == [];
    assert Cells(row, cx.ts.pkCols) == [TextCell("1")] + [];
  }
}
