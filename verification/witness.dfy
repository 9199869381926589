/**
 Inputs at which the store does not behave like one table.
 */
module Witness {
  import opened Wrappers
  import opened Rows
  import opened Core
  import opened Dml
  import opened Exact
  import opened TieredStore
  import opened Refinement
  import opened Relational
  import opened Simulation
  import opened Pieces
  import opened Chunking

  // ---------- a hand-over loses a row ----------

  function Tiny(id: string): Json {
    Object(map["id" := Text(id), "ts" := Number("5")])
  }

  function Move(from: string, to: string): Json {
    Object(map["old" := Tiny(from), "new" := Tiny(to)])
  }

  // A tiered table (id, ts) without json columns, cut at 10.
  predicate SmallTable(cx: Ctx) {
    && Runnable(cx) && cx.mode.Tiered? && cx.cut == Some(10) && cx.retention == None
    && KeysAreColumns(cx.ts) && (forall c <- cx.ts.columns :: !IsJsonType(c.pgType))
    && cx.ts.pkCols == ["id"] && cx.ts.tierCol == "ts" && cx.ts.encodeText("5") == Some(5)
  }

  lemma TinyReads(cx: Ctx, id: string)
    requires SmallTable(cx)
    ensures Normalize(cx.ts, Tiny(id)) == Tiny(id) && ReadTier(cx.ts, Tiny(id)) == Ok(5)
    ensures RowKey(cx, Tiny(id)) == ImageKey(cx, Tiny(id)) == Key([TextCell(id)])
    ensures RowPlace(cx, Tiny(id)) == ImagePlace(cx, Tiny(id)) == Some(InDelta)
    ensures Deletable(cx, Tiny(id)) && Writable(cx, Tiny(id))
  {
    NormalizePlainTable(cx.ts, Tiny(id).fields, cx.ts.columns);
    assert FieldText(Tiny(id), "id") == Ok(id);
    assert FieldText(Tiny(id), "ts") == Ok("5");
    assert forall c <- cx.ts.pkCols :: c == "id";
    assert Cells(Tiny(id), cx.ts.pkCols[1..]) == [];
    assert Cells(Tiny(id), cx.ts.pkCols) == [TextCell(id)] + [];
  }

  lemma MoveReads(from: string, to: string)
    ensures SplitPairs([Move(from, to)]) == Ok(([Tiny(from)], [Tiny(to)]))
  {
    assert Get(Move(from, to), "old") == Some(Tiny(from));
    assert Get(Move(from, to), "new") == Some(Tiny(to));
    assert SplitPairs([Move(from, to)][1..]) == Ok(([], []));
    assert [Tiny(from)] + [] == [Tiny(from)] && [Tiny(to)] + [] == [Tiny(to)];
  }

  lemma MoveSides(cx: Ctx, from: string, to: string, place: Place)
    requires SmallTable(cx)
    ensures Removed(cx, [Tiny(from)], place) == if place.InDelta? then {Key([TextCell(from)])} else {}
    ensures Written(cx, [Tiny(to)], place) ==
            if place.InDelta? then map[Key([TextCell(to)]) := Row(5, Tiny(to))] else map[]
  {
    TinyReads(cx, from);
    TinyReads(cx, to);
    assert Removed(cx, [Tiny(from)][1..], place) == {} && Written(cx, [Tiny(to)][1..], place) == map[];
  }

  lemma TinyFits(cx: Ctx, from: string, to: string, heapKeys: set<Key>)
    requires SmallTable(cx)
    ensures DeletesFit(cx, [Tiny(from)]) && WritesFit(cx, heapKeys, [Tiny(to)])
  {
    TinyReads(cx, from);
    TinyReads(cx, to);
    ColdIsFresh(cx, [Tiny(to)], heapKeys);
  }

  lemma MoveFits(cx: Ctx, s: Store, from: string, to: string)
    requires SmallTable(cx)
    ensures UpdateStore(cx, s, [Move(from, to)]).Some?
  {
    MoveReads(from, to);
    TinyFits(cx, from, to, AfterDelete(cx, s.t, [Tiny(from)]).heap.Keys);
    UpdateStoreExact(cx, s, [Move(from, to)]);
  }

  function IdKey(id: string): Key {
    Key([TextCell(id)])
  }

  function Moved(id: string): map<Key, Row> {
    map[IdKey(id) := Row(5, Tiny(id))]
  }

  // Cold removals and cold images leave the hot side alone.
  lemma ColdOnly(cx: Ctx, s: Store, olds: seq<Json>, news: seq<Json>, gone: set<Key>, rows: map<Key, Row>)
    requires cx.mode.Tiered?
    requires Removed(cx, olds, InHeap) == {} && Removed(cx, olds, InDelta) == gone
    requires Written(cx, news, InHeap) == map[] && Written(cx, news, InDelta) == rows
    ensures var after := Wrote(cx, Deleted(cx, s, olds), news);
            && HotLeg(after, cx.cut) == HotLeg(s, cx.cut)
            && ColdRows(Tiered, after, cx.cut) == (ColdRows(Tiered, s, cx.cut) - gone) + rows
  {
    DeletedSides(cx, s, olds);
    WroteSides(cx, Deleted(cx, s, olds), news);
    Untouched(HotLeg(s, cx.cut));
  }

  lemma Untouched(hot: map<Key, Row>)
    ensures (hot - {}) + map[] == hot
  {
  }

  // One such move, seen on the two sides of the seam.
  lemma MoveEffect(cx: Ctx, s: Store, from: string, to: string)
    requires SmallTable(cx)
    ensures UpdateStore(cx, s, [Move(from, to)]).Some?
    ensures var after := UpdateStore(cx, s, [Move(from, to)]).value;
            && HotLeg(after, cx.cut) == HotLeg(s, cx.cut)
            && ColdRows(Tiered, after, cx.cut) == (ColdRows(Tiered, s, cx.cut) - {IdKey(from)}) + Moved(to)
  {
    MoveFits(cx, s, from, to);
    MoveReads(from, to);
    UpdateStoreExact(cx, s, [Move(from, to)]);
    MoveSides(cx, from, to, InHeap);
    MoveSides(cx, from, to, InDelta);
    ColdOnly(cx, s, [Tiny(from)], [Tiny(to)], {IdKey(from)}, Moved(to));
  }

  lemma ViewAlgebra(hot: map<Key, Row>, cold: map<Key, Row>, one: Key, two: Key, m2: map<Key, Row>, m3: map<Key, Row>)
    requires one !in hot && two !in hot && m2.Keys == {two} && two !in m3
    ensures hot + ((((cold - {one}) + m2) - {two}) + m3) == ((hot + cold) - {one, two}) + m3
    ensures hot + ((cold - {one, two}) + (m2 + m3)) == ((hot + cold) - {one, two}) + (m2 + m3)
  {
  }

  /** Row 1 becomes row 2 in the first chunk while row 2 becomes row 3 in the
      second, both rows being cold.  Both ways are accepted; as one update rows 2
      and 3 are read afterwards, in two chunks row 2 is lost. */
  lemma HandOverWitness(cx: Ctx, s: Store, p: seq<Json>, q: seq<Json>)
    requires SmallTable(cx) && p == [Move("1", "2")] && q == [Move("2", "3")]
    requires IdKey("1") !in HotLeg(s, cx.cut) && IdKey("2") !in HotLeg(s, cx.cut)
    ensures RunUpdates(cx, s, [p, q]).Some? && UpdateStore(cx, s, Flatten([p, q])).Some?
    ensures var rest := View(Tiered, s, cx.cut) - {IdKey("1"), IdKey("2")};
            && View(Tiered, UpdateStore(cx, s, Flatten([p, q])).value, cx.cut) == rest + (Moved("2") + Moved("3"))
            && View(Tiered, RunUpdates(cx, s, [p, q]).value, cx.cut) == rest + Moved("3")
  {
    assert "1" != "2" && "2" != "3" && "1" != "3";
    ChunkedLoses(cx, s, p, q);
    WholeKeeps(cx, s, p, q);
    FlattenTwo(p, q);
  }

  lemma FlattenTwo(p: seq<Json>, q: seq<Json>)
    ensures Flatten([p, q]) == p + q
  {
    assert [p, q][1..] == [q] && [q][1..] == [];
    assert Flatten([q]) == q + Flatten([q][1..]);
    assert q + [] == q;
  }

  lemma ChunkedLoses(cx: Ctx, s: Store, p: seq<Json>, q: seq<Json>)
    requires SmallTable(cx) && p == [Move("1", "2")] && q == [Move("2", "3")]
    requires IdKey("1") !in HotLeg(s, cx.cut) && IdKey("2") !in HotLeg(s, cx.cut)
    ensures RunUpdates(cx, s, [p, q]).Some?
    ensures View(Tiered, RunUpdates(cx, s, [p, q]).value, cx.cut) ==
            (View(Tiered, s, cx.cut) - {IdKey("1"), IdKey("2")}) + Moved("3")
  {
    MoveEffect(cx, s, "1", "2");
    var next := UpdateStore(cx, s, p).value;
    MoveEffect(cx, next, "2", "3");
    var last := UpdateStore(cx, next, q).value;
    TwoChunkRun(cx, s, p, q, next, last);
    ViewAlgebra(HotLeg(s, cx.cut), ColdRows(Tiered, s, cx.cut), IdKey("1"), IdKey("2"), Moved("2"), Moved("3"));
  }

  lemma TwoChunkRun(cx: Ctx, s: Store, p: seq<Json>, q: seq<Json>, next: Store, last: Store)
    requires UpdateStore(cx, s, p) == Some(next) && UpdateStore(cx, next, q) == Some(last)
    ensures RunUpdates(cx, s, [p, q]) == Some(last)
  {
    assert [p, q][1..] == [q] && [q][1..] == [];
    assert RunUpdates(cx, last, []) == Some(last);
    assert RunUpdates(cx, next, [q]) == Some(last);
  }

  lemma WholeKeeps(cx: Ctx, s: Store, p: seq<Json>, q: seq<Json>)
    requires SmallTable(cx) && p == [Move("1", "2")] && q == [Move("2", "3")]
    requires IdKey("1") !in HotLeg(s, cx.cut) && IdKey("2") !in HotLeg(s, cx.cut)
    ensures UpdateStore(cx, s, p + q).Some?
    ensures View(Tiered, UpdateStore(cx, s, p + q).value, cx.cut) ==
            (View(Tiered, s, cx.cut) - {IdKey("1"), IdKey("2")}) + (Moved("2") + Moved("3"))
  {
    WholeMoveFits(cx, s, p, q);
    WholeEffect(cx, s, p + q);
    ViewAlgebra(HotLeg(s, cx.cut), ColdRows(Tiered, s, cx.cut), IdKey("1"), IdKey("2"), Moved("2"), Moved("3"));
  }

  lemma WholeEffect(cx: Ctx, s: Store, whole: seq<Json>)
    requires SmallTable(cx) && UpdateStore(cx, s, whole).Some?
    requires Olds(whole) == [Tiny("1")] + [Tiny("2")] && News(whole) == [Tiny("2")] + [Tiny("3")]
    ensures var after := UpdateStore(cx, s, whole).value;
            && HotLeg(after, cx.cut) == HotLeg(s, cx.cut)
            && ColdRows(Tiered, after, cx.cut) ==
               (ColdRows(Tiered, s, cx.cut) - {IdKey("1"), IdKey("2")}) + (Moved("2") + Moved("3"))
  {
    UpdateStoreExact(cx, s, whole);
    WholeSides(cx, InHeap);
    WholeSides(cx, InDelta);
    ColdOnly(cx, s, Olds(whole), News(whole), {IdKey("1"), IdKey("2")}, Moved("2") + Moved("3"));
  }

  lemma WholeSides(cx: Ctx, place: Place)
    requires SmallTable(cx)
    ensures Removed(cx, [Tiny("1")] + [Tiny("2")], place) == if place.InDelta? then {IdKey("1"), IdKey("2")} else {}
    ensures Written(cx, [Tiny("2")] + [Tiny("3")], place) == if place.InDelta? then Moved("2") + Moved("3") else map[]
  {
    MoveSides(cx, "1", "2", place);
    MoveSides(cx, "2", "3", place);
    RemovedConcat(cx, [Tiny("1")], [Tiny("2")], place);
    WrittenConcat(cx, [Tiny("2")], [Tiny("3")], place);
  }

  lemma WholeMoveReads(p: seq<Json>, q: seq<Json>)
    requires p == [Move("1", "2")] && q == [Move("2", "3")]
    ensures SplitPairs(p + q).Ok?
    ensures Olds(p + q) == [Tiny("1")] + [Tiny("2")] && News(p + q) == [Tiny("2")] + [Tiny("3")]
  {
    MoveReads("1", "2");
    MoveReads("2", "3");
    SplitPairsConcat(p, q);
  }

  lemma WholeMoveFits(cx: Ctx, s: Store, p: seq<Json>, q: seq<Json>)
    requires SmallTable(cx) && p == [Move("1", "2")] && q == [Move("2", "3")]
    ensures UpdateStore(cx, s, p + q).Some?
    ensures Olds(p + q) == [Tiny("1")] + [Tiny("2")] && News(p + q) == [Tiny("2")] + [Tiny("3")]
  {
    WholeMoveReads(p, q);
    TiniesFit(cx, Olds(p + q), News(p + q), AfterDelete(cx, s.t, Olds(p + q)).heap.Keys);
    UpdateStoreExact(cx, s, p + q);
  }

  lemma TiniesFit(cx: Ctx, olds: seq<Json>, news: seq<Json>, heapKeys: set<Key>)
    requires SmallTable(cx)
    requires forall row <- olds + news :: row in {Tiny("1"), Tiny("2"), Tiny("3")}
    ensures DeletesFit(cx, olds) && WritesFit(cx, heapKeys, news)
  {
    TinyReads(cx, "1");
    TinyReads(cx, "2");
    TinyReads(cx, "3");
    assert forall row <- olds + news :: Deletable(cx, row) && Writable(cx, row) && ImagePlace(cx, row) == Some(InDelta);
    assert forall row :: row in olds || row in news ==> row in olds + news;
    ColdIsFresh(cx, news, heapKeys);
  }

  lemma {:induction false} ColdIsFresh(cx: Ctx, rows: seq<Json>, heapKeys: set<Key>)
    requires forall raw <- rows :: ImagePlace(cx, raw) != Some(InHeap)
    ensures Fresh(cx, heapKeys, rows)
    decreases |rows|
  {
    if rows != [] {
      ColdIsFresh(cx, rows[1..], heapKeys);
    }
  }

  // ---------- an insert shows a key twice ----------

  // The same id as `Tiny`, above the cut.
  function Warm(id: string): Json {
    Object(map["id" := Text(id), "ts" := Number("15")])
  }

  lemma BothSidesFit(cx: Ctx, heapKeys: set<Key>, rows: seq<Json>)
    requires SmallTable(cx) && cx.ts.encodeText("15") == Some(15)
    requires IdKey("1") !in heapKeys && rows == [Tiny("1"), Warm("1")]
    ensures WritesFit(cx, heapKeys, rows)
  {
    TinyReads(cx, "1");
    HotRowReads(cx, Warm("1"));
    OneFreshRow(cx, Warm("1"), heapKeys);
    assert rows[1..] == [Warm("1")];
  }

  lemma BothSidesCross(cx: Ctx, s: Store, rows: seq<Json>)
    requires SmallTable(cx) && cx.ts.encodeText("15") == Some(15) && rows == [Tiny("1"), Warm("1")]
    ensures !NothingCrosses(cx, s, rows)
  {
    TinyReads(cx, "1");
    HotRowReads(cx, Warm("1"));
    assert rows[0] in rows && rows[1] in rows;
    WrittenIn(cx, rows, InHeap, IdKey("1"));
    WrittenIn(cx, rows, InDelta, IdKey("1"));
  }

  /** An accepted insert carries one new key on both sides of the seam; the read then
      shows it twice. */
  lemma KeyTwiceWitness(cx: Ctx, s: Store, rows: seq<Json>)
    requires SmallTable(cx) && cx.ts.encodeText("15") == Some(15)
    requires Placed(Tiered, s, cx.cut) && IdKey("1") !in s.t.heap && rows == [Tiny("1"), Warm("1")]
    ensures Accepted(cx, s.t, Insert(rows))
    ensures !KeyUnique(MergedRead(Tiered, Landed(s, Chunk(cx, s.t, Insert(rows))), cx.cut))
  {
    BothSidesFit(cx, s.t.heap.Keys, rows);
    AcceptedIffFits(cx, s.t, Insert(rows));
    BothSidesCross(cx, s, rows);
    InsertRefines(cx, s, rows);
    ReadIsViewIffPlaced(Tiered, Landed(s, Chunk(cx, s.t, Insert(rows))), cx.cut);
  }

  // ---------- a json key column ----------

  lemma LiteralReads(cx: Ctx, c: string, tierText: string, tier: int)
    requires DistinctNames(cx.ts.columns) && ParsesLiteral(cx.ts)
    requires c in cx.ts.pkCols && JsonColumn(cx.ts.columns, c) && !JsonColumn(cx.ts.columns, cx.ts.tierCol)
    requires cx.ts.encodeText(tierText) == Some(tier)
    requires cx.mode.Tiered? && RouteTo(cx, tier).Cold? && Safe(cx, tier)
    ensures var row := LiteralRow(cx.ts, tierText);
            && Writable(cx, row) && ImagePlace(cx, row) == Some(InDelta) && Image(cx, row).tier == tier
            && Deletable(cx, row) && RowPlace(cx, row) == Some(InDelta)
            && ImageKey(cx, row) != RowKey(cx, row)
  {
    JsonKeyWitness(cx.ts, c, tierText);
    LiteralTier(cx.ts, tierText);
  }

  /** Under a json key column a tiered table accepts the insert of this cold row and
      then its removal by its own routing key, and goes on showing the row. */
  lemma JsonKeyMissesItsRow(cx: Ctx, s: Store, c: string, tierText: string, tier: int)
    requires DistinctNames(cx.ts.columns) && ParsesLiteral(cx.ts) && KeysAreColumns(cx.ts) && Runnable(cx)
    requires c in cx.ts.pkCols && JsonColumn(cx.ts.columns, c) && !JsonColumn(cx.ts.columns, cx.ts.tierCol)
    requires cx.ts.encodeText(tierText) == Some(tier)
    requires cx.mode.Tiered? && RouteTo(cx, tier).Cold? && Safe(cx, tier)
    ensures var row := LiteralRow(cx.ts, tierText);
            && Accepted(cx, s.t, Insert([row]))
            && var put := Landed(s, Chunk(cx, s.t, Insert([row])));
            && Accepted(cx, put.t, Delete([row]))
            && var after := Landed(put, Chunk(cx, put.t, Delete([row])));
            && ImageKey(cx, row) in ColdRows(Tiered, after, cx.cut)
            && ColdRows(Tiered, after, cx.cut)[ImageKey(cx, row)] == Image(cx, row)
  {
    var row := LiteralRow(cx.ts, tierText);
    LiteralReads(cx, c, tierText, tier);
    ColdIsFresh(cx, [row], s.t.heap.Keys);
    AcceptedIffFits(cx, s.t, Insert([row]));
    InsertLands(cx, s, [row]);
    var put := Wrote(cx, s, [row]);
    AcceptedIffFits(cx, put.t, Delete([row]));
    DeleteLands(cx, put, [row]);
    OneRowSides(cx, row);
    WroteSides(cx, s, [row]);
    DeletedSides(cx, put, [row]);
  }

  lemma OneRowSides(cx: Ctx, row: Json)
    requires cx.mode.Tiered? && ImagePlace(cx, row) == RowPlace(cx, row) == Some(InDelta)
    ensures Images(cx, [row], Cold) == map[ImageKey(cx, row) := Image(cx, row)]
    ensures Requested(cx, [row], Cold) == {RowKey(cx, row)}
  {
    assert Written(cx, [row][1..], InDelta) == map[] && Removed(cx, [row][1..], InDelta) == {};
  }
}
