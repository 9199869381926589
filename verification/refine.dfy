/**
 Every accepted chunk has the effect of the obvious operation on one keyed table.
 `Landed` is the store once the chunk's lake statements have run.
 */
module Refinement {
  import opened Wrappers
  import opened Rows
  import opened Core
  import opened Dml
  import opened Exact
  import opened TieredStore

  function Landed(s: Store, r: LegResult): Store
    requires r.lake.Ok?
  {
    Store(r.t, ApplyAll(s.lake, r.lake.value))
  }

  function LakeMinus(lake: map<Key, Row>, keys: set<Key>, cut: Option<int>): map<Key, Row> {
    map k | k in lake && !(k in keys && Route(lake[k].tier, cut).Cold?) :: lake[k]
  }

  function Deleted(cx: Ctx, s: Store, rows: seq<Json>): Store {
    Store(AfterDelete(cx, s.t, rows), LakeMinus(s.lake, Removed(cx, rows, InLake), cx.cut))
  }

  function Wrote(cx: Ctx, s: Store, rows: seq<Json>): Store {
    Store(AfterWrite(cx, s.t, rows), s.lake + Written(cx, rows, InLake))
  }

  lemma DeleteLegLands(cx: Ctx, s: Store, ran: nat, rows: seq<Json>)
    requires DeleteLeg(cx, s.t, ran, rows).lake.Ok?
    ensures Landed(s, DeleteLeg(cx, s.t, ran, rows)) == Deleted(cx, s, rows)
  {
    var o := DeleteFold(cx, Start(s.t, ran), rows);
    DeleteFoldExact(cx, Start(s.t, ran), rows);
    BatchKeys(cx, rows);
    assert o.work.batch == LakeKeys(cx, rows);
    var stmt := DeleteKeys(o.work.batch, cx.cut);
    assert ApplyAll(s.lake, [stmt]) == ApplyStmt(s.lake, stmt);
    assert ApplyStmt(s.lake, stmt) == LakeMinus(s.lake, Removed(cx, rows, InLake), cx.cut) by {
      assert forall k :: k in LakeKeys(cx, rows) <==> k in Removed(cx, rows, InLake);
    }
    if o.work.batch == [] {
      assert ApplyStmt(s.lake, stmt) == s.lake;
    }
  }

  lemma OneUpsert(lake: map<Key, Row>, rows: seq<(Key, Row)>)
    ensures ApplyAll(lake, [UpsertRows(rows)]) == lake + MapOf(rows)
    ensures lake + MapOf([]) == lake
  {
    assert [UpsertRows(rows)][1..] == [];
    assert ApplyAll(lake + MapOf(rows), []) == lake + MapOf(rows);
  }

  lemma WriteLegLands(cx: Ctx, s: Store, ran: nat, rows: seq<Json>)
    requires WriteLeg(cx, s.t, ran, rows).lake.Ok?
    ensures Landed(s, WriteLeg(cx, s.t, ran, rows)) == Wrote(cx, s, rows)
  {
    WriteFoldExact(cx, Start(s.t, ran), rows);
    BatchRows(cx, rows);
    OneUpsert(s.lake, LakeRows(cx, rows));
    assert WriteFold(cx, Start(s.t, ran), rows).work.batch == LakeRows(cx, rows);
  }

  /** All removals of an update take effect before any of its writes, in the heap,
      the delta and the lake alike. */
  lemma UpdateLands(cx: Ctx, s: Store, olds: seq<Json>, news: seq<Json>)
    requires UpdateLegs(cx, s.t, olds, news).lake.Ok?
    ensures Landed(s, UpdateLegs(cx, s.t, olds, news)) == Wrote(cx, Deleted(cx, s, olds), news)
  {
    var d := DeleteLeg(cx, s.t, 0, olds);
    var w := WriteLeg(cx, d.t, d.ran, news);
    DeleteLegLands(cx, s, 0, olds);
    WriteLegLands(cx, Landed(s, d), d.ran, news);
    ApplyAllConcat(s.lake, d.lake.value, w.lake.value);
  }

  // ---------- the two sides of the seam ----------

  function Requested(cx: Ctx, rows: seq<Json>, target: Core.Target): set<Key> {
    Removed(cx, rows, PlaceOf(cx.mode, target))
  }

  function Images(cx: Ctx, rows: seq<Json>, target: Core.Target): map<Key, Row> {
    Written(cx, rows, PlaceOf(cx.mode, target))
  }

  lemma {:induction false} NothingElsewhere(cx: Ctx, rows: seq<Json>, place: Place)
    requires place != PlaceOf(cx.mode, Hot) && place != PlaceOf(cx.mode, Cold)
    ensures Removed(cx, rows, place) == {} && Written(cx, rows, place) == map[]
    decreases |rows|
  {
    if rows != [] {
      NothingElsewhere(cx, rows[1..], place);
    }
  }

  // Rows and keys of one side, as plain maps.
  lemma HeapSides(heap: map<Key, Row>, keys: set<Key>, rows: map<Key, Row>, cut: Option<int>)
    requires forall k <- rows :: Route(rows[k].tier, cut).Hot?
    ensures OnSide(HeapMinus(heap, keys, true, cut), cut, Hot) == OnSide(heap, cut, Hot) - keys
    ensures OnSide(heap + rows, cut, Hot) == OnSide(heap, cut, Hot) + rows
  {
  }

  lemma LakeSides(lake: map<Key, Row>, keys: set<Key>, cut: Option<int>)
    ensures OnSide(LakeMinus(lake, keys, cut), cut, Cold) == OnSide(lake, cut, Cold) - keys
    ensures LakeMinus(lake, {}, cut) == lake
  {
  }

  function Overlaid(lake: map<Key, Row>, delta: map<Key, DeltaEntry>): map<Key, Row> {
    (lake - delta.Keys) + Visible(delta)
  }

  lemma OverlaidSide(s: Store, cut: Option<int>)
    ensures ColdRows(Tiered, s, cut) == OnSide(Overlaid(s.lake, s.t.delta), cut, Cold)
  {
  }

  lemma TombstonesHide(lake: map<Key, Row>, delta: map<Key, DeltaEntry>, tombs: map<Key, DeltaEntry>)
    requires forall e <- tombs.Values :: e.op.Tombstone?
    ensures Overlaid(lake, delta + tombs) == Overlaid(lake, delta) - tombs.Keys
  {
    forall k | k in tombs ensures tombs[k].op.Tombstone? {
      assert tombs[k] in tombs.Values;
    }
  }

  lemma UpsertsShow(lake: map<Key, Row>, delta: map<Key, DeltaEntry>, rows: map<Key, Row>)
    ensures Overlaid(lake, delta + Upserts(rows)) == Overlaid(lake, delta) + rows
  {
    assert Upserts(rows).Keys == rows.Keys;
  }

  lemma DeletedColdTiered(cx: Ctx, s: Store, rows: seq<Json>)
    requires cx.mode.Tiered?
    ensures ColdRows(Tiered, Deleted(cx, s, rows), cx.cut) == ColdRows(Tiered, s, cx.cut) - Requested(cx, rows, Cold)
  {
    var after := Deleted(cx, s, rows);
    BatchKeys(cx, rows);
    NothingElsewhere(cx, rows, InLake);
    LakeSides(s.lake, {}, cx.cut);
    assert after.lake == s.lake && after.t.delta == s.t.delta + Tombstones(cx, rows);
    TombstonesHide(s.lake, s.t.delta, Tombstones(cx, rows));
    OverlaidSide(s, cx.cut);
    OverlaidSide(after, cx.cut);
    OverlaidMinus(Overlaid(s.lake, s.t.delta), Requested(cx, rows, Cold), cx.cut);
  }

  lemma DeletedSides(cx: Ctx, s: Store, rows: seq<Json>)
    requires !cx.mode.Mirrored?
    ensures HotLeg(Deleted(cx, s, rows), cx.cut) == HotLeg(s, cx.cut) - Requested(cx, rows, Hot)
    ensures ColdRows(cx.mode, Deleted(cx, s, rows), cx.cut) == ColdRows(cx.mode, s, cx.cut) - Requested(cx, rows, Cold)
  {
    if cx.mode.Tiered? {
      DeletedColdTiered(cx, s, rows);
    } else {
      LakeSides(s.lake, Requested(cx, rows, Cold), cx.cut);
    }
    HeapSides(s.t.heap, Requested(cx, rows, Hot), map[], cx.cut);
  }

  lemma OverlaidMinus(rows: map<Key, Row>, keys: set<Key>, cut: Option<int>)
    ensures OnSide(rows - keys, cut, Cold) == OnSide(rows, cut, Cold) - keys
  {
  }

  lemma WroteColdTiered(cx: Ctx, s: Store, rows: seq<Json>)
    requires cx.mode.Tiered?
    ensures ColdRows(Tiered, Wrote(cx, s, rows), cx.cut) == ColdRows(Tiered, s, cx.cut) + Images(cx, rows, Cold)
  {
    var cold, after := Images(cx, rows, Cold), Wrote(cx, s, rows);
    WrittenSide(cx, rows, InDelta);
    NothingElsewhere(cx, rows, InLake);
    assert after.lake == s.lake + map[] == s.lake;
    assert after.t.delta == s.t.delta + Upserts(cold);
    UpsertsShow(s.lake, s.t.delta, cold);
    OverlaidSide(s, cx.cut);
    OverlaidSide(after, cx.cut);
    OverlaidPlus(Overlaid(s.lake, s.t.delta), cold, cx.cut);
  }

  lemma OverlaidPlus(rows: map<Key, Row>, more: map<Key, Row>, cut: Option<int>)
    requires forall k <- more :: Route(more[k].tier, cut).Cold?
    ensures OnSide(rows + more, cut, Cold) == OnSide(rows, cut, Cold) + more
  {
  }

  lemma WroteColdDirect(cx: Ctx, s: Store, rows: seq<Json>)
    requires cx.mode.Direct?
    ensures ColdRows(Direct, Wrote(cx, s, rows), cx.cut) == ColdRows(Direct, s, cx.cut) + Images(cx, rows, Cold)
  {
    WrittenSide(cx, rows, InLake);
    OverlaidPlus(s.lake, Images(cx, rows, Cold), cx.cut);
  }

  lemma WroteSides(cx: Ctx, s: Store, rows: seq<Json>)
    requires !cx.mode.Mirrored?
    ensures HotLeg(Wrote(cx, s, rows), cx.cut) == HotLeg(s, cx.cut) + Images(cx, rows, Hot)
    ensures ColdRows(cx.mode, Wrote(cx, s, rows), cx.cut) == ColdRows(cx.mode, s, cx.cut) + Images(cx, rows, Cold)
  {
    if cx.mode.Tiered? {
      WroteColdTiered(cx, s, rows);
    } else {
      WroteColdDirect(cx, s, rows);
    }
    WrittenSide(cx, rows, InHeap);
    HeapSides(s.t.heap, {}, Images(cx, rows, Hot), cx.cut);
  }
}
