/**
 The main results about one chunk, stated on the merged view: insert, delete and
 update as operations of a single keyed table, and exactly when the read stays
 free of duplicates.
 */
module Relational {
  import opened Wrappers
  import opened Rows
  import opened Core
  import opened Dml
  import opened Exact
  import opened TieredStore
  import opened Refinement

  // ---------- vocabulary ----------

  function OldKeys(cx: Ctx, rows: seq<Json>): set<Key> {
    set row | row in rows :: RowKey(cx, row)
  }

  // The new images of a chunk as one relation.
  function NewRows(cx: Ctx, rows: seq<Json>): map<Key, Row> {
    if rows == [] then map[] else map[ImageKey(cx, rows[0]) := Image(cx, rows[0])] + NewRows(cx, rows[1..])
  }

  predicate DistinctNew(cx: Ctx, rows: seq<Json>) {
    forall i, j :: 0 <= i < j < |rows| ==> ImageKey(cx, rows[i]) != ImageKey(cx, rows[j])
  }

  // A routing key taken from the view.
  predicate Live(cx: Ctx, s: Store, row: Json) {
    var view := View(cx.mode, s, cx.cut);
    RowKey(cx, row) in view && ReadTier(cx.ts, row) == Ok(view[RowKey(cx, row)].tier)
  }

  // ---------- rows of an accepted chunk ----------

  lemma {:induction false} AcceptedDeletes(cx: Ctx, w: Work<Key>, rows: seq<Json>)
    requires DeleteFold(cx, w, rows).err.None?
    ensures forall row <- rows :: Deletable(cx, row)
    decreases |rows|
  {
    if rows != [] {
      AcceptedDeletes(cx, DeleteRow(cx, w, rows[0]).work, rows[1..]);
      assert rows == [rows[0]] + rows[1..];
    }
  }

  lemma {:induction false} AcceptedWrites(cx: Ctx, w: Work<(Key, Row)>, rows: seq<Json>)
    requires WriteFold(cx, w, rows).err.None?
    ensures forall raw <- rows :: Writable(cx, raw)
    decreases |rows|
  {
    if rows != [] {
      AcceptedWrites(cx, WriteRow(cx, w, rows[0]).work, rows[1..]);
      assert rows == [rows[0]] + rows[1..];
    }
  }

  lemma {:induction false} RemovedIn(cx: Ctx, rows: seq<Json>, place: Place, k: Key)
    ensures k in Removed(cx, rows, place) <==>
            exists row <- rows :: RowPlace(cx, row) == Some(place) && RowKey(cx, row) == k
    decreases |rows|
  {
    if rows != [] {
      RemovedIn(cx, rows[1..], place, k);
      assert rows == [rows[0]] + rows[1..];
    }
  }

  lemma {:induction false} WrittenIn(cx: Ctx, rows: seq<Json>, place: Place, k: Key)
    ensures k in Written(cx, rows, place) <==>
            exists raw <- rows :: ImagePlace(cx, raw) == Some(place) && ImageKey(cx, raw) == k
    ensures k in Written(cx, rows, place) ==>
            exists raw <- rows :: ImagePlace(cx, raw) == Some(place) && ImageKey(cx, raw) == k
                                  && Written(cx, rows, place)[k] == Image(cx, raw)
    decreases |rows|
  {
    if rows != [] {
      WrittenIn(cx, rows[1..], place, k);
      assert rows == [rows[0]] + rows[1..];
    }
  }

  lemma DistinctTail(cx: Ctx, rows: seq<Json>, place: Place)
    requires rows != [] && DistinctNew(cx, rows)
    ensures DistinctNew(cx, rows[1..]) && ImageKey(cx, rows[0]) !in Written(cx, rows[1..], place)
  {
    var rest := rows[1..];
    forall i, j | 0 <= i < j < |rest| ensures ImageKey(cx, rest[i]) != ImageKey(cx, rest[j]) {
      assert rest[i] == rows[i + 1] && rest[j] == rows[j + 1];
    }
    WrittenIn(cx, rest, place, ImageKey(cx, rows[0]));
  }

  // With distinct keys the two sides of a chunk make up its relation.
  lemma {:induction false} SidesOfNewRows(cx: Ctx, rows: seq<Json>)
    requires forall raw <- rows :: ImagePlace(cx, raw).Some?
    requires DistinctNew(cx, rows)
    ensures Images(cx, rows, Hot) + Images(cx, rows, Cold) == NewRows(cx, rows)
    ensures !cx.mode.Mirrored? ==> Images(cx, rows, Hot).Keys !! Images(cx, rows, Cold).Keys
    decreases |rows|
  {
    if rows != [] {
      var rest := rows[1..];
      DistinctTail(cx, rows, PlaceOf(cx.mode, Hot));
      DistinctTail(cx, rows, PlaceOf(cx.mode, Cold));
      SidesOfNewRows(cx, rest);
      JoinSides(WrittenOne(cx, rows[0], PlaceOf(cx.mode, Hot)), WrittenOne(cx, rows[0], PlaceOf(cx.mode, Cold)),
                Images(cx, rest, Hot), Images(cx, rest, Cold), map[ImageKey(cx, rows[0]) := Image(cx, rows[0])]);
    }
  }

  lemma JoinSides(a: map<Key, Row>, b: map<Key, Row>, hot: map<Key, Row>, cold: map<Key, Row>, one: map<Key, Row>)
    requires a == one || a == map[]
    requires b == one || b == map[]
    requires a == one || b == one
    requires one.Keys !! hot.Keys && one.Keys !! cold.Keys
    ensures (a + hot) + (b + cold) == one + (hot + cold)
    ensures a.Keys !! b.Keys && hot.Keys !! cold.Keys ==> (a + hot).Keys !! (b + cold).Keys
  {
  }

  // ---------- duplicates: exactly when ----------

  // No new image meets, on the other side of the seam, a row that stays or
  // another image of the chunk.
  predicate NoCrossing(cx: Ctx, s: Store, olds: seq<Json>, news: seq<Json>) {
    && Images(cx, news, Hot).Keys !! ColdRows(cx.mode, s, cx.cut).Keys - Requested(cx, olds, Cold)
    && Images(cx, news, Cold).Keys !! HotLeg(s, cx.cut).Keys - Requested(cx, olds, Hot)
    && Images(cx, news, Hot).Keys !! Images(cx, news, Cold).Keys
  }

  predicate NothingCrosses(cx: Ctx, s: Store, news: seq<Json>) {
    && Images(cx, news, Hot).Keys !! ColdRows(cx.mode, s, cx.cut).Keys
    && Images(cx, news, Cold).Keys !! HotLeg(s, cx.cut).Keys
    && Images(cx, news, Hot).Keys !! Images(cx, news, Cold).Keys
  }

  // What the removals of a chunk take out of the view: a request only hits a
  // row on the side of the seam it was routed to.
  function Hit(cx: Ctx, s: Store, olds: seq<Json>): set<Key> {
    HotLeg(s, cx.cut).Keys * Requested(cx, olds, Hot) + ColdRows(cx.mode, s, cx.cut).Keys * Requested(cx, olds, Cold)
  }

  lemma SidesAlgebra(hot: map<Key, Row>, cold: map<Key, Row>, h: set<Key>, c: set<Key>,
                     nh: map<Key, Row>, nc: map<Key, Row>)
    requires hot.Keys !! cold.Keys
    ensures ((hot - h) + nh).Keys !! ((cold - c) + nc).Keys <==>
            nh.Keys !! cold.Keys - c && nc.Keys !! hot.Keys - h && nh.Keys !! nc.Keys
    ensures nh.Keys !! cold.Keys - c ==>
            ((hot - h) + nh) + ((cold - c) + nc) == ((hot + cold) - (hot.Keys * h + cold.Keys * c)) + (nh + nc)
  {
    assert ((hot - h) + nh).Keys == (hot.Keys - h) + nh.Keys;
    assert ((cold - c) + nc).Keys == (cold.Keys - c) + nc.Keys;
  }

  lemma SidesPlus(hot: map<Key, Row>, cold: map<Key, Row>, nh: map<Key, Row>, nc: map<Key, Row>)
    requires hot.Keys !! cold.Keys
    ensures (hot + nh).Keys !! (cold + nc).Keys <==> nh.Keys !! cold.Keys && nc.Keys !! hot.Keys && nh.Keys !! nc.Keys
    ensures nh.Keys !! cold.Keys ==> (hot + nh) + (cold + nc) == (hot + cold) + (nh + nc)
  {
    assert (hot + nh).Keys == hot.Keys + nh.Keys && (cold + nc).Keys == cold.Keys + nc.Keys;
  }

  lemma SidesMinus(hot: map<Key, Row>, cold: map<Key, Row>, h: set<Key>, c: set<Key>)
    requires hot.Keys !! cold.Keys
    ensures (hot - h).Keys !! (cold - c).Keys
    ensures (hot - h) + (cold - c) == (hot + cold) - (hot.Keys * h + cold.Keys * c)
  {
  }

  /** Any accepted pair of removals and writes on a well-placed store: the read
      stays free of duplicates if and only if no image crosses the seam, and then
      the view loses exactly the rows hit and gains exactly the images. */
  lemma LegsExact(cx: Ctx, s: Store, olds: seq<Json>, news: seq<Json>)
    requires !cx.mode.Mirrored? && Placed(cx.mode, s, cx.cut)
    ensures var after := Wrote(cx, Deleted(cx, s, olds), news);
            && (Placed(cx.mode, after, cx.cut) <==> NoCrossing(cx, s, olds, news))
            && (NoCrossing(cx, s, olds, news) ==>
                  View(cx.mode, after, cx.cut) ==
                  (View(cx.mode, s, cx.cut) - Hit(cx, s, olds)) + (Images(cx, news, Hot) + Images(cx, news, Cold)))
  {
    DeletedSides(cx, s, olds);
    WroteSides(cx, Deleted(cx, s, olds), news);
    SidesAlgebra(HotLeg(s, cx.cut), ColdRows(cx.mode, s, cx.cut), Requested(cx, olds, Hot), Requested(cx, olds, Cold),
                 Images(cx, news, Hot), Images(cx, news, Cold));
  }

  lemma UpdateExact(cx: Ctx, s: Store, pairs: seq<Json>)
    requires !cx.mode.Mirrored? && Placed(cx.mode, s, cx.cut)
    requires Chunk(cx, s.t, Update(pairs)).lake.Ok?
    ensures SplitPairs(pairs).Ok?
    ensures var (olds, news) := SplitPairs(pairs).value;
            var after := Landed(s, Chunk(cx, s.t, Update(pairs)));
            && (KeyUnique(MergedRead(cx.mode, after, cx.cut)) <==> NoCrossing(cx, s, olds, news))
            && (NoCrossing(cx, s, olds, news) ==>
                  View(cx.mode, after, cx.cut) ==
                  (View(cx.mode, s, cx.cut) - Hit(cx, s, olds)) + (Images(cx, news, Hot) + Images(cx, news, Cold)))
  {
    var (olds, news) := SplitPairs(pairs).value;
    UpdateLands(cx, s, olds, news);
    LegsExact(cx, s, olds, news);
    ReadIsViewIffPlaced(cx.mode, Landed(s, Chunk(cx, s.t, Update(pairs))), cx.cut);
  }

  // ---------- the relational reading ----------

  lemma LiveHits(cx: Ctx, s: Store, olds: seq<Json>)
    requires !cx.mode.Mirrored? && Placed(cx.mode, s, cx.cut)
    requires forall row <- olds :: Live(cx, s, row)
    ensures Hit(cx, s, olds) == OldKeys(cx, olds)
    ensures HotLeg(s, cx.cut).Keys - Requested(cx, olds, Hot) == HotLeg(s, cx.cut).Keys - OldKeys(cx, olds)
    ensures ColdRows(cx.mode, s, cx.cut).Keys - Requested(cx, olds, Cold) ==
            ColdRows(cx.mode, s, cx.cut).Keys - OldKeys(cx, olds)
  {
    var hot, cold := HotLeg(s, cx.cut), ColdRows(cx.mode, s, cx.cut);
    forall k
      ensures k in OldKeys(cx, olds) && k in hot ==> k in Requested(cx, olds, Hot)
      ensures k in OldKeys(cx, olds) && k in cold ==> k in Requested(cx, olds, Cold)
      ensures k in Requested(cx, olds, Hot) || k in Requested(cx, olds, Cold) ==> k in OldKeys(cx, olds)
    {
      RemovedIn(cx, olds, PlaceOf(cx.mode, Hot), k);
      RemovedIn(cx, olds, PlaceOf(cx.mode, Cold), k);
    }
    assert forall k <- OldKeys(cx, olds) :: k in hot || k in cold;
  }

  lemma UntouchedNotMet(cx: Ctx, s: Store, olds: seq<Json>, news: seq<Json>)
    requires forall raw <- news :: ImageKey(cx, raw) in View(cx.mode, s, cx.cut) ==>
               ImageKey(cx, raw) in OldKeys(cx, olds)
    ensures forall k :: k in Images(cx, news, Hot) || k in Images(cx, news, Cold) ==>
                        k !in View(cx.mode, s, cx.cut) || k in OldKeys(cx, olds)
  {
    forall k | k in Images(cx, news, Hot) || k in Images(cx, news, Cold)
      ensures k !in View(cx.mode, s, cx.cut) || k in OldKeys(cx, olds)
    {
      WrittenIn(cx, news, PlaceOf(cx.mode, Hot), k);
      WrittenIn(cx, news, PlaceOf(cx.mode, Cold), k);
    }
  }

  /** UPDATE.  Old keys taken from the view, distinct new keys, and no new key
      equal to an untouched live key: the view loses the old keys and gains the
      new images, simultaneously, wherever the rows lie before and after. */
  lemma UpdateRefines(cx: Ctx, s: Store, pairs: seq<Json>)
    requires !cx.mode.Mirrored? && Placed(cx.mode, s, cx.cut)
    requires Chunk(cx, s.t, Update(pairs)).lake.Ok?
    requires var (olds, news) := SplitPairs(pairs).value;
             && (forall row <- olds :: Live(cx, s, row))
             && DistinctNew(cx, news)
             && (forall raw <- news :: ImageKey(cx, raw) in View(cx.mode, s, cx.cut) ==>
                 ImageKey(cx, raw) in OldKeys(cx, olds))
    ensures var (olds, news) := SplitPairs(pairs).value;
            var after := Landed(s, Chunk(cx, s.t, Update(pairs)));
            && Placed(cx.mode, after, cx.cut)
            && View(cx.mode, after, cx.cut) == (View(cx.mode, s, cx.cut) - OldKeys(cx, olds)) + NewRows(cx, news)
  {
    var (olds, news) := SplitPairs(pairs).value;
    AcceptedWrites(cx, Start(DeleteLeg(cx, s.t, 0, olds).t, DeleteLeg(cx, s.t, 0, olds).ran), news);
    SidesOfNewRows(cx, news);
    LiveHits(cx, s, olds);
    UntouchedNotMet(cx, s, olds, news);
    UpdateLands(cx, s, olds, news);
    LegsExact(cx, s, olds, news);
  }

  // The key is live on the other side of the seam.
  predicate OtherSide(cx: Ctx, s: Store, raw: Json) {
    var view := View(cx.mode, s, cx.cut);
    ImageKey(cx, raw) in view && Route(view[ImageKey(cx, raw)].tier, cx.cut) != Route(Image(cx, raw).tier, cx.cut)
  }

  predicate SameSide(cx: Ctx, s: Store, rows: seq<Json>) {
    forall raw <- rows :: !OtherSide(cx, s, raw)
  }

  lemma ImagesBySide(cx: Ctx, rows: seq<Json>, k: Key)
    requires !cx.mode.Mirrored?
    requires forall raw <- rows :: ImagePlace(cx, raw).Some?
    ensures k in Images(cx, rows, Hot) <==>
            exists raw <- rows :: ImageKey(cx, raw) == k && Route(Image(cx, raw).tier, cx.cut).Hot?
    ensures k in Images(cx, rows, Cold) <==>
            exists raw <- rows :: ImageKey(cx, raw) == k && Route(Image(cx, raw).tier, cx.cut).Cold?
  {
    WrittenIn(cx, rows, PlaceOf(cx.mode, Hot), k);
    WrittenIn(cx, rows, PlaceOf(cx.mode, Cold), k);
  }

  lemma SameSideIsNothingCrosses(cx: Ctx, s: Store, rows: seq<Json>)
    requires !cx.mode.Mirrored? && Placed(cx.mode, s, cx.cut)
    requires forall raw <- rows :: ImagePlace(cx, raw).Some?
    requires DistinctNew(cx, rows)
    ensures NothingCrosses(cx, s, rows) <==> SameSide(cx, s, rows)
  {
    SidesOfNewRows(cx, rows);
    if SameSide(cx, s, rows) {
      SameSideCrossesNothing(cx, s, rows);
    } else {
      var raw :| raw in rows && OtherSide(cx, s, raw);
      OtherSideCrosses(cx, s, rows, raw);
    }
  }

  lemma OtherSideCrosses(cx: Ctx, s: Store, rows: seq<Json>, raw: Json)
    requires !cx.mode.Mirrored? && raw in rows && OtherSide(cx, s, raw)
    requires forall r <- rows :: ImagePlace(cx, r).Some?
    ensures !NothingCrosses(cx, s, rows)
  {
    var k := ImageKey(cx, raw);
    ImagesBySide(cx, rows, k);
    if Route(Image(cx, raw).tier, cx.cut).Hot? {
      assert k in Images(cx, rows, Hot) && k in ColdRows(cx.mode, s, cx.cut);
    } else {
      assert k in Images(cx, rows, Cold) && k in HotLeg(s, cx.cut);
    }
  }

  lemma SameSideCrossesNothing(cx: Ctx, s: Store, rows: seq<Json>)
    requires !cx.mode.Mirrored? && Placed(cx.mode, s, cx.cut)
    requires forall raw <- rows :: ImagePlace(cx, raw).Some?
    requires SameSide(cx, s, rows)
    ensures Images(cx, rows, Hot).Keys !! ColdRows(cx.mode, s, cx.cut).Keys
    ensures Images(cx, rows, Cold).Keys !! HotLeg(s, cx.cut).Keys
  {
    forall k
      ensures k in Images(cx, rows, Hot) ==> k !in ColdRows(cx.mode, s, cx.cut)
      ensures k in Images(cx, rows, Cold) ==> k !in HotLeg(s, cx.cut)
    {
      ImagesBySide(cx, rows, k);
    }
  }

  /** INSERT.  The read stays free of duplicates exactly when nothing crosses the
      seam, and then the view gains the images.  For distinct keys that means: no
      key is live on the other side, and the view gains the rows. */
  lemma InsertRefines(cx: Ctx, s: Store, rows: seq<Json>)
    requires !cx.mode.Mirrored? && Placed(cx.mode, s, cx.cut)
    requires Chunk(cx, s.t, Insert(rows)).lake.Ok?
    ensures var after := Landed(s, Chunk(cx, s.t, Insert(rows)));
            && (Placed(cx.mode, after, cx.cut) <==> NothingCrosses(cx, s, rows))
            && (NothingCrosses(cx, s, rows) ==>
                  View(cx.mode, after, cx.cut) ==
                  View(cx.mode, s, cx.cut) + (Images(cx, rows, Hot) + Images(cx, rows, Cold)))
    ensures DistinctNew(cx, rows) ==>
              && (NothingCrosses(cx, s, rows) <==> SameSide(cx, s, rows))
              && Images(cx, rows, Hot) + Images(cx, rows, Cold) == NewRows(cx, rows)
  {
    InsertLands(cx, s, rows);
    WroteExact(cx, s, rows);
    if DistinctNew(cx, rows) {
      SidesOfNewRows(cx, rows);
      SameSideIsNothingCrosses(cx, s, rows);
    }
  }

  lemma WroteExact(cx: Ctx, s: Store, rows: seq<Json>)
    requires !cx.mode.Mirrored? && Placed(cx.mode, s, cx.cut)
    ensures Placed(cx.mode, Wrote(cx, s, rows), cx.cut) <==> NothingCrosses(cx, s, rows)
    ensures NothingCrosses(cx, s, rows) ==>
            View(cx.mode, Wrote(cx, s, rows), cx.cut) ==
            View(cx.mode, s, cx.cut) + (Images(cx, rows, Hot) + Images(cx, rows, Cold))
  {
    WroteSides(cx, s, rows);
    SidesPlus(HotLeg(s, cx.cut), ColdRows(cx.mode, s, cx.cut), Images(cx, rows, Hot), Images(cx, rows, Cold));
  }

  lemma InsertLands(cx: Ctx, s: Store, rows: seq<Json>)
    requires Chunk(cx, s.t, Insert(rows)).lake.Ok?
    ensures Landed(s, Chunk(cx, s.t, Insert(rows))) == Wrote(cx, s, rows)
    ensures forall raw <- rows :: ImagePlace(cx, raw).Some?
  {
    AcceptedWrites(cx, Start(s.t, 0), rows);
    WriteLegLands(cx, s, 0, rows);
  }

  lemma DeleteLands(cx: Ctx, s: Store, keys: seq<Json>)
    requires Chunk(cx, s.t, Delete(keys)).lake.Ok?
    ensures Landed(s, Chunk(cx, s.t, Delete(keys))) == Deleted(cx, s, keys)
  {
    DeleteLegLands(cx, s, 0, keys);
  }

  /** The floor: a heap row that has gone below T survives any delete of its key. */
  lemma DeleteSparesStaleRows(cx: Ctx, s: Store, keys: seq<Json>, k: Key)
    requires !cx.mode.Mirrored?
    requires Chunk(cx, s.t, Delete(keys)).lake.Ok?
    requires k in s.t.heap && Route(s.t.heap[k].tier, cx.cut).Cold?
    ensures var after := Chunk(cx, s.t, Delete(keys)).t; k in after.heap && after.heap[k] == s.t.heap[k]
  {
    DeleteLegLands(cx, s, 0, keys);
  }

  /** DELETE.  For any request whatsoever the view loses exactly the rows hit, and
      live routing keys always hit. */
  lemma DeleteRefines(cx: Ctx, s: Store, keys: seq<Json>)
    requires !cx.mode.Mirrored? && Placed(cx.mode, s, cx.cut)
    requires Chunk(cx, s.t, Delete(keys)).lake.Ok?
    ensures var after := Landed(s, Chunk(cx, s.t, Delete(keys)));
            && Placed(cx.mode, after, cx.cut)
            && View(cx.mode, after, cx.cut) == View(cx.mode, s, cx.cut) - Hit(cx, s, keys)
            && ((forall row <- keys :: Live(cx, s, row)) ==>
                  View(cx.mode, after, cx.cut) == View(cx.mode, s, cx.cut) - OldKeys(cx, keys))
  {
    DeleteLands(cx, s, keys);
    DeletedSides(cx, s, keys);
    SidesMinus(HotLeg(s, cx.cut), ColdRows(cx.mode, s, cx.cut), Requested(cx, keys, Hot), Requested(cx, keys, Cold));
    if forall row <- keys :: Live(cx, s, row) {
      LiveHits(cx, s, keys);
    }
  }

  lemma WriteNothing(cx: Ctx, s: Store)
    ensures Wrote(cx, s, []) == s
  {
    assert s.t.delta + Upserts(map[]) == s.t.delta;
    assert s.t.heap + map[] == s.t.heap && s.lake + map[] == s.lake;
  }

  /** A mirrored table lives in its heap: an accepted update takes the old keys out
      and puts the new images in, and touches neither delta nor lake. */
  lemma MirroredUpdateRefines(cx: Ctx, s: Store, pairs: seq<Json>)
    requires cx.mode.Mirrored?
    requires Chunk(cx, s.t, Update(pairs)).lake.Ok?
    requires DistinctNew(cx, SplitPairs(pairs).value.1)
    ensures var (olds, news) := SplitPairs(pairs).value;
            var after := Landed(s, Chunk(cx, s.t, Update(pairs)));
            after.t.heap == (s.t.heap - OldKeys(cx, olds)) + NewRows(cx, news)
            && after.t.delta == s.t.delta && after.lake == s.lake
  {
    var (olds, news) := SplitPairs(pairs).value;
    UpdateLands(cx, s, olds, news);
    AcceptedDeletes(cx, Start(s.t, 0), olds);
    var d := DeleteLeg(cx, s.t, 0, olds);
    AcceptedWrites(cx, Start(d.t, d.ran), news);
    MirroredDeleted(cx, s, olds);
    MirroredWrote(cx, Deleted(cx, s, olds), news);
  }

  lemma MirroredDeleted(cx: Ctx, s: Store, olds: seq<Json>)
    requires cx.mode.Mirrored?
    requires forall row <- olds :: RowPlace(cx, row).Some?
    ensures Deleted(cx, s, olds) == s.(t := s.t.(heap := s.t.heap - OldKeys(cx, olds)))
  {
    BatchKeys(cx, olds);
    NothingElsewhere(cx, olds, InDelta);
    NothingElsewhere(cx, olds, InLake);
    LakeSides(s.lake, {}, cx.cut);
    forall k ensures k in Removed(cx, olds, InHeap) <==> k in OldKeys(cx, olds) {
      RemovedIn(cx, olds, InHeap, k);
    }
    assert HeapMinus(s.t.heap, Removed(cx, olds, InHeap), false, cx.cut) == s.t.heap - OldKeys(cx, olds);
    assert Tombstones(cx, olds) == map[];
  }

  lemma MirroredWrote(cx: Ctx, s: Store, news: seq<Json>)
    requires cx.mode.Mirrored?
    requires forall raw <- news :: ImagePlace(cx, raw).Some?
    requires DistinctNew(cx, news)
    ensures Wrote(cx, s, news) == s.(t := s.t.(heap := s.t.heap + NewRows(cx, news)))
  {
    NothingElsewhere(cx, news, InDelta);
    NothingElsewhere(cx, news, InLake);
    SidesOfNewRows(cx, news);
    assert Images(cx, news, Hot) + Images(cx, news, Cold) == Written(cx, news, InHeap);
    WriteNothing(cx, s);
  }
}
