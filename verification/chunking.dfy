/**
 An UPDATE whose chunks all read the same T, against the same update in one chunk:
 acceptance and result differ exactly when a row is handed over.
 */
module Chunking {
  import opened Wrappers
  import opened Rows
  import opened Core
  import opened Dml
  import opened Exact
  import opened TieredStore
  import opened Refinement
  import opened Relational
  import opened Simulation
  import opened Pieces

  // The sink, chunk by chunk; the first rejected chunk ends the statement.
  function RunUpdates(cx: Ctx, s: Store, chunks: seq<seq<Json>>): Option<Store>
    decreases |chunks|
  {
    if chunks == [] then Some(s)
    else
      match UpdateStore(cx, s, chunks[0])
      case None => None
      case Some(next) => RunUpdates(cx, next, chunks[1..])
  }

  function Flatten(chunks: seq<seq<Json>>): seq<Json> {
    if chunks == [] then [] else chunks[0] + Flatten(chunks[1..])
  }

  // Some row written by `p` is removed, from the same place, by `q`.
  predicate HandsOver(cx: Ctx, p: seq<Json>, q: seq<Json>) {
    exists place, k <- Removed(cx, Olds(q), place) :: k in Written(cx, News(p), place)
  }

  predicate NoHandOver(cx: Ctx, chunks: seq<seq<Json>>) {
    forall i, j {:trigger HandsOver(cx, chunks[i], chunks[j])} ::
      0 <= i < j < |chunks| ==> !HandsOver(cx, chunks[i], chunks[j])
  }

  lemma SplitPairsConcat(p: seq<Json>, q: seq<Json>)
    ensures SplitPairs(p + q).Ok? <==> SplitPairs(p).Ok? && SplitPairs(q).Ok?
    ensures SplitPairs(p + q).Ok? ==> Olds(p + q) == Olds(p) + Olds(q) && News(p + q) == News(p) + News(q)
  {
    SplitPairsMeans(p);
    SplitPairsMeans(q);
    SplitPairsMeans(p + q);
    if SplitPairs(p).Ok? && SplitPairs(q).Ok? {
      forall i | 0 <= i < |p + q|
        ensures Olds(p + q)[i] == (Olds(p) + Olds(q))[i] && News(p + q)[i] == (News(p) + News(q))[i]
      {
        var (r, j) := if i < |p| then (p, i) else (q, i - |p|);
        assert (p + q)[i] == r[j];
        assert Some(Olds(p + q)[i]) == Get(r[j], "old") && Some(News(p + q)[i]) == Get(r[j], "new");
      }
    }
  }

  // ---------- two chunks are one when nothing is handed over ----------

  lemma DeletedTwice(cx: Ctx, s: Store, a: seq<Json>, b: seq<Json>)
    ensures Deleted(cx, Deleted(cx, s, a), b) == Deleted(cx, s, a + b)
  {
    RemovedConcat(cx, a, b, InHeap);
    RemovedConcat(cx, a, b, InLake);
    TombstonesConcat(cx, a, b);
    HeapMinusTwice(s.t.heap, Removed(cx, a, InHeap), Removed(cx, b, InHeap), !cx.mode.Mirrored?, cx.cut);
    MapAssoc(s.t.delta, Tombstones(cx, a), Tombstones(cx, b));
    LakeMinusTwice(s.lake, Removed(cx, a, InLake), Removed(cx, b, InLake), cx.cut);
  }

  lemma LakeMinusTwice(lake: map<Key, Row>, a: set<Key>, b: set<Key>, cut: Option<int>)
    ensures LakeMinus(LakeMinus(lake, a, cut), b, cut) == LakeMinus(lake, a + b, cut)
  {
  }

  lemma WroteTwice(cx: Ctx, s: Store, a: seq<Json>, b: seq<Json>)
    ensures Wrote(cx, Wrote(cx, s, a), b) == Wrote(cx, s, a + b)
  {
    WrittenConcat(cx, a, b, InHeap);
    WrittenConcat(cx, a, b, InDelta);
    WrittenConcat(cx, a, b, InLake);
    MapAssoc(s.t.heap, Written(cx, a, InHeap), Written(cx, b, InHeap));
    MapAssoc(s.lake, Written(cx, a, InLake), Written(cx, b, InLake));
    UpsertsAdd(Written(cx, a, InDelta), Written(cx, b, InDelta));
    MapAssoc(s.t.delta, Upserts(Written(cx, a, InDelta)), Upserts(Written(cx, b, InDelta)));
  }

  lemma UpdateStoreExact(cx: Ctx, s: Store, pairs: seq<Json>)
    requires Runnable(cx)
    ensures UpdateStore(cx, s, pairs).Some? <==> Fits(cx, s.t, Update(pairs))
    ensures UpdateStore(cx, s, pairs).Some? ==>
            SplitPairs(pairs).Ok? &&
            UpdateStore(cx, s, pairs).value == Wrote(cx, Deleted(cx, s, Olds(pairs)), News(pairs))
  {
    AcceptedIffFits(cx, s.t, Update(pairs));
    if UpdateStore(cx, s, pairs).Some? {
      UpdateLands(cx, s, Olds(pairs), News(pairs));
    }
  }

  lemma CommuteHere(cx: Ctx, s: Store, p: seq<Json>, q: seq<Json>)
    requires !HandsOver(cx, p, q)
    ensures Deleted(cx, Wrote(cx, s, News(p)), Olds(q)) == Wrote(cx, Deleted(cx, s, Olds(q)), News(p))
  {
    HandsOverIsTakesBack(cx, p, q);
    Commute(Piece(cx, p), Piece(cx, q), s);
  }

  lemma TwoChunksFit(cx: Ctx, s: Store, p: seq<Json>, q: seq<Json>)
    requires SplitPairs(p).Ok? && SplitPairs(q).Ok? && !HandsOver(cx, p, q)
    ensures Fits(cx, s.t, Update(p + q)) <==>
            Fits(cx, s.t, Update(p)) && Fits(cx, Wrote(cx, Deleted(cx, s, Olds(p)), News(p)).t, Update(q))
  {
    SplitPairsConcat(p, q);
    var d1 := Deleted(cx, s, Olds(p));
    var d12 := Deleted(cx, d1, Olds(q));
    DeletedTwice(cx, s, Olds(p), Olds(q));
    CommuteHere(cx, d1, p, q);
    var n1 := Written(cx, News(p), InHeap).Keys;
    assert Deleted(cx, Wrote(cx, d1, News(p)), Olds(q)).t.heap.Keys == d12.t.heap.Keys + n1;
    FreshConcat(cx, d12.t.heap.Keys, News(p), News(q));
    FreshFrom(cx, d1.t.heap.Keys, News(p));
    FreshFrom(cx, d12.t.heap.Keys, News(p));
    assert d1.t.heap.Keys - Removed(cx, Olds(q), InHeap) <= d12.t.heap.Keys <= d1.t.heap.Keys;
  }

  lemma TwoChunks(cx: Ctx, s: Store, p: seq<Json>, q: seq<Json>)
    requires Runnable(cx) && !HandsOver(cx, p, q)
    ensures UpdateStore(cx, s, p + q) ==
            match UpdateStore(cx, s, p) case None => None case Some(next) => UpdateStore(cx, next, q)
  {
    SplitPairsConcat(p, q);
    UpdateStoreExact(cx, s, p);
    UpdateStoreExact(cx, s, p + q);
    if SplitPairs(p).Ok? && SplitPairs(q).Ok? {
      var d1 := Deleted(cx, s, Olds(p));
      var next := Wrote(cx, d1, News(p));
      UpdateStoreExact(cx, next, q);
      TwoChunksFit(cx, s, p, q);
      CommuteHere(cx, d1, p, q);
      DeletedTwice(cx, s, Olds(p), Olds(q));
      WroteTwice(cx, Deleted(cx, s, Olds(p + q)), News(p), News(q));
    } else if UpdateStore(cx, s, p).Some? {
      UpdateStoreExact(cx, UpdateStore(cx, s, p).value, q);
    }
  }

  lemma {:induction false} NoHandOverToAll(cx: Ctx, p: seq<Json>, rest: seq<seq<Json>>)
    requires forall q <- rest :: !HandsOver(cx, p, q)
    ensures !HandsOver(cx, p, Flatten(rest))
    decreases |rest|
  {
    if rest != [] {
      assert rest[0] in rest && forall q :: q in rest[1..] ==> q in rest;
      NoHandOverToAll(cx, p, rest[1..]);
      SplitPairsConcat(rest[0], Flatten(rest[1..]));
      forall place, k | k in Removed(cx, Olds(Flatten(rest)), place) ensures k !in Written(cx, News(p), place) {
        RemovedConcat(cx, Olds(rest[0]), Olds(Flatten(rest[1..])), place);
      }
    }
  }

  /** Without a hand-over, chunk by chunk is one whole update: same acceptance,
      same heap, same delta, same lake. */
  lemma {:induction false} ChunkedIsWhole(cx: Ctx, s: Store, chunks: seq<seq<Json>>)
    requires Runnable(cx) && chunks != [] && NoHandOver(cx, chunks)
    ensures RunUpdates(cx, s, chunks) == UpdateStore(cx, s, Flatten(chunks))
    decreases |chunks|
  {
    var rest := chunks[1..];
    if rest == [] {
      assert Flatten(chunks) == chunks[0] + [] == chunks[0];
    } else {
      forall q | q in rest ensures !HandsOver(cx, chunks[0], q) {
        var j :| 0 <= j < |rest| && rest[j] == q;
        assert chunks[j + 1] == q;
      }
      assert NoHandOver(cx, rest) by {
        forall i, j | 0 <= i < j < |rest| ensures !HandsOver(cx, rest[i], rest[j]) {
          assert rest[i] == chunks[i + 1] && rest[j] == chunks[j + 1];
        }
      }
      NoHandOverToAll(cx, chunks[0], rest);
      TwoChunks(cx, s, chunks[0], Flatten(rest));
      match UpdateStore(cx, s, chunks[0])
      case None =>
      case Some(next) => ChunkedIsWhole(cx, next, rest);
    }
  }

  // ---------- and only then ----------

  function PiecesOf(cx: Ctx, chunks: seq<seq<Json>>): seq<Piece> {
    seq(|chunks|, i requires 0 <= i < |chunks| => Piece(cx, chunks[i]))
  }

  lemma {:induction false} RunIsEach(cx: Ctx, s: Store, chunks: seq<seq<Json>>)
    ensures RunUpdates(cx, s, chunks) == RunEach(s, PiecesOf(cx, chunks))
    decreases |chunks|
  {
    if chunks != [] && UpdateStore(cx, s, chunks[0]).Some? {
      assert PiecesOf(cx, chunks)[1..] == PiecesOf(cx, chunks[1..]);
      RunIsEach(cx, UpdateStore(cx, s, chunks[0]).value, chunks[1..]);
    }
  }

  // With one T a row that was written is always taken by a removal routed there.
  lemma TakenWhereWritten(cx: Ctx, news: seq<Json>, place: Place, k: Key)
    requires k in Written(cx, news, place)
    ensures Takes(cx, place, Written(cx, news, place)[k])
  {
    if cx.mode.Mirrored? {
      if place.InLake? {
        NothingElsewhere(cx, news, place);
      }
    } else {
      WrittenSide(cx, news, place);
    }
  }

  lemma HandsOverIsTakesBack(cx: Ctx, p: seq<Json>, q: seq<Json>)
    ensures HandsOver(cx, p, q) <==> TakesBack(Piece(cx, p), Piece(cx, q))
  {
    var a, b := Piece(cx, p), Piece(cx, q);
    forall place, k
      ensures k in Removed(cx, Olds(q), place) && k in Written(cx, News(p), place) <==>
              k in RemovedBy(b, place) && k in WrittenBy(a, place) && Takes(b.cx, place, WrittenBy(a, place)[k])
    {
      if k in Written(cx, News(p), place) {
        TakenWhereWritten(cx, News(p), place, k);
      }
    }
  }

  lemma NoHandOverIsNothingTakenBack(cx: Ctx, chunks: seq<seq<Json>>)
    ensures NoHandOver(cx, chunks) <==> NothingTakenBack(PiecesOf(cx, chunks))
  {
    var pieces := PiecesOf(cx, chunks);
    if NoHandOver(cx, chunks) {
      forall i, j | 0 <= i < j < |pieces| ensures !TakesBack(pieces[i], pieces[j]) {
        assert !HandsOver(cx, chunks[i], chunks[j]);
        HandsOverIsTakesBack(cx, chunks[i], chunks[j]);
      }
    } else {
      var i, j :| 0 <= i < j < |chunks| && HandsOver(cx, chunks[i], chunks[j]);
      HandsOverIsTakesBack(cx, chunks[i], chunks[j]);
      assert TakesBack(pieces[i], pieces[j]);
    }
  }

  lemma {:induction false} WholeRemovals(cx: Ctx, s: Store, chunks: seq<seq<Json>>)
    requires SplitPairs(Flatten(chunks)).Ok?
    ensures DeletedEach(s, PiecesOf(cx, chunks)) == Deleted(cx, s, Olds(Flatten(chunks)))
    decreases |chunks|
  {
    if chunks == [] {
      DeleteNothing(cx, s);
    } else {
      var rest := Flatten(chunks[1..]);
      assert PiecesOf(cx, chunks)[1..] == PiecesOf(cx, chunks[1..]);
      SplitPairsConcat(chunks[0], rest);
      WholeRemovals(cx, Deleted(cx, s, Olds(chunks[0])), chunks[1..]);
      DeletedTwice(cx, s, Olds(chunks[0]), Olds(rest));
    }
  }

  lemma DeleteNothing(cx: Ctx, s: Store)
    ensures Deleted(cx, s, []) == s
  {
    HeapMinusTwice(s.t.heap, {}, {}, !cx.mode.Mirrored?, cx.cut);
    LakeSides(s.lake, {}, cx.cut);
    assert s.t.delta + map[] == s.t.delta;
  }

  lemma {:induction false} WholeWrites(cx: Ctx, s: Store, chunks: seq<seq<Json>>)
    requires SplitPairs(Flatten(chunks)).Ok?
    ensures WroteEach(s, PiecesOf(cx, chunks)) == Wrote(cx, s, News(Flatten(chunks)))
    decreases |chunks|
  {
    if chunks == [] {
      WriteNothing(cx, s);
    } else {
      var rest := Flatten(chunks[1..]);
      assert PiecesOf(cx, chunks)[1..] == PiecesOf(cx, chunks[1..]);
      SplitPairsConcat(chunks[0], rest);
      WholeWrites(cx, Wrote(cx, s, News(chunks[0])), chunks[1..]);
      WroteTwice(cx, s, News(chunks[0]), News(rest));
    }
  }

  /** Exactly when chunking is harmless: for an update that writes each new key once
      and is accepted at least one way, acceptance and result coincide if and only if
      nothing is handed over. */
  lemma ChunkedIsWholeExactly(cx: Ctx, s: Store, chunks: seq<seq<Json>>)
    requires Runnable(cx) && chunks != [] && WrittenOnce(PiecesOf(cx, chunks))
    requires RunUpdates(cx, s, chunks).Some? || UpdateStore(cx, s, Flatten(chunks)).Some?
    ensures RunUpdates(cx, s, chunks) == UpdateStore(cx, s, Flatten(chunks)) <==> NoHandOver(cx, chunks)
  {
    if NoHandOver(cx, chunks) {
      ChunkedIsWhole(cx, s, chunks);
    } else if RunUpdates(cx, s, chunks).Some? && UpdateStore(cx, s, Flatten(chunks)).Some? {
      var pieces := PiecesOf(cx, chunks);
      RunIsEach(cx, s, chunks);
      NoHandOverIsNothingTakenBack(cx, chunks);
      RemovalsThenWritesExactly(s, pieces);
      UpdateStoreExact(cx, s, Flatten(chunks));
      WholeRemovals(cx, s, chunks);
      WholeWrites(cx, DeletedEach(s, pieces), chunks);
    }
  }
}
