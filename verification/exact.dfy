/**
 Closed forms: what a whole leg does to heap, delta and lake, said without its
 loop, and exactly which chunks are accepted.
 */
module Exact {
  import opened Wrappers
  import opened Rows
  import opened Core
  import opened Dml

  // With `keep_heap = false` every row goes to exactly one place.
  datatype Place = InHeap | InDelta | InLake

  function PlaceOf(mode: Mode, target: Core.Target): Place {
    if mode.Mirrored? || target.Hot? then InHeap else if mode.Tiered? then InDelta else InLake
  }

  function RowPlace(cx: Ctx, row: Json): Option<Place> {
    match ReadTier(cx.ts, row)
    case Err(_) => None
    case Ok(tier) => Some(PlaceOf(cx.mode, if cx.cut.Some? && tier < cx.cut.value then Cold else Hot))
  }

  function RowTier(cx: Ctx, row: Json): int {
    match ReadTier(cx.ts, row) case Err(_) => 0 case Ok(tier) => tier
  }

  function RowKey(cx: Ctx, row: Json): Key {
    KeyOf(row, cx.ts.pkCols)
  }

  // ---------- the rows of a chunk, by place ----------

  function RemovedOne(cx: Ctx, row: Json, place: Place): set<Key> {
    if RowPlace(cx, row) == Some(place) then {RowKey(cx, row)} else {}
  }

  function Removed(cx: Ctx, rows: seq<Json>, place: Place): set<Key> {
    if rows == [] then {} else RemovedOne(cx, rows[0], place) + Removed(cx, rows[1..], place)
  }

  function TombstonesOne(cx: Ctx, row: Json): map<Key, DeltaEntry> {
    if RowPlace(cx, row) == Some(InDelta) then
      map[RowKey(cx, row) := DeltaEntry(Tombstone, RowTier(cx, row), TombstonePayload(row, cx.ts.pkCols))]
    else map[]
  }

  function Tombstones(cx: Ctx, rows: seq<Json>): map<Key, DeltaEntry> {
    if rows == [] then map[] else TombstonesOne(cx, rows[0]) + Tombstones(cx, rows[1..])
  }

  function LakeKeysOne(cx: Ctx, row: Json): seq<Key> {
    if RowPlace(cx, row) == Some(InLake) then [RowKey(cx, row)] else []
  }

  function LakeKeys(cx: Ctx, rows: seq<Json>): seq<Key> {
    if rows == [] then [] else LakeKeysOne(cx, rows[0]) + LakeKeys(cx, rows[1..])
  }

  function Image(cx: Ctx, raw: Json): Row {
    var row := Normalize(cx.ts, raw);
    Row(RowTier(cx, row), row)
  }

  function ImageKey(cx: Ctx, raw: Json): Key {
    RowKey(cx, Normalize(cx.ts, raw))
  }

  function ImagePlace(cx: Ctx, raw: Json): Option<Place> {
    RowPlace(cx, Normalize(cx.ts, raw))
  }

  function WrittenOne(cx: Ctx, raw: Json, place: Place): map<Key, Row> {
    if ImagePlace(cx, raw) == Some(place) then map[ImageKey(cx, raw) := Image(cx, raw)] else map[]
  }

  // Later rows of a chunk win.
  function Written(cx: Ctx, rows: seq<Json>, place: Place): map<Key, Row> {
    if rows == [] then map[] else WrittenOne(cx, rows[0], place) + Written(cx, rows[1..], place)
  }

  function Upserts(m: map<Key, Row>): map<Key, DeltaEntry> {
    map k | k in m :: DeltaEntry(Upsert, m[k].tier, m[k].data)
  }

  function LakeRowsOne(cx: Ctx, raw: Json): seq<(Key, Row)> {
    if ImagePlace(cx, raw) == Some(InLake) then [(ImageKey(cx, raw), Image(cx, raw))] else []
  }

  function LakeRows(cx: Ctx, rows: seq<Json>): seq<(Key, Row)> {
    if rows == [] then [] else LakeRowsOne(cx, rows[0]) + LakeRows(cx, rows[1..])
  }

  // ---------- effect of an accepted leg ----------

  function AfterDelete(cx: Ctx, t: Tables, rows: seq<Json>): Tables {
    Tables(HeapMinus(t.heap, Removed(cx, rows, InHeap), !cx.mode.Mirrored?, cx.cut), t.delta + Tombstones(cx, rows))
  }

  function AfterWrite(cx: Ctx, t: Tables, rows: seq<Json>): Tables {
    Tables(t.heap + Written(cx, rows, InHeap), t.delta + Upserts(Written(cx, rows, InDelta)))
  }

  // One row's share of it.
  function RemoveOne(cx: Ctx, t: Tables, row: Json): Tables {
    match RowPlace(cx, row)
    case Some(InHeap) => t.(heap := HeapMinus(t.heap, {RowKey(cx, row)}, !cx.mode.Mirrored?, cx.cut))
    case Some(InDelta) =>
      var entry := DeltaEntry(Tombstone, RowTier(cx, row), TombstonePayload(row, cx.ts.pkCols));
      t.(delta := t.delta[RowKey(cx, row) := entry])
    case _ => t
  }

  function PutOne(cx: Ctx, t: Tables, raw: Json): Tables {
    var key, row := ImageKey(cx, raw), Image(cx, raw);
    match ImagePlace(cx, raw)
    case Some(InHeap) => t.(heap := t.heap[key := row])
    case Some(InDelta) => t.(delta := t.delta[key := DeltaEntry(Upsert, row.tier, row.data)])
    case _ => t
  }

  lemma DeleteRowExact(cx: Ctx, w: Work<Key>, row: Json)
    requires DeleteRow(cx, w, row).err.None?
    ensures RowPlace(cx, row).Some?
    ensures var v := DeleteRow(cx, w, row).work;
            v.t == RemoveOne(cx, w.t, row) && v.batch == w.batch + LakeKeysOne(cx, row)
  {
  }

  lemma HeapMinusTwice(heap: map<Key, Row>, a: set<Key>, b: set<Key>, floored: bool, cut: Option<int>)
    ensures HeapMinus(HeapMinus(heap, a, floored, cut), b, floored, cut) == HeapMinus(heap, a + b, floored, cut)
    ensures HeapMinus(heap, {}, floored, cut) == heap
  {
  }

  lemma AddUpdate<K, V>(m: map<K, V>, k: K, v: V, rest: map<K, V>)
    ensures m[k := v] + rest == m + (map[k := v] + rest)
    ensures m + rest == m + (map[] + rest)
  {
    assert map[] + rest == rest;
  }

  lemma UpsertsAdd(a: map<Key, Row>, b: map<Key, Row>)
    ensures Upserts(a + b) == Upserts(a) + Upserts(b)
    ensures Upserts(map[]) == map[]
    ensures forall k, r :: Upserts(map[k := r]) == map[k := DeltaEntry(Upsert, r.tier, r.data)]
  {
  }

  lemma AfterDeleteCons(cx: Ctx, t: Tables, rows: seq<Json>)
    requires rows != [] && RowPlace(cx, rows[0]).Some?
    ensures AfterDelete(cx, RemoveOne(cx, t, rows[0]), rows[1..]) == AfterDelete(cx, t, rows)
  {
    var rest := Removed(cx, rows[1..], InHeap);
    var key := RowKey(cx, rows[0]);
    HeapMinusTwice(t.heap, {key}, rest, !cx.mode.Mirrored?, cx.cut);
    AddUpdate(t.delta, key, DeltaEntry(Tombstone, RowTier(cx, rows[0]), TombstonePayload(rows[0], cx.ts.pkCols)),
              Tombstones(cx, rows[1..]));
    assert {} + rest == rest;
  }

  lemma Shift<A>(batch: seq<A>, one: seq<A>, rest: seq<A>)
    ensures (batch + one) + rest == batch + (one + rest)
  {
  }

  lemma {:induction false} DeleteFoldExact(cx: Ctx, w: Work<Key>, rows: seq<Json>)
    ensures var o := DeleteFold(cx, w, rows);
            o.err.None? ==> o.work.t == AfterDelete(cx, w.t, rows) && o.work.batch == w.batch + LakeKeys(cx, rows)
    decreases |rows|
  {
    if rows == [] {
      HeapMinusTwice(w.t.heap, {}, {}, !cx.mode.Mirrored?, cx.cut);
    } else if DeleteRow(cx, w, rows[0]).err.None? {
      DeleteRowExact(cx, w, rows[0]);
      DeleteFoldExact(cx, DeleteRow(cx, w, rows[0]).work, rows[1..]);
      AfterDeleteCons(cx, w.t, rows);
      Shift(w.batch, LakeKeysOne(cx, rows[0]), LakeKeys(cx, rows[1..]));
    }
  }

  lemma WriteRowExact(cx: Ctx, w: Work<(Key, Row)>, raw: Json)
    requires WriteRow(cx, w, raw).err.None?
    ensures ImagePlace(cx, raw).Some?
    ensures var v := WriteRow(cx, w, raw).work;
            v.t == PutOne(cx, w.t, raw) && v.batch == w.batch + LakeRowsOne(cx, raw)
  {
  }

  lemma AfterWriteCons(cx: Ctx, t: Tables, rows: seq<Json>)
    requires rows != [] && ImagePlace(cx, rows[0]).Some?
    ensures AfterWrite(cx, PutOne(cx, t, rows[0]), rows[1..]) == AfterWrite(cx, t, rows)
  {
    var key, row := ImageKey(cx, rows[0]), Image(cx, rows[0]);
    var inHeap, inDelta := Written(cx, rows[1..], InHeap), Written(cx, rows[1..], InDelta);
    AddUpdate(t.heap, key, row, inHeap);
    AddUpdate(t.delta, key, DeltaEntry(Upsert, row.tier, row.data), Upserts(inDelta));
    UpsertsAdd(map[key := row], inDelta);
    UpsertsAdd(map[], inDelta);
  }

  lemma {:induction false} WriteFoldExact(cx: Ctx, w: Work<(Key, Row)>, rows: seq<Json>)
    ensures var o := WriteFold(cx, w, rows);
            o.err.None? ==> o.work.t == AfterWrite(cx, w.t, rows) && o.work.batch == w.batch + LakeRows(cx, rows)
    decreases |rows|
  {
    if rows == [] {
      assert Upserts(map[]) == map[];
      assert AfterWrite(cx, w.t, rows) == w.t;
    } else if WriteRow(cx, w, rows[0]).err.None? {
      WriteRowExact(cx, w, rows[0]);
      WriteFoldExact(cx, WriteRow(cx, w, rows[0]).work, rows[1..]);
      AfterWriteCons(cx, w.t, rows);
      Shift(w.batch, LakeRowsOne(cx, rows[0]), LakeRows(cx, rows[1..]));
    }
  }

  // ---------- which legs are accepted when Postgres refuses nothing ----------

  // Below T and not below the retention line.
  predicate Safe(cx: Ctx, tier: int) {
    cx.cut.Some? && tier < cx.cut.value && (cx.retention.Some? ==> tier >= cx.retention.value)
  }

  // Postgres refuses nothing, and a direct table has its catalog; other tables
  // have none and need none.
  predicate Runnable(cx: Ctx) {
    cx.fail.None? && (cx.mode.Direct? ==> cx.catalog)
  }

  predicate Deletable(cx: Ctx, row: Json) {
    ReadTier(cx.ts, row).Ok? && ReadKey(row, cx.ts.pkCols).Ok? &&
    (RowPlace(cx, row).value.InHeap? || Safe(cx, RowTier(cx, row)))
  }

  // The delta needs the key as texts, the heap one it can store; a row bound for
  // the lake is never asked for its key.
  predicate Writable(cx: Ctx, raw: Json) {
    var row := Normalize(cx.ts, raw);
    ReadTier(cx.ts, row).Ok? &&
    (RowPlace(cx, row).value.InDelta? ==> ReadKey(row, cx.ts.pkCols).Ok?) &&
    (RowPlace(cx, row).value.InHeap? ==> HeapTakes(cx.ts, row)) &&
    (RowPlace(cx, row).value.InHeap? || Safe(cx, RowTier(cx, row)))
  }

  // No heap row of the chunk meets its key in the heap or earlier in the chunk.
  predicate Fresh(cx: Ctx, heapKeys: set<Key>, rows: seq<Json>)
    decreases |rows|
  {
    rows == [] ||
    if ImagePlace(cx, rows[0]) == Some(InHeap) then
      ImageKey(cx, rows[0]) !in heapKeys && Fresh(cx, heapKeys + {ImageKey(cx, rows[0])}, rows[1..])
    else Fresh(cx, heapKeys, rows[1..])
  }

  lemma {:induction false} DeleteFoldAccepted(cx: Ctx, w: Work<Key>, rows: seq<Json>)
    requires cx.fail.None?
    ensures DeleteFold(cx, w, rows).err.None? <==> forall row <- rows :: Deletable(cx, row)
    decreases |rows|
  {
    if rows != [] {
      assert DeleteRow(cx, w, rows[0]).err.None? <==> Deletable(cx, rows[0]);
      DeleteFoldAccepted(cx, DeleteRow(cx, w, rows[0]).work, rows[1..]);
      assert rows == [rows[0]] + rows[1..];
    }
  }

  lemma WriteRowAccepted(cx: Ctx, w: Work<(Key, Row)>, raw: Json)
    requires cx.fail.None?
    ensures WriteRow(cx, w, raw).err.None? <==>
            Writable(cx, raw) &&
            (cx.policy.RejectDuplicate? && ImagePlace(cx, raw) == Some(InHeap) ==> ImageKey(cx, raw) !in w.t.heap)
  {
  }

  lemma {:induction false} WriteFoldAccepted(cx: Ctx, w: Work<(Key, Row)>, rows: seq<Json>)
    requires cx.fail.None?
    ensures WriteFold(cx, w, rows).err.None? <==>
            (forall raw <- rows :: Writable(cx, raw)) &&
            (cx.policy.RejectDuplicate? ==> Fresh(cx, w.t.heap.Keys, rows))
    decreases |rows|
  {
    if rows != [] {
      assert rows == [rows[0]] + rows[1..];
      WriteRowAccepted(cx, w, rows[0]);
      var o := WriteRow(cx, w, rows[0]);
      if o.err.None? {
        WriteRowExact(cx, w, rows[0]);
        WriteFoldAccepted(cx, o.work, rows[1..]);
        if ImagePlace(cx, rows[0]) == Some(InHeap) {
          assert o.work.t.heap.Keys == w.t.heap.Keys + {ImageKey(cx, rows[0])};
        }
      }
    }
  }

  lemma {:induction false} FreshFrom(cx: Ctx, heapKeys: set<Key>, rows: seq<Json>)
    ensures Fresh(cx, heapKeys, rows) <==> Fresh(cx, {}, rows) && Written(cx, rows, InHeap).Keys !! heapKeys
    decreases |rows|
  {
    if rows != [] {
      var key := ImageKey(cx, rows[0]);
      if ImagePlace(cx, rows[0]) == Some(InHeap) {
        FreshFrom(cx, heapKeys + {key}, rows[1..]);
        FreshFrom(cx, {} + {key}, rows[1..]);
        assert Written(cx, rows, InHeap).Keys == {key} + Written(cx, rows[1..], InHeap).Keys;
      } else {
        FreshFrom(cx, heapKeys, rows[1..]);
        assert Written(cx, rows, InHeap) == Written(cx, rows[1..], InHeap);
      }
    }
  }

  lemma {:induction false} FreshConcat(cx: Ctx, heapKeys: set<Key>, a: seq<Json>, b: seq<Json>)
    ensures Fresh(cx, heapKeys, a + b) <==>
            Fresh(cx, heapKeys, a) && Fresh(cx, heapKeys + Written(cx, a, InHeap).Keys, b)
    decreases |a|
  {
    if a == [] {
      assert a + b == b && heapKeys + Written(cx, a, InHeap).Keys == heapKeys;
    } else {
      assert (a + b)[1..] == a[1..] + b;
      var key := ImageKey(cx, a[0]);
      if ImagePlace(cx, a[0]) == Some(InHeap) {
        FreshConcat(cx, heapKeys + {key}, a[1..], b);
        assert heapKeys + Written(cx, a, InHeap).Keys == heapKeys + {key} + Written(cx, a[1..], InHeap).Keys;
      } else {
        FreshConcat(cx, heapKeys, a[1..], b);
        assert Written(cx, a, InHeap) == Written(cx, a[1..], InHeap);
      }
    }
  }

  // ---------- concatenating chunks ----------

  lemma MapAssoc<K, V>(a: map<K, V>, b: map<K, V>, c: map<K, V>)
    ensures (a + b) + c == a + (b + c)
  {
  }

  lemma {:induction false} RemovedConcat(cx: Ctx, a: seq<Json>, b: seq<Json>, place: Place)
    ensures Removed(cx, a + b, place) == Removed(cx, a, place) + Removed(cx, b, place)
    decreases |a|
  {
    if a == [] {
      assert a + b == b;
    } else {
      assert (a + b)[1..] == a[1..] + b;
      RemovedConcat(cx, a[1..], b, place);
    }
  }

  lemma {:induction false} TombstonesConcat(cx: Ctx, a: seq<Json>, b: seq<Json>)
    ensures Tombstones(cx, a + b) == Tombstones(cx, a) + Tombstones(cx, b)
    ensures LakeKeys(cx, a + b) == LakeKeys(cx, a) + LakeKeys(cx, b)
    decreases |a|
  {
    if a == [] {
      assert a + b == b;
      assert Tombstones(cx, b) == map[] + Tombstones(cx, b);
    } else {
      assert (a + b)[1..] == a[1..] + b && (a + b)[0] == a[0];
      TombstonesConcat(cx, a[1..], b);
      MapAssoc(TombstonesOne(cx, a[0]), Tombstones(cx, a[1..]), Tombstones(cx, b));
    }
  }

  lemma {:induction false} WrittenConcat(cx: Ctx, a: seq<Json>, b: seq<Json>, place: Place)
    ensures Written(cx, a + b, place) == Written(cx, a, place) + Written(cx, b, place)
    decreases |a|
  {
    if a == [] {
      assert a + b == b;
      assert Written(cx, b, place) == map[] + Written(cx, b, place);
    } else {
      assert (a + b)[1..] == a[1..] + b && (a + b)[0] == a[0];
      WrittenConcat(cx, a[1..], b, place);
      MapAssoc(WrittenOne(cx, a[0], place), Written(cx, a[1..], place), Written(cx, b, place));
    }
  }

  // ---------- the batches as sets and maps ----------

  lemma {:induction false} BatchKeys(cx: Ctx, rows: seq<Json>)
    ensures (set k | k in LakeKeys(cx, rows)) == Removed(cx, rows, InLake)
    ensures Tombstones(cx, rows).Keys == Removed(cx, rows, InDelta)
    ensures forall e <- Tombstones(cx, rows).Values :: e.op.Tombstone?
    decreases |rows|
  {
    if rows != [] {
      BatchKeys(cx, rows[1..]);
    }
  }

  lemma {:induction false} BatchRows(cx: Ctx, rows: seq<Json>)
    ensures MapOf(LakeRows(cx, rows)) == Written(cx, rows, InLake)
    decreases |rows|
  {
    if rows != [] {
      BatchRows(cx, rows[1..]);
      if ImagePlace(cx, rows[0]) == Some(InLake) {
        assert LakeRows(cx, rows)[1..] == LakeRows(cx, rows[1..]);
      } else {
        assert LakeRows(cx, rows) == LakeRows(cx, rows[1..]);
        assert Written(cx, rows, InLake) == Written(cx, rows[1..], InLake);
      }
    }
  }

  // Written rows sit on the side of the seam that their place stands for.
  lemma {:induction false} WrittenSide(cx: Ctx, rows: seq<Json>, place: Place)
    requires !cx.mode.Mirrored?
    ensures forall k <- Written(cx, rows, place) ::
              RouteTo(cx, Written(cx, rows, place)[k].tier).Hot? <==> place.InHeap?
    decreases |rows|
  {
    if rows != [] {
      WrittenSide(cx, rows[1..], place);
    }
  }
}
