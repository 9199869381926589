/**
 One DML chunk as a function: rows are taken in order, the first failing row ends
 the chunk, and lake statements are only built once every row has gone through.
 A result always carries the tables as they stand, also on an error.
 */
module Dml {
  import opened Wrappers
  import opened Rows
  import opened Core

  // What a chunk reads before its first row.  `fail` names the Postgres
  // statement of the chunk, counted from 0, that the server refuses.
  datatype Ctx = Ctx(
    ts: TableSchema,
    mode: Mode,
    cut: Option<int>,
    retention: Option<int>,
    policy: HeapPolicy,
    catalog: bool,
    fail: Option<nat>)

  datatype Tables = Tables(heap: map<Key, Row>, delta: map<Key, DeltaEntry>)

  type DeltaLog = seq<(Key, DeltaEntry)>

  // `batch` is the deferred lake batch, `ran` counts the Postgres statements so
  // far, and `wrote` is every delta entry written, in order.
  datatype Work<A> = Work(t: Tables, batch: seq<A>, ran: nat, wrote: DeltaLog)

  datatype Outcome<A> = Outcome(work: Work<A>, err: Option<Error>)

  datatype LegResult = LegResult(t: Tables, ran: nat, wrote: DeltaLog, lake: Result<seq<LakeStmt>, Error>)

  function Start<A>(t: Tables, ran: nat): Work<A> {
    Work(t, [], ran, [])
  }

  // One granted delta write.
  function PutDelta<A>(w: Work<A>, key: Key, entry: DeltaEntry): Work<A> {
    Work(w.t.(delta := w.t.delta[key := entry]), w.batch, w.ran + 1, w.wrote + [(key, entry)])
  }

  predicate Refused(cx: Ctx, ran: nat) {
    cx.fail == Some(ran)
  }

  function RouteTo(cx: Ctx, tier: int): Target {
    Route(tier, cx.cut)
  }

  // ---------- deleting rows ----------

  function HeapMinus(heap: map<Key, Row>, keys: set<Key>, floored: bool, cut: Option<int>): map<Key, Row> {
    map k | k in heap && !(k in keys && (floored ==> Route(heap[k].tier, cut).Hot?)) :: heap[k]
  }

  function ColdRemove(cx: Ctx, w: Work<Key>, sink: Option<ColdSink>, key: Key, tier: int, row: Json): Outcome<Key> {
    match sink
    case None => Outcome(w, None)
    case Some(Lake) => Outcome(w.(batch := w.batch + [key]), None)
    case Some(Delta) =>
      if Refused(cx, w.ran) then Outcome(w.(ran := w.ran + 1), Some(StatementFailed))
      else
        Outcome(PutDelta(w, key, DeltaEntry(Tombstone, tier, TombstonePayload(row, cx.ts.pkCols))), None)
  }

  function HeapRemove(cx: Ctx, w: Work<Key>, plan: DeletePlan, key: Key): Outcome<Key> {
    if !plan.fromHeap then Outcome(w, None)
    else if Refused(cx, w.ran) then Outcome(w.(ran := w.ran + 1), Some(StatementFailed))
    else
      Outcome(w.(t := w.t.(heap := HeapMinus(w.t.heap, {key}, plan.heapFloor, cx.cut)), ran := w.ran + 1), None)
  }

  function DeleteRow(cx: Ctx, w: Work<Key>, row: Json): Outcome<Key> {
    match ReadTier(cx.ts, row)
    case Err(e) => Outcome(w, Some(e))
    case Ok(tier) =>
      var plan := PlanDelete(cx.mode, RouteTo(cx, tier));
      match ReadKey(row, cx.ts.pkCols)
      case Err(e) => Outcome(w, Some(e))
      case Ok(key) =>
        if plan.cold.Some? && plan.checkRetention && RetentionRejects(tier, cx.retention) then
          Outcome(w, Some(BelowRetention(tier, cx.retention)))
        else
          var o := ColdRemove(cx, w, plan.cold, key, tier, row);
          if o.err.Some? then o else HeapRemove(cx, o.work, plan, key)
  }

  function DeleteFold(cx: Ctx, w: Work<Key>, rows: seq<Json>): Outcome<Key>
    decreases |rows|
  {
    if rows == [] then Outcome(w, None)
    else
      var o := DeleteRow(cx, w, rows[0]);
      if o.err.Some? then o else DeleteFold(cx, o.work, rows[1..])
  }

  // The lake commit lock is one more Postgres statement.
  function Finish<A>(cx: Ctx, w: Work<A>, stmt: LakeStmt): LegResult {
    if w.batch == [] then LegResult(w.t, w.ran, w.wrote, Ok([]))
    else if !cx.catalog then LegResult(w.t, w.ran, w.wrote, Err(NoCatalog))
    else if Refused(cx, w.ran) then LegResult(w.t, w.ran + 1, w.wrote, Err(StatementFailed))
    else LegResult(w.t, w.ran + 1, w.wrote, Ok([stmt]))
  }

  predicate PkKnown(ts: TableSchema) {
    forall c <- ts.pkCols :: exists col <- ts.columns :: col.name == c
  }

  function DeleteLeg(cx: Ctx, t: Tables, ran: nat, rows: seq<Json>): LegResult {
    if !PkKnown(cx.ts) then LegResult(t, ran, [], Err(UnknownKeyColumn))
    else
      var o := DeleteFold(cx, Start(t, ran), rows);
      if o.err.Some? then LegResult(o.work.t, o.work.ran, o.work.wrote, Err(o.err.value))
      else Finish(cx, o.work, DeleteKeys(o.work.batch, cx.cut))
  }

  // ---------- writing rows ----------

  function ColdWrite(cx: Ctx, w: Work<(Key, Row)>, sink: Option<ColdSink>, tier: int, row: Json): Outcome<(Key, Row)> {
    match sink
    case None => Outcome(w, None)
    case Some(Lake) => Outcome(w.(batch := w.batch + [(KeyOf(row, cx.ts.pkCols), Row(tier, row))]), None)
    case Some(Delta) =>
      match ReadKey(row, cx.ts.pkCols)
      case Err(e) => Outcome(w, Some(e))
      case Ok(key) =>
        if Refused(cx, w.ran) then Outcome(w.(ran := w.ran + 1), Some(StatementFailed))
        else Outcome(PutDelta(w, key, DeltaEntry(Upsert, tier, row)), None)
  }

  // The heap converts the key itself: its primary key admits no NULL, and whether
  // it takes an array or object depends on the column.
  predicate HeapTakes(ts: TableSchema, row: Json) {
    forall cell <- KeyOf(row, ts.pkCols).cells :: cell.TextCell? || (cell.StructCell? && ts.heapTakes(cell.value))
  }

  predicate HeapAccepts(cx: Ctx, heapKeys: set<Key>, row: Json) {
    HeapTakes(cx.ts, row) &&
    (cx.policy.RejectDuplicate? ==> KeyOf(row, cx.ts.pkCols) !in heapKeys)
  }

  function HeapWrite(cx: Ctx, w: Work<(Key, Row)>, toHeap: bool, tier: int, row: Json): Outcome<(Key, Row)> {
    if !toHeap then Outcome(w, None)
    else if Refused(cx, w.ran) || !HeapAccepts(cx, w.t.heap.Keys, row) then
      Outcome(w.(ran := w.ran + 1), Some(StatementFailed))
    else
      var key := KeyOf(row, cx.ts.pkCols);
      Outcome(w.(t := w.t.(heap := w.t.heap[key := Row(tier, row)]), ran := w.ran + 1), None)
  }

  function WriteRow(cx: Ctx, w: Work<(Key, Row)>, raw: Json): Outcome<(Key, Row)> {
    var row := Normalize(cx.ts, raw);
    match ReadTier(cx.ts, row)
    case Err(e) => Outcome(w, Some(e))
    case Ok(tier) =>
      var plan := PlanInsert(cx.mode, RouteTo(cx, tier));
      if plan.cold.Some? && plan.checkRetention && RetentionRejects(tier, cx.retention) then
        Outcome(w, Some(BelowRetention(tier, cx.retention)))
      else
        var o := ColdWrite(cx, w, plan.cold, tier, row);
        if o.err.Some? then o else HeapWrite(cx, o.work, plan.toHeap, tier, row)
  }

  function WriteFold(cx: Ctx, w: Work<(Key, Row)>, rows: seq<Json>): Outcome<(Key, Row)>
    decreases |rows|
  {
    if rows == [] then Outcome(w, None)
    else
      var o := WriteRow(cx, w, rows[0]);
      if o.err.Some? then o else WriteFold(cx, o.work, rows[1..])
  }

  function WriteLeg(cx: Ctx, t: Tables, ran: nat, rows: seq<Json>): LegResult {
    var o := WriteFold(cx, Start(t, ran), rows);
    if o.err.Some? then LegResult(o.work.t, o.work.ran, o.work.wrote, Err(o.err.value))
    else Finish(cx, o.work, UpsertRows(o.work.batch))
  }

  // ---------- the three chunks ----------

  datatype Dml = Insert(rows: seq<Json>) | Delete(keys: seq<Json>) | Update(pairs: seq<Json>)

  function SplitPairs(pairs: seq<Json>): Result<(seq<Json>, seq<Json>), Error> {
    if pairs == [] then Ok(([], []))
    else
      match Get(pairs[0], "old")
      case None => Err(MissingOld)
      case Some(was) =>
        match Get(pairs[0], "new")
        case None => Err(MissingNew)
        case Some(now) =>
          match SplitPairs(pairs[1..])
          case Err(e) => Err(e)
          case Ok((olds, news)) => Ok(([was] + olds, [now] + news))
  }

  predicate Lacks(pair: Json) {
    Get(pair, "old").None? || Get(pair, "new").None?
  }

  // The part that is missing, the old key looked for first.
  predicate Incomplete(pair: Json, e: Error) {
    Lacks(pair) && e == if Get(pair, "old").None? then MissingOld else MissingNew
  }

  lemma {:induction false} SplitPairsError(pairs: seq<Json>)
    requires SplitPairs(pairs).Err?
    ensures exists i :: 0 <= i < |pairs| && Incomplete(pairs[i], SplitPairs(pairs).error)
                        && forall j :: 0 <= j < i ==> !Lacks(pairs[j])
    decreases |pairs|
  {
    var e := SplitPairs(pairs).error;
    if Lacks(pairs[0]) {
      assert Incomplete(pairs[0], e);
    } else {
      var rest := pairs[1..];
      SplitPairsError(rest);
      var i :| 0 <= i < |rest| && Incomplete(rest[i], e) && forall j :: 0 <= j < i ==> !Lacks(rest[j]);
      assert Incomplete(pairs[i + 1], e);
      assert forall j {:trigger pairs[j]} :: 0 < j < i + 1 ==> pairs[j] == rest[j - 1];
    }
  }

  lemma {:induction false} SplitPairsOk(pairs: seq<Json>)
    ensures SplitPairs(pairs).Ok? <==> forall p <- pairs :: !Lacks(p)
    decreases |pairs|
  {
    if pairs != [] {
      assert pairs[0] in pairs && forall p :: p in pairs <==> p == pairs[0] || p in pairs[1..];
      SplitPairsOk(pairs[1..]);
      assert SplitPairs(pairs).Ok? <==> !Lacks(pairs[0]) && SplitPairs(pairs[1..]).Ok?;
    }
  }

  lemma {:induction false} SplitPairsOrder(pairs: seq<Json>, i: nat)
    requires SplitPairs(pairs).Ok? && i < |pairs|
    ensures var (olds, news) := SplitPairs(pairs).value;
            && |olds| == |news| == |pairs|
            && Get(pairs[i], "old") == Some(olds[i]) && Get(pairs[i], "new") == Some(news[i])
    decreases |pairs|
  {
    if |pairs| > 1 {
      SplitPairsOrder(pairs[1..], if i > 0 then i - 1 else 0);
    } else {
      assert SplitPairs(pairs[1..]) == Ok(([], []));
    }
  }

  /** An update payload splits exactly when every pair is complete, and then old
      keys and new images keep the order of the pairs; otherwise the first incomplete
      pair is the error. */
  lemma SplitPairsMeans(pairs: seq<Json>)
    ensures var r := SplitPairs(pairs);
            && (r.Ok? <==> forall p <- pairs :: Get(p, "old").Some? && Get(p, "new").Some?)
            && (r.Err? ==> exists i :: 0 <= i < |pairs| && Incomplete(pairs[i], r.error)
                                       && forall j :: 0 <= j < i ==> !Lacks(pairs[j]))
            && (r.Ok? ==> |r.value.0| == |r.value.1| == |pairs| && forall i :: 0 <= i < |pairs| ==>
                  Get(pairs[i], "old") == Some(r.value.0[i]) && Get(pairs[i], "new") == Some(r.value.1[i]))
  {
    SplitPairsOk(pairs);
    if SplitPairs(pairs).Err? {
      SplitPairsError(pairs);
    } else {
      forall i | 0 <= i < |pairs|
        ensures |SplitPairs(pairs).value.0| == |SplitPairs(pairs).value.1| == |pairs|
        ensures Get(pairs[i], "old") == Some(SplitPairs(pairs).value.0[i])
        ensures Get(pairs[i], "new") == Some(SplitPairs(pairs).value.1[i])
      {
        SplitPairsOrder(pairs, i);
      }
    }
  }

  function UpdateLegs(cx: Ctx, t: Tables, olds: seq<Json>, news: seq<Json>): LegResult {
    var d := DeleteLeg(cx, t, 0, olds);
    if d.lake.Err? then d
    else
      var w := WriteLeg(cx, d.t, d.ran, news);
      LegResult(w.t, w.ran, d.wrote + w.wrote, if w.lake.Err? then w.lake else Ok(d.lake.value + w.lake.value))
  }

  function Chunk(cx: Ctx, t: Tables, dml: Dml): LegResult {
    if cx.mode.Direct? && !cx.catalog then LegResult(t, 0, [], Err(NoCatalog))
    else
      match dml
      case Insert(rows) => WriteLeg(cx, t, 0, rows)
      case Delete(keys) => DeleteLeg(cx, t, 0, keys)
      case Update(pairs) =>
        match SplitPairs(pairs)
        case Err(e) => LegResult(t, 0, [], Err(e))
        case Ok((olds, news)) => UpdateLegs(cx, t, olds, news)
  }
}
