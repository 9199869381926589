/**
 The connection object.  Its methods issue one statement at a time and loop over
 the rows of a chunk; each is proved to have the effect of its function.
 */
module Connection {
  import opened Wrappers
  import opened Rows
  import opened Core
  import opened Dml
  import S = Session

  lemma SetTableAgain(c: S.ConnState, table: int, a: Tables, b: Tables)
    requires !c.txn.Aborted?
    ensures S.SetTable(S.SetTable(c, table, a), table, b) == S.SetTable(c, table, b)
    ensures table in S.Visible(S.SetTable(c, table, a)).tables && S.Visible(S.SetTable(c, table, a)).tables[table] == a
    ensures table in S.Visible(c).tables && S.Visible(c).tables[table] == a ==> S.SetTable(c, table, a) == c
  {
    assert S.Visible(c).tables[table := a][table := b] == S.Visible(c).tables[table := b];
    if table in S.Visible(c).tables && S.Visible(c).tables[table] == a {
      assert S.Visible(c).tables[table := a] == S.Visible(c).tables;
    }
  }

  class Conn {
    var committed: S.Db
    var txn: S.Txn
    var inTxn: bool
    var nextPin: nat

    constructor (db: S.Db, nextPin: nat)
      ensures State() == S.ConnState(db, S.NoTxn, false, nextPin)
    {
      committed, txn, inTxn := db, S.NoTxn, false;
      this.nextPin := nextPin;
    }

    function State(): S.ConnState
      reads this
    {
      S.ConnState(committed, txn, inTxn, nextPin)
    }

    function Db(): S.Db
      reads this
    {
      S.Visible(State())
    }

    // ---------- the server's answers ----------

    method BatchBegin()
      modifies this
      ensures State() == S.Begin(old(State()))
    {
      if txn.NoTxn? {
        txn := S.Open(committed);
      }
    }

    method BatchCommit()
      modifies this
      ensures State() == S.Commit(old(State()))
    {
      if txn.Open? {
        committed := txn.work;
      }
      txn := S.NoTxn;
    }

    method BatchRollback()
      modifies this
      ensures State() == S.Rollback(old(State()))
    {
      txn := S.NoTxn;
    }

    // One statement with the given effect; a refused one aborts the transaction.
    method Execute(db: S.Db, refused: bool) returns (ok: bool)
      requires !txn.Aborted?
      modifies this
      ensures ok == !refused
      ensures State() == if ok then S.Effect(old(State()), db) else S.Abort(old(State()))
    {
      if refused {
        if txn.Open? {
          txn := S.Aborted;
        }
      } else if txn.Open? {
        txn := S.Open(db);
      } else {
        committed := db;
      }
      return !refused;
    }

    method ExecuteOn(table: int, t: Tables, refused: bool) returns (ok: bool)
      requires !txn.Aborted?
      modifies this
      ensures ok == !refused
      ensures State() == if ok then S.SetTable(old(State()), table, t) else S.Abort(old(State()))
    {
      ok := Execute(Db().(tables := Db().tables[table := t]), refused);
    }

    // ---------- the write transaction ----------

    method TxnBegin(granted: bool) returns (ok: bool)
      modifies this
      ensures (State(), ok) == S.TxnBegin(old(State()), granted)
    {
      if inTxn {
        return true;
      }
      if !granted {
        return false;
      }
      BatchBegin();
      inTxn := true;
      return true;
    }

    method TxnCommit(granted: bool) returns (ok: bool)
      modifies this
      ensures (State(), ok) == S.TxnCommit(old(State()), granted)
    {
      if !inTxn {
        return true;
      }
      if !granted {
        BatchRollback();
        return false;
      }
      BatchCommit();
      inTxn := false;
      return true;
    }

    method TxnRollback(granted: bool) returns (ok: bool)
      modifies this
      ensures (State(), ok) == S.TxnRollback(old(State()), granted)
    {
      if !inTxn {
        return true;
      }
      BatchRollback();
      if !granted {
        return false;
      }
      inTxn := false;
      return true;
    }

    // ---------- read pins ----------

    method PinAndRender(table: int, cut: Option<S.Cut>, reply: S.Reply) returns (scan: Option<S.Scan>)
      modifies this
      ensures (State(), scan) == S.PinAndRender(old(State()), table, cut, reply)
    {
      if txn.Aborted? {
        return None;
      }
      if reply.PinRefused? {
        var _ := Execute(Db(), true);
        return None;
      }
      var pin := None;
      if cut.Some? {
        var _ := Execute(Db().(pins := Db().pins[nextPin := S.PinRow(table, cut.value)]), false);
        pin := Some(nextPin);
        nextPin := nextPin + 1;
      }
      if reply.RenderFails? {
        return None;
      }
      return Some(S.Scan(table, cut, pin));
    }

    method AcquireScan(table: int, cut: Option<S.Cut>, reply: S.Reply) returns (scan: Option<S.Scan>)
      modifies this
      ensures (State(), scan) == S.AcquireScan(old(State()), table, cut, reply)
    {
      if txn.Aborted? {
        return None;
      }
      if reply.LookupRefused? {
        var _ := Execute(Db(), true);
        return None;
      }
      if reply.Rejected? {
        return None;
      }
      if inTxn {
        scan := PinAndRender(table, cut, reply);
        return;
      }
      if reply.BeginRefused? {
        return None;
      }
      BatchBegin();
      scan := PinAndRender(table, cut, reply);
      if scan.None? {
        BatchRollback();
      } else if reply.CommitRefused? {
        BatchRollback();
        scan := None;
      } else {
        BatchCommit();
      }
    }

    method ReleasePin(pin: nat, granted: bool) returns (ok: bool)
      modifies this
      ensures (State(), ok) == S.ReleasePin(old(State()), pin, granted)
    {
      if txn.Aborted? {
        return false;
      }
      ok := Execute(Db().(pins := Db().pins - {pin}), !granted);
    }

    // ---------- DML: deleting rows ----------

    method RemoveCold(cx: Ctx, table: int, w: Work<Key>, sink: Option<ColdSink>, key: Key, tier: int, row: Json)
      returns (v: Work<Key>, err: Option<Error>)
      requires !txn.Aborted? && table in Db().tables && w.t == Db().tables[table]
      modifies this
      ensures Outcome(v, err) == ColdRemove(cx, w, sink, key, tier, row)
      ensures State() == S.AfterRow(old(State()), table, Outcome(v, err))
    {
      v, err := w, None;
      SetTableAgain(State(), table, w.t, w.t);
      match sink {
        case None =>
        case Some(Lake) => v := w.(batch := w.batch + [key]);
        case Some(Delta) =>
          var entry := DeltaEntry(Tombstone, tier, TombstonePayload(row, cx.ts.pkCols));
          var ok := ExecuteOn(table, w.t.(delta := w.t.delta[key := entry]), Refused(cx, w.ran));
          if ok {
            v := PutDelta(w, key, entry);
          } else {
            v, err := w.(ran := w.ran + 1), Some(StatementFailed);
          }
      }
    }

    method RemoveFromHeap(cx: Ctx, table: int, w: Work<Key>, plan: DeletePlan, key: Key)
      returns (v: Work<Key>, err: Option<Error>)
      requires !txn.Aborted? && table in Db().tables && w.t == Db().tables[table]
      modifies this
      ensures Outcome(v, err) == HeapRemove(cx, w, plan, key)
      ensures State() == S.AfterRow(old(State()), table, Outcome(v, err))
    {
      v, err := w, None;
      SetTableAgain(State(), table, w.t, w.t);
      if plan.fromHeap {
        var t := w.t.(heap := HeapMinus(w.t.heap, {key}, plan.heapFloor, cx.cut));
        var ok := ExecuteOn(table, t, Refused(cx, w.ran));
        if ok {
          v := w.(t := t, ran := w.ran + 1);
        } else {
          v, err := w.(ran := w.ran + 1), Some(StatementFailed);
        }
      }
    }

    method DeleteOne(cx: Ctx, table: int, w: Work<Key>, row: Json) returns (v: Work<Key>, err: Option<Error>)
      requires !txn.Aborted? && table in Db().tables && w.t == Db().tables[table]
      modifies this
      ensures Outcome(v, err) == DeleteRow(cx, w, row)
      ensures State() == S.AfterRow(old(State()), table, Outcome(v, err))
    {
      v, err := w, None;
      SetTableAgain(State(), table, w.t, w.t);
      var tierRead := ReadTier(cx.ts, row);
      if tierRead.Err? {
        return w, Some(tierRead.error);
      }
      var tier := tierRead.value;
      var plan := PlanDelete(cx.mode, RouteTo(cx, tier));
      var keyRead := ReadKey(row, cx.ts.pkCols);
      if keyRead.Err? {
        return w, Some(keyRead.error);
      }
      var key := keyRead.value;
      if plan.cold.Some? && plan.checkRetention && RetentionRejects(tier, cx.retention) {
        return w, Some(BelowRetention(tier, cx.retention));
      }
      ghost var c0 := State();
      v, err := RemoveCold(cx, table, w, plan.cold, key, tier, row);
      if err.Some? {
        return;
      }
      SetTableAgain(c0, table, v.t, v.t);
      SetTableAgain(c0, table, v.t, HeapRemove(cx, v, plan, key).work.t);
      v, err := RemoveFromHeap(cx, table, v, plan, key);
    }

    method DeleteRows(cx: Ctx, table: int, ran: nat, rows: seq<Json>) returns (leg: LegResult)
      requires !txn.Aborted? && table in Db().tables
      modifies this
      ensures leg == DeleteLeg(cx, old(Db().tables[table]), ran, rows)
      ensures State() == S.AfterLeg(old(State()), table, leg)
    {
      ghost var c0 := State();
      var w: Work<Key> := Start(Db().tables[table], ran);
      ghost var all := DeleteFold(cx, w, rows);
      SetTableAgain(c0, table, w.t, w.t);
      if !PkKnown(cx.ts) {
        return LegResult(w.t, ran, [], Err(UnknownKeyColumn));
      }
      for i := 0 to |rows|
        invariant !txn.Aborted? && table in Db().tables && w.t == Db().tables[table]
        invariant State() == S.SetTable(c0, table, w.t)
        invariant DeleteFold(cx, w, rows[i..]) == all
      {
        assert rows[i..][0] == rows[i] && rows[i..][1..] == rows[i + 1..];
        SetTableAgain(c0, table, w.t, DeleteRow(cx, w, rows[i]).work.t);
        var err;
        w, err := DeleteOne(cx, table, w, rows[i]);
        if err.Some? {
          return LegResult(w.t, w.ran, w.wrote, Err(err.value));
        }
        SetTableAgain(c0, table, w.t, w.t);
      }
      leg := FinishLeg(cx, table, w, DeleteKeys(w.batch, cx.cut));
    }

    // The lake statement, once every row has gone through: catalog, lock, render.
    method FinishLeg<A>(cx: Ctx, table: int, w: Work<A>, stmt: LakeStmt) returns (leg: LegResult)
      requires !txn.Aborted? && table in Db().tables && w.t == Db().tables[table]
      modifies this
      ensures leg == Finish(cx, w, stmt)
      ensures State() == if leg.lake == Err(StatementFailed) then S.Abort(old(State())) else old(State())
    {
      if |w.batch| == 0 {
        return LegResult(w.t, w.ran, w.wrote, Ok([]));
      }
      if !cx.catalog {
        return LegResult(w.t, w.ran, w.wrote, Err(NoCatalog));
      }
      var locked := Execute(Db(), Refused(cx, w.ran));
      if !locked {
        return LegResult(w.t, w.ran + 1, w.wrote, Err(StatementFailed));
      }
      return LegResult(w.t, w.ran + 1, w.wrote, Ok([stmt]));
    }

    // ---------- DML: writing rows ----------

    method WriteCold(cx: Ctx, table: int, w: Work<(Key, Row)>, sink: Option<ColdSink>, tier: int, row: Json)
      returns (v: Work<(Key, Row)>, err: Option<Error>)
      requires !txn.Aborted? && table in Db().tables && w.t == Db().tables[table]
      modifies this
      ensures Outcome(v, err) == ColdWrite(cx, w, sink, tier, row)
      ensures State() == S.AfterRow(old(State()), table, Outcome(v, err))
    {
      v, err := w, None;
      SetTableAgain(State(), table, w.t, w.t);
      match sink {
        case None =>
        case Some(Lake) => v := w.(batch := w.batch + [(KeyOf(row, cx.ts.pkCols), Row(tier, row))]);
        case Some(Delta) =>
          var keyRead := ReadKey(row, cx.ts.pkCols);
          if keyRead.Err? {
            return w, Some(keyRead.error);
          }
          var key, entry := keyRead.value, DeltaEntry(Upsert, tier, row);
          var ok := ExecuteOn(table, w.t.(delta := w.t.delta[key := entry]), Refused(cx, w.ran));
          if ok {
            v := PutDelta(w, key, entry);
          } else {
            v, err := w.(ran := w.ran + 1), Some(StatementFailed);
          }
      }
    }

    method WriteToHeap(cx: Ctx, table: int, w: Work<(Key, Row)>, toHeap: bool, tier: int, row: Json)
      returns (v: Work<(Key, Row)>, err: Option<Error>)
      requires !txn.Aborted? && table in Db().tables && w.t == Db().tables[table]
      modifies this
      ensures Outcome(v, err) == HeapWrite(cx, w, toHeap, tier, row)
      ensures State() == S.AfterRow(old(State()), table, Outcome(v, err))
    {
      v, err := w, None;
      SetTableAgain(State(), table, w.t, w.t);
      if toHeap {
        var t := w.t.(heap := w.t.heap[KeyOf(row, cx.ts.pkCols) := Row(tier, row)]);
        var ok := ExecuteOn(table, t, Refused(cx, w.ran) || !HeapAccepts(cx, w.t.heap.Keys, row));
        if ok {
          v := w.(t := t, ran := w.ran + 1);
        } else {
          v, err := w.(ran := w.ran + 1), Some(StatementFailed);
        }
      }
    }

    method WriteOne(cx: Ctx, table: int, w: Work<(Key, Row)>, raw: Json)
      returns (v: Work<(Key, Row)>, err: Option<Error>)
      requires !txn.Aborted? && table in Db().tables && w.t == Db().tables[table]
      modifies this
      ensures Outcome(v, err) == WriteRow(cx, w, raw)
      ensures State() == S.AfterRow(old(State()), table, Outcome(v, err))
    {
      v, err := w, None;
      SetTableAgain(State(), table, w.t, w.t);
      var row := NormalizeJsonColumns(cx.ts, raw);
      var tierRead := ReadTier(cx.ts, row);
      if tierRead.Err? {
        return w, Some(tierRead.error);
      }
      var tier := tierRead.value;
      var plan := PlanInsert(cx.mode, RouteTo(cx, tier));
      if plan.cold.Some? && plan.checkRetention && RetentionRejects(tier, cx.retention) {
        return w, Some(BelowRetention(tier, cx.retention));
      }
      ghost var c0 := State();
      v, err := WriteCold(cx, table, w, plan.cold, tier, row);
      if err.Some? {
        return;
      }
      SetTableAgain(c0, table, v.t, v.t);
      SetTableAgain(c0, table, v.t, HeapWrite(cx, v, plan.toHeap, tier, row).work.t);
      v, err := WriteToHeap(cx, table, v, plan.toHeap, tier, row);
    }

    method WriteRows(cx: Ctx, table: int, ran: nat, rows: seq<Json>) returns (leg: LegResult)
      requires !txn.Aborted? && table in Db().tables
      modifies this
      ensures leg == WriteLeg(cx, old(Db().tables[table]), ran, rows)
      ensures State() == S.AfterLeg(old(State()), table, leg)
    {
      ghost var c0 := State();
      var w: Work<(Key, Row)> := Start(Db().tables[table], ran);
      ghost var all := WriteFold(cx, w, rows);
      SetTableAgain(c0, table, w.t, w.t);
      for i := 0 to |rows|
        invariant !txn.Aborted? && table in Db().tables && w.t == Db().tables[table]
        invariant State() == S.SetTable(c0, table, w.t)
        invariant WriteFold(cx, w, rows[i..]) == all
      {
        assert rows[i..][0] == rows[i] && rows[i..][1..] == rows[i + 1..];
        SetTableAgain(c0, table, w.t, WriteRow(cx, w, rows[i]).work.t);
        var err;
        w, err := WriteOne(cx, table, w, rows[i]);
        if err.Some? {
          return LegResult(w.t, w.ran, w.wrote, Err(err.value));
        }
        SetTableAgain(c0, table, w.t, w.t);
      }
      leg := FinishLeg(cx, table, w, UpsertRows(w.batch));
    }

    // ---------- DML: the three chunks ----------

    // The catalog queries every chunk starts with.
    method Lookup(cx: Ctx, table: int, granted: bool) returns (err: Option<Error>)
      modifies this
      ensures State() == if !granted then S.Abort(old(State())) else old(State())
      ensures err == if txn.Aborted? || !granted then Some(StatementFailed)
                     else if table !in Db().tables then Some(NotRegistered)
                     else if cx.mode.Direct? && !cx.catalog then Some(NoCatalog)
                     else None
    {
      if txn.Aborted? {
        return Some(StatementFailed);
      }
      var ok := Execute(Db(), !granted);
      if !ok {
        return Some(StatementFailed);
      }
      if table !in Db().tables {
        return Some(NotRegistered);
      }
      if cx.mode.Direct? && !cx.catalog {
        return Some(NoCatalog);
      }
      return None;
    }

    method InsertChunk(cx: Ctx, table: int, rows: seq<Json>, granted: bool)
      returns (count: nat, lake: Result<seq<LakeStmt>, Error>)
      modifies this
      ensures (State(), lake) == S.RunChunk(old(State()), table, cx, Insert(rows), granted)
      ensures count == |rows|
    {
      count := |rows|;
      var err := Lookup(cx, table, granted);
      if err.Some? {
        Unchanged(old(State()), table);
        return count, Err(err.value);
      }
      var leg := WriteRows(cx, table, 0, rows);
      lake := leg.lake;
    }

    method DeleteChunk(cx: Ctx, table: int, rows: seq<Json>, granted: bool)
      returns (count: nat, lake: Result<seq<LakeStmt>, Error>)
      modifies this
      ensures (State(), lake) == S.RunChunk(old(State()), table, cx, Delete(rows), granted)
      ensures count == |rows|
    {
      count := |rows|;
      var err := Lookup(cx, table, granted);
      if err.Some? {
        Unchanged(old(State()), table);
        return count, Err(err.value);
      }
      var leg := DeleteRows(cx, table, 0, rows);
      lake := leg.lake;
    }

    method UpdateChunk(cx: Ctx, table: int, pairs: seq<Json>, granted: bool)
      returns (count: nat, lake: Result<seq<LakeStmt>, Error>)
      modifies this
      ensures (State(), lake) == S.RunChunk(old(State()), table, cx, Update(pairs), granted)
      ensures count == |pairs|
    {
      count := |pairs|;
      var err := Lookup(cx, table, granted);
      if err.Some? {
        Unchanged(old(State()), table);
        return count, Err(err.value);
      }
      ghost var c0, t0 := State(), Db().tables[table];
      Unchanged(c0, table);
      var split := SplitAll(pairs);
      SplitPairsMeans(pairs);
      if split.Err? {
        return count, Err(split.error);
      }
      var (oldRows, newRows) := split.value;
      ghost var d := DeleteLeg(cx, t0, 0, oldRows);
      SetTableAgain(c0, table, d.t, d.t);
      var removed := DeleteRows(cx, table, 0, oldRows);
      if removed.lake.Err? {
        return count, removed.lake;
      }
      SetTableAgain(c0, table, d.t, WriteLeg(cx, d.t, d.ran, newRows).t);
      var written := WriteRows(cx, table, removed.ran, newRows);
      if written.lake.Err? {
        return count, written.lake;
      }
      lake := Ok(removed.lake.value + written.lake.value);
    }
  }

  lemma Unchanged(c: S.ConnState, table: int)
    ensures !c.txn.Aborted? && table in S.Visible(c).tables ==> S.SetTable(c, table, S.Visible(c).tables[table]) == c
  {
    if !c.txn.Aborted? && table in S.Visible(c).tables {
      SetTableAgain(c, table, S.Visible(c).tables[table], S.Visible(c).tables[table]);
    }
  }

  // `SplitPairs` of a whole list, given that of its tail and what precedes it.
  function Prepend(olds: seq<Json>, news: seq<Json>, r: Result<(seq<Json>, seq<Json>), Error>)
    : Result<(seq<Json>, seq<Json>), Error>
  {
    match r
    case Err(e) => Err(e)
    case Ok((os, ns)) => Ok((olds + os, news + ns))
  }

  lemma PrependTwice(olds: seq<Json>, news: seq<Json>, was: Json, now: Json, r: Result<(seq<Json>, seq<Json>), Error>)
    ensures Prepend(olds, news, Prepend([was], [now], r)) == Prepend(olds + [was], news + [now], r)
    ensures Prepend([], [], r) == r
    ensures Prepend(olds, news, Ok(([], []))) == Ok((olds, news))
  {
    if r.Ok? {
      assert olds + ([was] + r.value.0) == (olds + [was]) + r.value.0;
      assert news + ([now] + r.value.1) == (news + [now]) + r.value.1;
      assert [] + r.value.0 == r.value.0 && [] + r.value.1 == r.value.1;
    }
    assert olds + [] == olds && news + [] == news;
  }

  /** Separates the removals from the new images before anything is executed. */
  method SplitAll(pairs: seq<Json>) returns (r: Result<(seq<Json>, seq<Json>), Error>)
    ensures r == SplitPairs(pairs)
  {
    var oldRows: seq<Json>, newRows: seq<Json> := [], [];
    assert pairs[0..] == pairs;
    PrependTwice([], [], Null, Null, SplitPairs(pairs));
    for i := 0 to |pairs|
      invariant SplitPairs(pairs) == Prepend(oldRows, newRows, SplitPairs(pairs[i..]))
    {
      assert pairs[i..][0] == pairs[i] && pairs[i..][1..] == pairs[i + 1..];
      var was, now := Get(pairs[i], "old"), Get(pairs[i], "new");
      if was.None? {
        return Err(MissingOld);
      }
      if now.None? {
        return Err(MissingNew);
      }
      PrependTwice(oldRows, newRows, was.value, now.value, SplitPairs(pairs[i + 1..]));
      oldRows, newRows := oldRows + [was.value], newRows + [now.value];
    }
    PrependTwice(oldRows, newRows, Null, Null, Ok(([], [])));
    return Ok((oldRows, newRows));
  }
}
