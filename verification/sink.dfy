/**
 A sink takes one chunk: it opens the write transaction, runs the chunk on the
 connection and only then the chunk's lake statements.
 */
module Sink {
  import opened Wrappers
  import opened Rows
  import opened Core
  import opened Dml
  import opened Connection
  import opened Transaction
  import opened LakeExec
  import opened Payload
  import opened Serial
  import S = Session
  import T = TxnSpec

  // How the servers answer while one chunk is taken in.
  datatype Answers = Answers(begin: bool, lookup: bool, attach: bool, lake: Replies)

  datatype Shared = Shared(x: T.TxnState, c: S.ConnState, lake: LakeState)

  function Take(s: Shared, table: int, cx: Ctx, dml: Dml, a: Answers): (Shared, bool) {
    var (x, c, begun) := T.EnsureWriteTxn(s.x, s.c, a.begin);
    if !begun then (Shared(x, c, s.lake), false)
    else
      var (d, lake) := S.RunChunk(c, table, cx, dml, a.lookup);
      match lake
      case Err(_) => (Shared(x, d, s.lake), false)
      case Ok(stmts) =>
        var (after, ok) := ExecuteLake(s.lake, stmts, a.attach, a.lake);
        (Shared(x, d, after), ok)
  }

  method UpdateSink(transaction: TierDBTransaction, conn: Conn, lakeDb: LakeDb, table: int, cx: Ctx,
                    chunk: seq<seq<Json>>, width: nat, newIndexes: seq<nat>,
                    newNames: seq<string>, oldNames: seq<string>,
                    a: Answers, updateCount: nat)
    returns (ok: bool, count: nat, ghost pairs: seq<Json>)
    requires |newIndexes| == |newNames| && |oldNames| <= width
    requires (forall row <- chunk :: |row| == width) && InRange(newIndexes, width)
    modifies transaction, conn, lakeDb
    ensures |pairs| == |chunk|
    ensures forall r :: 0 <= r < |chunk| ==>
              && Get(pairs[r], "old") == Some(Object(ObjectOf(oldNames, chunk[r][width - |oldNames|..])))
              && Get(pairs[r], "new") == Some(Object(ObjectOf(newNames, Pick(chunk[r], newIndexes))))
    ensures var before := Shared(old(transaction.State()), old(conn.State()), old(lakeDb.State()));
            (Shared(transaction.State(), conn.State(), lakeDb.State()), ok) ==
            if chunk == [] then (before, true) else Take(before, table, cx, Update(pairs), a)
    ensures count == if ok then updateCount + |chunk| else updateCount
  {
    count, pairs := updateCount, [];
    if |chunk| == 0 {
      return true, count, pairs;
    }
    var payload := BuildUpdatePayload(chunk, width, newIndexes, newNames, oldNames);
    pairs := payload;
    ok := transaction.EnsureWriteTxn(conn, a.begin);
    if !ok {
      return;
    }
    var updated, lake := conn.UpdateChunk(cx, table, payload, a.lookup);
    if lake.Err? {
      return false, count, pairs;
    }
    var err := lakeDb.ExecuteLakeDml(lake.value, a.attach, a.lake);
    ok := err.None?;
    if ok {
      count := count + updated;
    }
  }

  method DeleteSink(transaction: TierDBTransaction, conn: Conn, lakeDb: LakeDb, table: int, cx: Ctx,
                    chunk: seq<seq<Json>>, keyIndexes: seq<nat>, keyNames: seq<string>, a: Answers, deleteCount: nat)
    returns (ok: bool, count: nat, ghost keys: seq<Json>)
    requires |keyIndexes| == |keyNames|
    requires forall row <- chunk :: InRange(keyIndexes, |row|)
    modifies transaction, conn, lakeDb
    ensures |keys| == |chunk|
    ensures forall r :: 0 <= r < |chunk| ==> keys[r] == Object(ObjectOf(keyNames, Pick(chunk[r], keyIndexes)))
    ensures var before := Shared(old(transaction.State()), old(conn.State()), old(lakeDb.State()));
            (Shared(transaction.State(), conn.State(), lakeDb.State()), ok) ==
            if chunk == [] then (before, true) else Take(before, table, cx, Delete(keys), a)
    ensures count == if ok then deleteCount + |chunk| else deleteCount
  {
    count, keys := deleteCount, [];
    if |chunk| == 0 {
      return true, count, keys;
    }
    var payload := KeysToJsonArray(chunk, keyIndexes, keyNames);
    keys := payload;
    ok := transaction.EnsureWriteTxn(conn, a.begin);
    if !ok {
      return;
    }
    var deleted, lake := conn.DeleteChunk(cx, table, payload, a.lookup);
    if lake.Err? {
      return false, count, keys;
    }
    var err := lakeDb.ExecuteLakeDml(lake.value, a.attach, a.lake);
    ok := err.None?;
    if ok {
      count := count + deleted;
    }
  }

  // ---------- ordering between heap and lake ----------

  // The connection once the write transaction is there.
  function Begun(s: Shared, a: Answers): S.ConnState {
    T.EnsureWriteTxn(s.x, s.c, a.begin).1
  }

  // The whole chunk goes through: begun, looked up, every row planned and every
  // Postgres statement granted.
  predicate GoesThrough(s: Shared, table: int, cx: Ctx, dml: Dml, a: Answers) {
    && T.EnsureWriteTxn(s.x, s.c, a.begin).2 && a.lookup
    && !Begun(s, a).txn.Aborted? && table in S.Visible(Begun(s, a)).tables
    && Chunk(cx, S.Visible(Begun(s, a)).tables[table], dml).lake.Ok?
  }

  /** A lake statement is sent if and only if the chunk went through, has lake
      statements and its catalog could be attached.  Then its tables are complete,
      and the statements that took effect are the longest prefix that can land;
      otherwise the lake sees nothing at all.  The call succeeds exactly when all of
      them landed. */
  lemma LakeMovesLast(s: Shared, table: int, cx: Ctx, dml: Dml, a: Answers)
    ensures var (after, ok) := Take(s, table, cx, dml, a);
            var sent := after.lake.executions > s.lake.executions;
            && (sent ==> GoesThrough(s, table, cx, dml, a))
            && (!GoesThrough(s, table, cx, dml, a) ==> after.lake == s.lake && !ok)
            && (GoesThrough(s, table, cx, dml, a) ==>
                  var leg := Chunk(cx, S.Visible(Begun(s, a)).tables[table], dml);
                  var stmts := leg.lake.value;
                  var k := LandedCount(|stmts|, a.lake, 0);
                  && after.c == S.SetTable(Begun(s, a), table, leg.t)
                  && (sent <==> stmts != [] && a.attach)
                  && after.lake.executions <= s.lake.executions + MAX_ATTEMPTS * |stmts|
                  && k <= |stmts|
                  && (ok <==> stmts == [] || (a.attach && k == |stmts|))
                  && after.lake.effective == s.lake.effective + (if a.attach then stmts[..k] else [])
                  && after.lake.rows == ApplyAll(s.lake.rows, if a.attach then stmts[..k] else []))
  {
    if GoesThrough(s, table, cx, dml, a) {
      var stmts := Chunk(cx, S.Visible(Begun(s, a)).tables[table], dml).lake.value;
      LandedCountIsPrefix(|stmts|, a.lake, 0);
      SentCountBounds(|stmts|, a.lake, 0);
      assert s.lake.effective + [] == s.lake.effective;
      if stmts == [] {
        assert stmts[..0] == [];
      }
    }
  }

  /** A chunk that is rejected keeps the write transaction open with what it had
      executed, or aborted if a statement was refused; without a write transaction or
      a granted lookup the table is not even reached. */
  lemma RejectedChunkLeaves(s: Shared, table: int, cx: Ctx, dml: Dml, a: Answers)
    requires !GoesThrough(s, table, cx, dml, a)
    ensures var (after, ok) := Take(s, table, cx, dml, a);
            var begun, at := T.EnsureWriteTxn(s.x, s.c, a.begin).2, Begun(s, a);
            && !ok && after.lake == s.lake && (after.x.writeActive <==> begun)
            && (!begun ==> after.c == s.c && after.x == s.x)
            && (begun && (!a.lookup || at.txn.Aborted?) ==>
                  after.c == if at.txn.Open? then at.(txn := S.Aborted) else at)
            && (begun && a.lookup && !at.txn.Aborted? ==>
                  after.c ==
                  if table !in S.Visible(at).tables then at
                  else
                    var leg := Chunk(cx, S.Visible(at).tables[table], dml);
                    if leg.lake == Err(StatementFailed) && at.txn.Open? then at.(txn := S.Aborted)
                    else S.SetTable(at, table, leg.t))
  {
  }

  /** For an update this holds even when the removals went through, and their lake
      statement was built, before a write failed: no statement is sent. */
  lemma RejectedUpdateSparesLake(s: Shared, table: int, cx: Ctx, pairs: seq<Json>, a: Answers)
    requires table in S.Visible(Begun(s, a)).tables
    requires SplitPairs(pairs).Ok?
    requires var t := S.Visible(Begun(s, a)).tables[table];
             var (olds, news) := SplitPairs(pairs).value;
             var d := DeleteLeg(cx, t, 0, olds);
             d.lake.Ok? && d.lake.value != [] && WriteLeg(cx, d.t, d.ran, news).lake.Err?
    ensures Take(s, table, cx, Update(pairs), a).0.lake == s.lake && !Take(s, table, cx, Update(pairs), a).1
  {
    LakeMovesLast(s, table, cx, Update(pairs), a);
  }

  // ---------- a whole transaction, rolled back ----------

  // What a transaction does before it ends: its scans, and the chunks of its
  // statements.  It goes on after an error.
  datatype Call =
    | ScanCall(table: int, cut: Option<S.Cut>, reply: S.Reply)
    | ChunkCall(table: int, cx: Ctx, dml: Dml, a: Answers)

  function TakeCall(s: Shared, call: Call): Shared {
    match call
    case ScanCall(table, cut, reply) =>
      var (x, c, _) := T.GetPinnedScan(s.x, s.c, table, cut, reply);
      Shared(x, c, s.lake)
    case ChunkCall(table, cx, dml, a) => Take(s, table, cx, dml, a).0
  }

  function TakeAll(s: Shared, calls: seq<Call>): Shared
    decreases |calls|
  {
    if calls == [] then s else TakeCall(TakeAll(s, calls[..|calls| - 1]), calls[|calls| - 1])
  }

  // The lake statements of a call that take effect: of a chunk that goes through,
  // the longest prefix that can land.
  function Landing(s: Shared, call: Call): seq<LakeStmt> {
    match call
    case ScanCall(_, _, _) => []
    case ChunkCall(table, cx, dml, a) =>
      if GoesThrough(s, table, cx, dml, a) && a.attach then
        var stmts := Chunk(cx, S.Visible(Begun(s, a)).tables[table], dml).lake.value;
        LandedCountIsPrefix(|stmts|, a.lake, 0);
        stmts[..LandedCount(|stmts|, a.lake, 0)]
      else []
  }

  function LandingAll(s: Shared, calls: seq<Call>): seq<LakeStmt>
    decreases |calls|
  {
    if calls == [] then []
    else
      var before := calls[..|calls| - 1];
      LandingAll(s, before) + Landing(TakeAll(s, before), calls[|calls| - 1])
  }

  // The tables are those of the start, and without scans so are the pins.
  predicate TablesKept(s: Shared, v: Shared, scans: bool) {
    && (v.c.inTxn <==> v.x.writeActive) && (v.c.inTxn <==> !v.c.txn.NoTxn?)
    && v.c.committed.tables == s.c.committed.tables
    && (!scans ==> v.c.committed.pins == s.c.committed.pins && v.x.pins == s.x.pins)
  }

  lemma ScanKeepsTables(s: Shared, v: Shared, call: Call)
    requires call.ScanCall? && TablesKept(s, v, true)
    ensures TablesKept(s, TakeCall(v, call), true) && TakeCall(v, call).lake == v.lake
  {
  }

  lemma ChunkKeepsTables(s: Shared, v: Shared, call: Call, scans: bool)
    requires call.ChunkCall? && TablesKept(s, v, scans)
    ensures TablesKept(s, TakeCall(v, call), scans)
  {
  }

  lemma ChunkLands(v: Shared, call: Call)
    requires call.ChunkCall?
    ensures var after := TakeCall(v, call).lake;
            && after.effective == v.lake.effective + Landing(v, call)
            && after.rows == ApplyAll(v.lake.rows, Landing(v, call))
  {
    LakeMovesLast(v, call.table, call.cx, call.dml, call.a);
    assert v.lake.effective + [] == v.lake.effective;
  }

  predicate HasScan(calls: seq<Call>) {
    exists i :: 0 <= i < |calls| && calls[i].ScanCall?
  }

  lemma {:induction false} CallsKeepTables(s: Shared, calls: seq<Call>)
    requires TablesKept(s, s, false)
    ensures TablesKept(s, TakeAll(s, calls), HasScan(calls))
    decreases |calls|
  {
    if calls != [] {
      var before, call := calls[..|calls| - 1], calls[|calls| - 1];
      CallsKeepTables(s, before);
      assert forall i :: 0 <= i < |before| ==> before[i] == calls[i];
      if call.ScanCall? {
        ScanKeepsTables(s, TakeAll(s, before), call);
      } else {
        ChunkKeepsTables(s, TakeAll(s, before), call, HasScan(calls));
      }
    }
  }

  lemma {:induction false} CallsLand(s: Shared, calls: seq<Call>)
    ensures var after := TakeAll(s, calls).lake;
            && after.effective == s.lake.effective + LandingAll(s, calls)
            && after.rows == ApplyAll(s.lake.rows, LandingAll(s, calls))
    decreases |calls|
  {
    if calls != [] {
      var before, call := calls[..|calls| - 1], calls[|calls| - 1];
      var v := TakeAll(s, before);
      CallsLand(s, before);
      if call.ChunkCall? {
        ChunkLands(v, call);
      }
      ApplyAllConcat(s.lake.rows, LandingAll(s, before), Landing(v, call));
      Reassociate(s.lake.effective, LandingAll(s, before), Landing(v, call));
    }
  }

  lemma Reassociate(a: seq<LakeStmt>, b: seq<LakeStmt>, c: seq<LakeStmt>)
    ensures (a + b) + c == a + (b + c)
  {
  }

  /** Lake statements are not undone.  A transaction that has not written yet takes
      any number of scans and chunks, accepted, rejected or failing half-way in the
      lake, and is then rolled back: heap and delta are those of its start, while
      the lake has gained what landed of every chunk, in order. */
  lemma RollbackKeepsLakePrefix(s: Shared, calls: seq<Call>, e: T.Ending)
    requires !s.x.writeActive && !s.c.inTxn && s.c.txn.NoTxn?
    ensures var after := TakeAll(s, calls);
            var d := T.RollbackTransaction(after.x, after.c, e).1;
            && d.committed.tables == s.c.committed.tables
            && d.txn.NoTxn? && (e.rollback ==> !d.inTxn)
            && (!HasScan(calls) ==> d.committed.pins == s.c.committed.pins - Released(s.x.pins, e.refused))
            && after.lake.effective == s.lake.effective + LandingAll(s, calls)
            && after.lake.rows == ApplyAll(s.lake.rows, LandingAll(s, calls))
  {
    CallsKeepTables(s, calls);
    CallsLand(s, calls);
    var after := TakeAll(s, calls);
    ReleaseAllExact(T.RollbackWrite(after.x, after.c, e.rollback).1, after.x.pins, e.refused);
  }
}
