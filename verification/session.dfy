/**
 One Postgres session and the FFI calls that run on it, as functions of the
 connection's state.  A call is atomic: the connection lock covers exactly one.
 Whether the server grants each request is an input.

 Server behaviour assumed here: a refused statement aborts the open transaction;
 COMMIT of an aborted transaction rolls back and reports success; a COMMIT or
 ROLLBACK that reports failure leaves no transaction behind and commits nothing;
 outside a transaction every statement commits by itself.
 */
module Session {
  import opened Wrappers
  import opened Rows
  import opened Core
  import opened Dml

  // The frozen pair (T, S) of a table.
  datatype Cut = Cut(tier: int, snapshot: int)

  datatype PinRow = PinRow(table: int, cut: Cut)

  datatype Db = Db(tables: map<int, Tables>, pins: map<nat, PinRow>)

  datatype Txn = NoTxn | Open(work: Db) | Aborted

  // `inTxn` is the client's own flag, `txn` what the server holds.
  datatype ConnState = ConnState(committed: Db, txn: Txn, inTxn: bool, nextPin: nat)

  function Visible(c: ConnState): Db {
    if c.txn.Open? then c.txn.work else c.committed
  }

  function Effect(c: ConnState, db: Db): ConnState {
    match c.txn
    case NoTxn => c.(committed := db)
    case Open(_) => c.(txn := Open(db))
    case Aborted => c
  }

  function Abort(c: ConnState): ConnState {
    if c.txn.Open? then c.(txn := Aborted) else c
  }

  function Begin(c: ConnState): ConnState {
    if c.txn.NoTxn? then c.(txn := Open(c.committed)) else c
  }

  function Commit(c: ConnState): ConnState {
    if c.txn.Open? then c.(committed := c.txn.work, txn := NoTxn) else c.(txn := NoTxn)
  }

  function Rollback(c: ConnState): ConnState {
    c.(txn := NoTxn)
  }

  // ---------- the write transaction ----------

  function TxnBegin(c: ConnState, granted: bool): (ConnState, bool) {
    if c.inTxn then (c, true)
    else if !granted then (c, false)
    else (Begin(c).(inTxn := true), true)
  }

  function TxnCommit(c: ConnState, granted: bool): (ConnState, bool) {
    if !c.inTxn then (c, true)
    else if !granted then (Rollback(c), false)
    else (Commit(c).(inTxn := false), true)
  }

  function TxnRollback(c: ConnState, granted: bool): (ConnState, bool) {
    if !c.inTxn then (c, true)
    else if !granted then (Rollback(c), false)
    else (Rollback(c).(inTxn := false), true)
  }

  // ---------- read pins ----------

  // What a scan reads: hot only without a cut-line, else the merge frozen at it.
  datatype Scan = Scan(table: int, cut: Option<Cut>, pin: Option<nat>)

  datatype Reply =
    | Granted
    | LookupRefused      // a catalog query
    | Rejected           // no SQL involved: unknown table, no live catalog
    | BeginRefused
    | PinRefused         // the cut-line query or the pin insert
    | RenderFails        // after the pin row is in
    | CommitRefused

  function PinAndRender(c: ConnState, table: int, cut: Option<Cut>, reply: Reply): (ConnState, Option<Scan>) {
    if c.txn.Aborted? || reply.PinRefused? then (Abort(c), None)
    else
      match cut
      case None => (c, if reply.RenderFails? then None else Some(Scan(table, None, None)))
      case Some(at) =>
        var db := Visible(c);
        var pinned := Effect(c, db.(pins := db.pins[c.nextPin := PinRow(table, at)])).(nextPin := c.nextPin + 1);
        (pinned, if reply.RenderFails? then None else Some(Scan(table, cut, Some(c.nextPin))))
  }

  function AcquireScan(c: ConnState, table: int, cut: Option<Cut>, reply: Reply): (ConnState, Option<Scan>) {
    if c.txn.Aborted? || reply.LookupRefused? then (Abort(c), None)
    else if reply.Rejected? then (c, None)
    else if c.inTxn then PinAndRender(c, table, cut, reply)
    else if reply.BeginRefused? then (c, None)
    else
      var (p, scan) := PinAndRender(Begin(c), table, cut, reply);
      if scan.None? || reply.CommitRefused? then (Rollback(p), None) else (Commit(p), scan)
  }

  function ReleasePin(c: ConnState, pin: nat, granted: bool): (ConnState, bool) {
    if c.txn.Aborted? || !granted then (Abort(c), false)
    else
      var db := Visible(c);
      (Effect(c, db.(pins := db.pins - {pin})), true)
  }

  // ---------- a DML chunk ----------

  function SetTable(c: ConnState, table: int, t: Tables): ConnState {
    var db := Visible(c);
    Effect(c, db.(tables := db.tables[table := t]))
  }

  // A row step or a leg leaves its tables behind, also when it fails; a refused
  // statement aborts on top of that.
  function AfterRow<A>(c: ConnState, table: int, o: Outcome<A>): ConnState {
    var ran := SetTable(c, table, o.work.t);
    if o.err == Some(StatementFailed) then Abort(ran) else ran
  }

  function AfterLeg(c: ConnState, table: int, leg: LegResult): ConnState {
    var ran := SetTable(c, table, leg.t);
    if leg.lake == Err(StatementFailed) then Abort(ran) else ran
  }

  function RunChunk(c: ConnState, table: int, cx: Ctx, dml: Dml, granted: bool)
    : (ConnState, Result<seq<LakeStmt>, Error>)
  {
    if c.txn.Aborted? || !granted then (Abort(c), Err(StatementFailed))
    else if table !in Visible(c).tables then (c, Err(NotRegistered))
    else
      var leg := Chunk(cx, Visible(c).tables[table], dml);
      (AfterLeg(c, table, leg), leg.lake)
  }
}
