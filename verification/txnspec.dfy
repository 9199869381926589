/**
 A DuckDB transaction on the shared connection, as functions: the read pins it
 has taken, the frozen scan of each table, whether it has opened the write
 transaction, and how the transaction manager ends it.
 */
module TxnSpec {
  import opened Wrappers
  import S = Session

  datatype TxnState = TxnState(writeActive: bool, pins: seq<nat>, scans: map<int, S.Scan>)

  const FRESH := TxnState(false, [], map[])

  // ---------- each method as a function ----------

  function GetPinnedScan(x: TxnState, c: S.ConnState, table: int, cut: Option<S.Cut>, reply: S.Reply)
    : (TxnState, S.ConnState, Option<S.Scan>)
  {
    if table in x.scans then (x, c, Some(x.scans[table]))
    else
      var (d, scan) := S.AcquireScan(c, table, cut, reply);
      match scan
      case None => (x, d, None)
      case Some(s) =>
        (x.(pins := if s.pin.Some? then x.pins + [s.pin.value] else x.pins, scans := x.scans[table := s]), d, scan)
  }

  function EnsureWriteTxn(x: TxnState, c: S.ConnState, granted: bool): (TxnState, S.ConnState, bool) {
    if x.writeActive then (x, c, true)
    else
      var (d, ok) := S.TxnBegin(c, granted);
      (if ok then x.(writeActive := true) else x, d, ok)
  }

  // The flag is cleared before the call, whatever its outcome.
  function CommitWrite(x: TxnState, c: S.ConnState, granted: bool): (TxnState, S.ConnState, bool) {
    if !x.writeActive then (x, c, true)
    else var (d, ok) := S.TxnCommit(c, granted); (x.(writeActive := false), d, ok)
  }

  function RollbackWrite(x: TxnState, c: S.ConnState, granted: bool): (TxnState, S.ConnState, bool) {
    if !x.writeActive then (x, c, true)
    else var (d, ok) := S.TxnRollback(c, granted); (x.(writeActive := false), d, ok)
  }

  // Releases in order and stops at the first refusal.
  function ReleaseAll(c: S.ConnState, pins: seq<nat>, refused: set<nat>): (S.ConnState, bool)
    decreases |pins|
  {
    if pins == [] then (c, true)
    else
      var (d, ok) := S.ReleasePin(c, pins[0], pins[0] !in refused);
      if ok then ReleaseAll(d, pins[1..], refused) else (d, false)
  }

  function ReleasePins(x: TxnState, c: S.ConnState, refused: set<nat>): (TxnState, S.ConnState, bool) {
    var (d, ok) := ReleaseAll(c, x.pins, refused);
    (x.(pins := [], scans := map[]), d, ok)
  }

  // What the manager reports: the first error it met.
  datatype Failure = WriteNotCommitted | PinNotReleased

  // How the server treats the calls that end a transaction.
  datatype Ending = Ending(commit: bool, rollback: bool, refused: set<nat>)

  function CommitTransaction(x: TxnState, c: S.ConnState, e: Ending): (TxnState, S.ConnState, Option<Failure>) {
    var (x1, c1, committed) := CommitWrite(x, c, e.commit);
    var (x2, c2, _) := if committed then (x1, c1, true) else RollbackWrite(x1, c1, e.rollback);
    var (x3, c3, released) := ReleasePins(x2, c2, e.refused);
    (x3, c3, if !committed then Some(WriteNotCommitted) else if !released then Some(PinNotReleased) else None)
  }

  function RollbackTransaction(x: TxnState, c: S.ConnState, e: Ending): (TxnState, S.ConnState) {
    var (x1, c1, _) := RollbackWrite(x, c, e.rollback);
    var (x2, c2, _) := ReleasePins(x1, c1, e.refused);
    (x2, c2)
  }
}
