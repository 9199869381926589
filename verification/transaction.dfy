/**
 The transaction and transaction-manager objects.  Each method is proved to have
 the effect of its function in TxnSpec.
 */
module Transaction {
  import opened Wrappers
  import opened Connection
  import S = Session
  import T = TxnSpec

  class TierDBTransaction {
    var writeActive: bool
    var pins: seq<nat>
    var scanByTable: map<int, S.Scan>

    constructor ()
      ensures State() == T.FRESH
    {
      writeActive, pins, scanByTable := false, [], map[];
    }

    function State(): T.TxnState
      reads this
    {
      T.TxnState(writeActive, pins, scanByTable)
    }

    method GetPinnedScan(conn: Conn, table: int, cut: Option<S.Cut>, reply: S.Reply) returns (scan: Option<S.Scan>)
      modifies this, conn
      ensures (State(), conn.State(), scan) == T.GetPinnedScan(old(State()), old(conn.State()), table, cut, reply)
    {
      if table in scanByTable {
        return Some(scanByTable[table]);
      }
      scan := conn.AcquireScan(table, cut, reply);
      if scan.None? {
        return;
      }
      if scan.value.pin.Some? {
        pins := pins + [scan.value.pin.value];
      }
      scanByTable := scanByTable[table := scan.value];
    }

    method ReleasePins(conn: Conn, refused: set<nat>) returns (ok: bool)
      modifies this, conn
      ensures (State(), conn.State(), ok) == T.ReleasePins(old(State()), old(conn.State()), refused)
    {
      var toRelease := pins;
      pins, scanByTable := [], map[];
      ghost var all := T.ReleaseAll(conn.State(), toRelease, refused);
      for i := 0 to |toRelease|
        invariant State() == old(State()).(pins := [], scans := map[])
        invariant T.ReleaseAll(conn.State(), toRelease[i..], refused) == all
      {
        assert toRelease[i..][1..] == toRelease[i + 1..];
        ok := conn.ReleasePin(toRelease[i], toRelease[i] !in refused);
        if !ok {
          return;
        }
      }
      ok := true;
    }

    method EnsureWriteTxn(conn: Conn, granted: bool) returns (ok: bool)
      modifies this, conn
      ensures (State(), conn.State(), ok) == T.EnsureWriteTxn(old(State()), old(conn.State()), granted)
    {
      if writeActive {
        return true;
      }
      ok := conn.TxnBegin(granted);
      if ok {
        writeActive := true;
      }
    }

    method CommitWrite(conn: Conn, granted: bool) returns (ok: bool)
      modifies this, conn
      ensures (State(), conn.State(), ok) == T.CommitWrite(old(State()), old(conn.State()), granted)
    {
      if !writeActive {
        return true;
      }
      writeActive := false;
      ok := conn.TxnCommit(granted);
    }

    method RollbackWrite(conn: Conn, granted: bool) returns (ok: bool)
      modifies this, conn
      ensures (State(), conn.State(), ok) == T.RollbackWrite(old(State()), old(conn.State()), granted)
    {
      if !writeActive {
        return true;
      }
      writeActive := false;
      ok := conn.TxnRollback(granted);
    }
  }

  class TransactionManager {
    const conn: Conn
    var transactions: set<TierDBTransaction>

    constructor (conn: Conn)
      ensures this.conn == conn && transactions == {}
    {
      this.conn := conn;
      transactions := {};
    }

    method StartTransaction() returns (transaction: TierDBTransaction)
      modifies this
      ensures fresh(transaction) && transaction.State() == T.FRESH
      ensures transactions == old(transactions) + {transaction}
    {
      transaction := new TierDBTransaction();
      transactions := transactions + {transaction};
    }

    method CommitTransaction(transaction: TierDBTransaction, e: T.Ending) returns (error: Option<T.Failure>)
      modifies this, conn, transaction
      ensures (transaction.State(), conn.State(), error) ==
              T.CommitTransaction(old(transaction.State()), old(conn.State()), e)
      ensures transactions == old(transactions) - {transaction}
    {
      error := None;
      var committed := transaction.CommitWrite(conn, e.commit);
      if !committed {
        error := Some(T.WriteNotCommitted);
        var _ := transaction.RollbackWrite(conn, e.rollback);
      }
      var released := transaction.ReleasePins(conn, e.refused);
      if !released && error.None? {
        error := Some(T.PinNotReleased);
      }
      transactions := transactions - {transaction};
    }

    method RollbackTransaction(transaction: TierDBTransaction, e: T.Ending)
      modifies this, conn, transaction
      ensures (transaction.State(), conn.State()) ==
              T.RollbackTransaction(old(transaction.State()), old(conn.State()), e)
      ensures transactions == old(transactions) - {transaction}
    {
      var _ := transaction.RollbackWrite(conn, e.rollback);
      var _ := transaction.ReleasePins(conn, e.refused);
      transactions := transactions - {transaction};
    }
  }
}
