/**
 When a scan is served, and what it leaves in the pin table: outside a write
 transaction, inside one, and on a connection that only believes it is in one.
 */
module Acquire {
  import opened Wrappers
  import opened Interleaving
  import S = Session
  import T = TxnSpec

  function PinnedAt(pins: map<nat, S.PinRow>, id: nat, table: int, cut: Option<S.Cut>): map<nat, S.PinRow> {
    if cut.Some? then pins[id := S.PinRow(table, cut.value)] else pins
  }

  function FullScan(table: int, cut: Option<S.Cut>, id: nat): S.Scan {
    S.Scan(table, cut, if cut.Some? then Some(id) else None)
  }

  /** Outside a write transaction a scan is served if and only if every call is
      granted; its pin row is then committed, and on any refusal, that of the final
      COMMIT included, there is neither a scan nor a row.  No transaction is left
      and no table data has changed. */
  lemma OwnScan(c: S.ConnState, table: int, cut: Option<S.Cut>, reply: S.Reply)
    requires c.txn.NoTxn? && !c.inTxn
    ensures var (d, scan) := S.AcquireScan(c, table, cut, reply);
            && scan == (if reply == S.Granted then Some(FullScan(table, cut, c.nextPin)) else None)
            && d.txn.NoTxn? && !d.inTxn
            && d.committed.tables == c.committed.tables
            && d.committed.pins ==
               (if reply == S.Granted then PinnedAt(c.committed.pins, c.nextPin, table, cut) else c.committed.pins)
            && c.nextPin <= d.nextPin && (scan.Some? && cut.Some? ==> c.nextPin < d.nextPin)
  {
  }

  /** Inside an open write transaction no BEGIN or COMMIT is asked for, so only a
      refused query, a rejection or a failed rendering deny the scan.  The pin row is
      pending with the writes, also when the rendering fails afterwards; a refused
      query aborts the whole transaction. */
  lemma JoinedScan(c: S.ConnState, table: int, cut: Option<S.Cut>, reply: S.Reply)
    requires c.txn.Open? && c.inTxn
    ensures var (d, scan) := S.AcquireScan(c, table, cut, reply);
            && scan == (if reply in {S.LookupRefused, S.Rejected, S.PinRefused, S.RenderFails} then None
                        else Some(FullScan(table, cut, c.nextPin)))
            && d.committed == c.committed && d.inTxn
            && (d.txn == S.Aborted <==> reply in {S.LookupRefused, S.PinRefused})
            && (d.txn.Open? <==> reply !in {S.LookupRefused, S.PinRefused})
            && (d.txn.Open? ==>
                  && d.txn.work.tables == c.txn.work.tables
                  && d.txn.work.pins ==
                     (if reply == S.Rejected then c.txn.work.pins
                      else PinnedAt(c.txn.work.pins, c.nextPin, table, cut)))
            && c.nextPin <= d.nextPin && (scan.Some? && cut.Some? ==> c.nextPin < d.nextPin)
  {
  }

  /** In an aborted transaction no scan is served, and nothing changes. */
  lemma AbortedScan(c: S.ConnState, table: int, cut: Option<S.Cut>, reply: S.Reply)
    requires c.txn.Aborted?
    ensures S.AcquireScan(c, table, cut, reply) == (c, None)
  {
  }

  /** With a stale flag the scan joins a transaction that is not there: its pin row
      is committed at once, also when the rendering then fails. */
  lemma StaleScan(c: S.ConnState, table: int, cut: Option<S.Cut>, reply: S.Reply)
    requires c.txn.NoTxn? && c.inTxn
    ensures var (d, scan) := S.AcquireScan(c, table, cut, reply);
            && scan == (if reply in {S.LookupRefused, S.Rejected, S.PinRefused, S.RenderFails} then None
                        else Some(FullScan(table, cut, c.nextPin)))
            && d.txn.NoTxn? && d.inTxn
            && d.committed.tables == c.committed.tables
            && d.committed.pins ==
               (if reply in {S.LookupRefused, S.Rejected, S.PinRefused} then c.committed.pins
                else PinnedAt(c.committed.pins, c.nextPin, table, cut))
  {
  }

  /** The first scan of a table reads the cut-line of that moment, and it is kept
      together with its pin; the other tables' scans stay as they are. */
  lemma FirstScanIsKept(w: World, id: int, table: int)
    requires IsActive(w, id) && table !in w.clients[id].x.scans
    requires w.conn.inTxn == w.conn.txn.Open? == !w.conn.txn.NoTxn?
    ensures var v := Step(w, Scan(id, table, S.Granted));
            var x := w.clients[id].x;
            && IsActive(v, id)
            && v.clients[id].x.scans == x.scans[table := FullScan(table, CutOf(w, table), w.conn.nextPin)]
            && v.clients[id].x.pins == x.pins + (if table in w.cutlines then [w.conn.nextPin] else [])
            && v.clients[id].x.writeActive == x.writeActive
            && S.Visible(v.conn).pins == PinnedAt(S.Visible(w.conn).pins, w.conn.nextPin, table, CutOf(w, table))
  {
    if w.conn.txn.NoTxn? {
      OwnScan(w.conn, table, CutOf(w, table), S.Granted);
    } else {
      JoinedScan(w.conn, table, CutOf(w, table), S.Granted);
    }
    assert w.clients[id].x.pins + [] == w.clients[id].x.pins;
  }
}
