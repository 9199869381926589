/**
 Frozen reads: whatever the other transactions and the cut-lines do, a
 transaction reads each table at the (T, S) of its first scan, and its pin list
 holds exactly the pins of its cached scans.
 */
module Frozen {
  import opened Wrappers
  import opened Interleaving
  import S = Session
  import T = TxnSpec

  // The pin list is the cached scans' pins, each once.
  ghost predicate PinsMatch(x: T.TxnState) {
    && (forall p <- x.pins :: exists t <- x.scans :: x.scans[t].pin == Some(p))
    && (forall t <- x.scans :: x.scans[t].pin.Some? ==> x.scans[t].pin.value in x.pins)
    && (forall i, j :: 0 <= i < j < |x.pins| ==> x.pins[i] != x.pins[j])
    && (forall t <- x.scans :: x.scans[t].table == t && (x.scans[t].pin.Some? <==> x.scans[t].cut.Some?))
  }

  // Every pin row still there carries the pair its scan reads.
  predicate RowsMatch(db: S.Db, x: T.TxnState) {
    forall t <- x.scans :: x.scans[t].pin.Some? && x.scans[t].cut.Some? && x.scans[t].pin.value in db.pins ==>
      db.pins[x.scans[t].pin.value] == S.PinRow(t, x.scans[t].cut.value)
  }

  predicate Below(pins: set<nat>, next: nat) {
    forall p <- pins :: p < next
  }

  predicate ConnBelow(c: S.ConnState) {
    Below(c.committed.pins.Keys, c.nextPin) && (c.txn.Open? ==> Below(c.txn.work.pins.Keys, c.nextPin))
  }

  predicate ConnRows(c: S.ConnState, x: T.TxnState) {
    RowsMatch(c.committed, x) && (c.txn.Open? ==> RowsMatch(c.txn.work, x))
  }

  predicate ScansBelow(c: S.ConnState, x: T.TxnState) {
    forall t <- x.scans :: x.scans[t].pin.Some? ==> x.scans[t].pin.value < c.nextPin
  }

  ghost predicate FrozenState(w: World) {
    && ConnBelow(w.conn)
    && forall id <- w.clients :: w.clients[id].Active? ==>
         PinsMatch(w.clients[id].x) && ScansBelow(w.conn, w.clients[id].x) && ConnRows(w.conn, w.clients[id].x)
  }

  // What any call may do to the pins: add rows under fresh ids, drop or restore old ones.
  predicate PinsGrow(before: S.ConnState, after: S.ConnState) {
    && before.nextPin <= after.nextPin
    && Old(before, after.committed) && (after.txn.Open? ==> Old(before, after.txn.work))
  }

  predicate Old(before: S.ConnState, db: S.Db) {
    forall p <- db.pins :: p < before.nextPin ==>
      (p in before.committed.pins && before.committed.pins[p] == db.pins[p]) ||
      (before.txn.Open? && p in before.txn.work.pins && before.txn.work.pins[p] == db.pins[p])
  }

  lemma GrowKeepsRows(before: S.ConnState, after: S.ConnState, x: T.TxnState)
    requires PinsGrow(before, after) && ConnRows(before, x) && ScansBelow(before, x)
    ensures ConnRows(after, x) && ScansBelow(after, x)
  {
  }

  lemma AcquireGrows(c: S.ConnState, table: int, cut: Option<S.Cut>, reply: S.Reply)
    requires ConnBelow(c)
    ensures var (d, scan) := S.AcquireScan(c, table, cut, reply);
            && PinsGrow(c, d) && ConnBelow(d)
            && (scan.Some? ==>
                  && scan.value.table == table && scan.value.cut == cut && (scan.value.pin.Some? <==> cut.Some?)
                  && (cut.Some? ==> scan.value.pin.value == c.nextPin < d.nextPin && NewRow(d, scan.value)))
  {
  }

  // The scan's pin row is there, in the open transaction or else committed.
  predicate NewRow(c: S.ConnState, scan: S.Scan)
    requires scan.pin.Some? && scan.cut.Some?
  {
    var row := S.PinRow(scan.table, scan.cut.value);
    && scan.pin.value in S.Visible(c).pins && S.Visible(c).pins[scan.pin.value] == row
    && (scan.pin.value in c.committed.pins ==> c.committed.pins[scan.pin.value] == row)
  }

  lemma ScanKeepsMatch(x: T.TxnState, c: S.ConnState, table: int, cut: Option<S.Cut>, reply: S.Reply)
    requires ConnBelow(c) && PinsMatch(x) && ScansBelow(c, x) && ConnRows(c, x)
    ensures var (y, d, _) := T.GetPinnedScan(x, c, table, cut, reply);
            PinsGrow(c, d) && ConnBelow(d) && PinsMatch(y) && ScansBelow(d, y) && ConnRows(d, y)
  {
    var (y, d, scan) := T.GetPinnedScan(x, c, table, cut, reply);
    if table !in x.scans {
      AcquireGrows(c, table, cut, reply);
      GrowKeepsRows(c, d, x);
      if scan.Some? {
        AddKeepsMatch(x, table, scan.value, c.nextPin);
      }
    }
  }

  lemma AddKeepsMatch(x: T.TxnState, table: int, scan: S.Scan, next: nat)
    requires PinsMatch(x) && table !in x.scans
    requires forall t <- x.scans :: x.scans[t].pin.Some? ==> x.scans[t].pin.value < next
    requires scan.table == table && (scan.pin.Some? <==> scan.cut.Some?) && (scan.pin.Some? ==> scan.pin.value == next)
    ensures PinsMatch(x.(pins := if scan.pin.Some? then x.pins + [scan.pin.value] else x.pins,
                         scans := x.scans[table := scan]))
  {
    var y := x.(pins := if scan.pin.Some? then x.pins + [scan.pin.value] else x.pins, scans := x.scans[table := scan]);
    forall p | p in x.pins ensures p < next && exists t <- y.scans :: y.scans[t].pin == Some(p) {
      var t :| t in x.scans && x.scans[t].pin == Some(p);
      assert y.scans[t].pin == Some(p);
    }
    assert y.scans[table].pin == scan.pin;
  }

  lemma StepGrows(w: World, a: Action)
    requires ConnBelow(w.conn)
    ensures PinsGrow(w.conn, Step(w, a).conn) && ConnBelow(Step(w, a).conn)
  {
    if a.Scan? && IsActive(w, a.id) && a.table !in w.clients[a.id].x.scans {
      AcquireGrows(w.conn, a.table, CutOf(w, a.table), a.reply);
    }
  }

  // A client of whom the step is not a scan keeps what it has scanned.
  lemma SameScans(w: World, a: Action, id: int)
    requires IsActive(Step(w, a), id) && !(a.Scan? && a.id == id)
    ensures var x := Step(w, a).clients[id].x;
            if IsActive(w, id) then x.pins == w.clients[id].x.pins && x.scans == w.clients[id].x.scans
            else x == T.FRESH
  {
  }

  lemma ClientStep(w: World, a: Action, id: int)
    requires FrozenState(w) && IsActive(Step(w, a), id) && !(a.Scan? && a.id == id)
    requires PinsGrow(w.conn, Step(w, a).conn)
    ensures var x := Step(w, a).clients[id].x;
            PinsMatch(x) && ScansBelow(Step(w, a).conn, x) && ConnRows(Step(w, a).conn, x)
  {
    SameScans(w, a, id);
    if IsActive(w, id) {
      GrowKeepsRows(w.conn, Step(w, a).conn, w.clients[id].x);
      SameFacts(w.clients[id].x, Step(w, a).clients[id].x, Step(w, a).conn);
    }
  }

  lemma SameFacts(x: T.TxnState, y: T.TxnState, c: S.ConnState)
    requires x.pins == y.pins && x.scans == y.scans
    requires PinsMatch(x) && ScansBelow(c, x) && ConnRows(c, x)
    ensures PinsMatch(y) && ScansBelow(c, y) && ConnRows(c, y)
  {
  }

  lemma FrozenStep(w: World, a: Action)
    requires FrozenState(w)
    ensures FrozenState(Step(w, a))
  {
    var v := Step(w, a);
    StepGrows(w, a);
    forall id | id in v.clients && v.clients[id].Active?
      ensures PinsMatch(v.clients[id].x) && ScansBelow(v.conn, v.clients[id].x) && ConnRows(v.conn, v.clients[id].x)
    {
      if a.Scan? && a.id == id {
        ScanKeepsMatch(w.clients[id].x, w.conn, a.table, CutOf(w, a.table), a.reply);
      } else {
        ClientStep(w, a, id);
      }
    }
  }

  lemma {:induction false} FrozenRun(w: World, actions: seq<Action>)
    requires FrozenState(w)
    ensures FrozenState(Run(w, actions))
    decreases |actions|
  {
    if actions != [] {
      FrozenRun(w, actions[..|actions| - 1]);
      FrozenStep(Run(w, actions[..|actions| - 1]), actions[|actions| - 1]);
    }
  }

  // ---------- every later scan is the first one ----------

  predicate StaysActive(id: int, a: Action) {
    a.EndCommit? || a.EndRollback? ==> a.id != id
  }

  lemma {:induction false} ScansStay(w: World, id: int, table: int, actions: seq<Action>)
    requires IsActive(w, id) && table in w.clients[id].x.scans
    requires forall a <- actions :: StaysActive(id, a)
    ensures IsActive(Run(w, actions), id)
    ensures var x := Run(w, actions).clients[id].x;
            table in x.scans && x.scans[table] == w.clients[id].x.scans[table]
    decreases |actions|
  {
    if actions != [] {
      var before, a := actions[..|actions| - 1], actions[|actions| - 1];
      assert StaysActive(id, a);
      ScansStay(w, id, table, before);
      ScanStays(Run(w, before), id, table, a);
    }
  }

  lemma ScanStays(w: World, id: int, table: int, a: Action)
    requires IsActive(w, id) && table in w.clients[id].x.scans && StaysActive(id, a)
    ensures IsActive(Step(w, a), id)
    ensures var x := Step(w, a).clients[id].x;
            table in x.scans && x.scans[table] == w.clients[id].x.scans[table]
  {
  }

  /** Once a table has been scanned, every scan of it until the transaction ends
      reads the same pair, the pin list is exactly the pins of the cached scans, and
      a pin row that is still there holds the pair its scan reads.  When it is still
      there is `Ledger.PinRowIffNotLost`. */
  lemma ReadsAreFrozen(w: World, id: int, table: int, actions: seq<Action>, cut: Option<S.Cut>, reply: S.Reply)
    requires FrozenState(w)
    requires IsActive(w, id) && table in w.clients[id].x.scans
    requires forall a <- actions :: StaysActive(id, a)
    ensures IsActive(Run(w, actions), id)
    ensures var v, first := Run(w, actions), w.clients[id].x.scans[table];
            && T.GetPinnedScan(v.clients[id].x, v.conn, table, cut, reply) == (v.clients[id].x, v.conn, Some(first))
            && PinsMatch(v.clients[id].x)
            && (first.pin.Some? <==> first.cut.Some?)
            && ConnRows(v.conn, v.clients[id].x)
  {
    FrozenRun(w, actions);
    ScansStay(w, id, table, actions);
  }

  /** The premise is met by every state reached from a fresh connection. */
  lemma ReachableIsFrozen(w: World, actions: seq<Action>)
    requires w.clients == map[] && ConnBelow(w.conn)
    ensures FrozenState(Run(w, actions))
  {
    FrozenRun(w, actions);
  }
}
