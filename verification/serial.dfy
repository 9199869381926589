/**
 One transaction after the other on the connection: read pins are conserved, and
 what a COMMIT that reports failure leaves behind.
 */
module Serial {
  import opened Wrappers
  import opened Dml
  import S = Session
  import T = TxnSpec

  datatype Op =
    | ScanOp(table: int, cut: Option<S.Cut>, reply: S.Reply)
    | WriteOp(table: int, cx: Ctx, dml: Dml, begin: bool, lookup: bool)

  function DoOp(x: T.TxnState, c: S.ConnState, op: Op): (T.TxnState, S.ConnState, bool) {
    match op
    case ScanOp(table, cut, reply) =>
      var (y, d, scan) := T.GetPinnedScan(x, c, table, cut, reply);
      (y, d, scan.Some?)
    case WriteOp(table, cx, dml, begin, lookup) =>
      var (y, d, ok) := T.EnsureWriteTxn(x, c, begin);
      if !ok then (y, d, false)
      else
        var (e, lake) := S.RunChunk(d, table, cx, dml, lookup);
        (y, e, lake.Ok?)
  }

  // Runs on after an error; the flag tells whether there was one.
  function DoOps(x: T.TxnState, c: S.ConnState, ops: seq<Op>): (T.TxnState, S.ConnState, bool)
    decreases |ops|
  {
    if ops == [] then (x, c, true)
    else
      var (y, d, ok) := DoOps(x, c, ops[..|ops| - 1]);
      var (z, e, last) := DoOp(y, d, ops[|ops| - 1]);
      (z, e, ok && last)
  }

  datatype Script = Script(ops: seq<Op>, commit: bool, ending: T.Ending)

  function Play(c: S.ConnState, s: Script): S.ConnState {
    var (x, d, _) := DoOps(T.FRESH, c, s.ops);
    if s.commit then T.CommitTransaction(x, d, s.ending).1 else T.RollbackTransaction(x, d, s.ending).1
  }

  // COMMIT and ROLLBACK succeed.
  predicate WellBehaved(s: Script) {
    s.ending.commit && s.ending.rollback
  }

  // Between transactions: nothing open, and the flags say so.
  predicate Idle(c: S.ConnState) {
    c.txn.NoTxn? && !c.inTxn && forall p <- c.committed.pins :: p < c.nextPin
  }

  // ---------- releasing ----------

  // The pins up to the first refusal, and those from it on.
  function Released(pins: seq<nat>, refused: set<nat>): set<nat> {
    if pins == [] || pins[0] in refused then {} else {pins[0]} + Released(pins[1..], refused)
  }

  function Unreleased(pins: seq<nat>, refused: set<nat>): seq<nat> {
    if pins == [] || pins[0] in refused then pins else Unreleased(pins[1..], refused)
  }

  lemma {:induction false} UnreleasedIsSuffix(pins: seq<nat>, refused: set<nat>)
    ensures var rest := Unreleased(pins, refused);
            && |rest| <= |pins| && rest == pins[|pins| - |rest|..]
            && (rest == [] || rest[0] in refused)
            && (forall i :: 0 <= i < |pins| - |rest| ==> pins[i] in Released(pins, refused))
            && (forall p <- Released(pins, refused) :: p in pins && p !in refused)
  {
    if pins != [] && pins[0] !in refused {
      UnreleasedIsSuffix(pins[1..], refused);
      forall i | 0 <= i < |pins| - |Unreleased(pins, refused)| ensures pins[i] in Released(pins, refused) {
        assert i > 0 ==> pins[i] == pins[1..][i - 1];
      }
    }
  }

  lemma ReleasedOrLeft(pins: seq<nat>, refused: set<nat>)
    ensures forall p <- pins :: p in Released(pins, refused) || p in Unreleased(pins, refused)
    ensures forall p <- Released(pins, refused) :: p in pins
  {
    UnreleasedIsSuffix(pins, refused);
    var rest := Unreleased(pins, refused);
    forall p | p in pins ensures p in Released(pins, refused) || p in rest {
      var i :| 0 <= i < |pins| && pins[i] == p;
      assert i >= |pins| - |rest| ==> rest[i - (|pins| - |rest|)] == p;
    }
  }

  /** Outside a transaction the loop removes exactly the pins before the first
      refusal, and nothing else changes. */
  lemma {:induction false} ReleaseAllExact(c: S.ConnState, pins: seq<nat>, refused: set<nat>)
    requires c.txn.NoTxn?
    ensures T.ReleaseAll(c, pins, refused) ==
            (c.(committed := c.committed.(pins := c.committed.pins - Released(pins, refused))),
             Unreleased(pins, refused) == [])
    decreases |pins|
  {
    if pins == [] || pins[0] in refused {
      assert c.committed.pins - {} == c.committed.pins;
    } else {
      var d := S.ReleasePin(c, pins[0], true).0;
      ReleaseAllExact(d, pins[1..], refused);
      assert d.committed.pins - Released(pins[1..], refused) == c.committed.pins - Released(pins, refused);
    }
  }

  // ---------- during a transaction ----------

  // A scan inside the open write transaction that fails after its pin insert.
  predicate FailsAfterPin(x: T.TxnState, c: S.ConnState, op: Op) {
    op.ScanOp? && op.table !in x.scans && op.reply.RenderFails? && op.cut.Some? && c.inTxn && c.txn.Open?
  }

  // The pins such scans have inserted.
  function Orphans(c: S.ConnState, ops: seq<Op>): set<nat>
    decreases |ops|
  {
    if ops == [] then {}
    else
      var before := ops[..|ops| - 1];
      var (x, d, _) := DoOps(T.FRESH, c, before);
      Orphans(c, before) + if FailsAfterPin(x, d, ops[|ops| - 1]) then {d.nextPin} else {}
  }

  function Taken(x: T.TxnState): set<nat> {
    set p | p in x.pins
  }

  // `pins` is the table at the start plus, at most, the rows of `own`.
  predicate OwnPins(before: map<nat, S.PinRow>, pins: map<nat, S.PinRow>, own: set<nat>) {
    && (forall p <- before :: p in pins && pins[p] == before[p])
    && (forall p <- pins :: p in before || p in own)
  }

  predicate Mid(c0: S.ConnState, x: T.TxnState, c: S.ConnState, orphans: set<nat>) {
    && (c.inTxn <==> x.writeActive) && (c.inTxn <==> !c.txn.NoTxn?)
    && c0.nextPin <= c.nextPin
    && (forall p <- Taken(x) + orphans :: c0.nextPin <= p < c.nextPin)
    && Taken(x) !! orphans && (c.txn.NoTxn? ==> orphans == {})
    && OwnPins(c0.committed.pins, c.committed.pins, Taken(x))
    && (c.txn.Open? ==> OwnPins(c0.committed.pins, c.txn.work.pins, Taken(x) + orphans)
                        && orphans <= c.txn.work.pins.Keys)
    && (forall p <- c.committed.pins :: p < c.nextPin)
  }

  lemma MidWriteOp(c0: S.ConnState, x: T.TxnState, c: S.ConnState, orphans: set<nat>, op: Op)
    requires Idle(c0) && Mid(c0, x, c, orphans) && op.WriteOp?
    ensures var (y, d, _) := DoOp(x, c, op); Mid(c0, y, d, orphans)
  {
  }

  // What a new scan does to the pin table: nothing, or one row under the next id,
  // in the open transaction or committed.
  predicate MayPin(c: S.ConnState, d: S.ConnState, pinned: bool) {
    && d.inTxn == c.inTxn && (d.txn.NoTxn? <==> c.txn.NoTxn?)
    && c.nextPin <= d.nextPin && (pinned ==> c.nextPin < d.nextPin)
    && d.committed.pins.Keys == c.committed.pins.Keys + (if pinned && c.txn.NoTxn? then {c.nextPin} else {})
    && (forall p <- c.committed.pins :: d.committed.pins[p] == c.committed.pins[p])
    && (d.txn.Open? ==>
          && c.txn.Open?
          && d.txn.work.pins.Keys == c.txn.work.pins.Keys + (if pinned then {c.nextPin} else {})
          && (forall p <- c.txn.work.pins :: p != c.nextPin ==> d.txn.work.pins[p] == c.txn.work.pins[p]))
  }

  lemma AcquirePins(c: S.ConnState, table: int, cut: Option<S.Cut>, reply: S.Reply)
    requires (c.inTxn <==> !c.txn.NoTxn?) && forall p <- c.committed.pins :: p < c.nextPin
    ensures var (d, scan) := S.AcquireScan(c, table, cut, reply);
            var failed := reply.RenderFails? && cut.Some? && c.txn.Open?;
            var taken := scan.Some? && scan.value.pin.Some?;
            && MayPin(c, d, taken || failed) && !(taken && failed)
            && (taken ==> scan.value.pin.value == c.nextPin)
  {
  }

  lemma MidTaken(c0: S.ConnState, x: T.TxnState, y: T.TxnState, c: S.ConnState, d: S.ConnState, orphans: set<nat>)
    requires Idle(c0) && Mid(c0, x, c, orphans) && MayPin(c, d, true)
    requires y.writeActive == x.writeActive && Taken(y) == Taken(x) + {c.nextPin}
    ensures Mid(c0, y, d, orphans)
  {
  }

  lemma MidFailed(c0: S.ConnState, x: T.TxnState, c: S.ConnState, d: S.ConnState, orphans: set<nat>)
    requires Idle(c0) && Mid(c0, x, c, orphans) && MayPin(c, d, true) && c.txn.Open?
    ensures Mid(c0, x, d, orphans + {c.nextPin})
  {
  }

  lemma MidUnpinned(c0: S.ConnState, x: T.TxnState, y: T.TxnState, c: S.ConnState, d: S.ConnState, orphans: set<nat>)
    requires Idle(c0) && Mid(c0, x, c, orphans) && MayPin(c, d, false)
    requires y.writeActive == x.writeActive && y.pins == x.pins
    ensures Mid(c0, y, d, orphans)
  {
  }

  lemma MidScan(c0: S.ConnState, x: T.TxnState, c: S.ConnState, orphans: set<nat>, op: Op)
    requires Idle(c0) && Mid(c0, x, c, orphans) && op.ScanOp?
    ensures var (y, d, _) := DoOp(x, c, op);
            Mid(c0, y, d, orphans + if FailsAfterPin(x, c, op) then {c.nextPin} else {})
  {
    if op.table !in x.scans {
      var (y, d, scan) := T.GetPinnedScan(x, c, op.table, op.cut, op.reply);
      AcquirePins(c, op.table, op.cut, op.reply);
      if FailsAfterPin(x, c, op) {
        MidFailed(c0, x, c, d, orphans);
      } else if scan.Some? && scan.value.pin.Some? {
        assert Taken(y) == Taken(x) + {c.nextPin};
        MidTaken(c0, x, y, c, d, orphans);
      } else {
        MidUnpinned(c0, x, y, c, d, orphans);
      }
    }
    assert orphans + {} == orphans;
  }

  lemma {:induction false} MidOps(c: S.ConnState, ops: seq<Op>)
    requires Idle(c)
    ensures var (x, d, _) := DoOps(T.FRESH, c, ops); Mid(c, x, d, Orphans(c, ops))
    decreases |ops|
  {
    if ops != [] {
      var before, op := ops[..|ops| - 1], ops[|ops| - 1];
      var (y, d, _) := DoOps(T.FRESH, c, before);
      MidOps(c, before);
      if op.ScanOp? {
        MidScan(c, y, d, Orphans(c, before), op);
      } else {
        MidWriteOp(c, y, d, Orphans(c, before), op);
      }
    }
  }

  // ---------- conservation ----------

  // Pins the transaction took along but could not release.
  function Left(c: S.ConnState, s: Script): set<nat> {
    set p | p in Unreleased(DoOps(T.FRESH, c, s.ops).0.pins, s.ending.refused)
  }

  // Failed scans' pins that its COMMIT made durable.
  function Published(c: S.ConnState, s: Script): set<nat> {
    if s.commit && DoOps(T.FRESH, c, s.ops).1.txn.Open? then Orphans(c, s.ops) else {}
  }

  // The table afterwards: everything there before, every published row, and at
  // most the rows left behind.
  predicate Conserved(before: map<nat, S.PinRow>, after: map<nat, S.PinRow>, published: set<nat>, left: set<nat>) {
    && OwnPins(before, after, left + published)
    && published <= after.Keys && published !! before.Keys
  }

  lemma ConservedExactly(before: map<nat, S.PinRow>, after: map<nat, S.PinRow>, published: set<nat>)
    requires Conserved(before, after, published, {})
    ensures after.Keys == before.Keys + published
    ensures after == before <==> published == {}
  {
  }

  lemma PlayExact(c: S.ConnState, s: Script)
    requires Idle(c) && WellBehaved(s)
    ensures Idle(Play(c, s))
    ensures Conserved(c.committed.pins, Play(c, s).committed.pins, Published(c, s), Left(c, s))
  {
    var x, d := DoOps(T.FRESH, c, s.ops).0, DoOps(T.FRESH, c, s.ops).1;
    MidOps(c, s.ops);
    var d1 := Closed(x, d, s.commit);
    ClosedIsIdle(c, x, d, Orphans(c, s.ops), s.commit);
    ReleaseAllExact(d1, x.pins, s.ending.refused);
    ReleasedOrLeft(x.pins, s.ending.refused);
    assert Play(c, s) == T.ReleaseAll(d1, x.pins, s.ending.refused).0;
  }

  // The write transaction ended, the pins not yet released.
  function Closed(x: T.TxnState, c: S.ConnState, commit: bool): S.ConnState {
    if commit then T.CommitWrite(x, c, true).1 else T.RollbackWrite(x, c, true).1
  }

  lemma ClosedIsIdle(c0: S.ConnState, x: T.TxnState, c: S.ConnState, orphans: set<nat>, commit: bool)
    requires Idle(c0) && Mid(c0, x, c, orphans)
    ensures var d := Closed(x, c, commit);
            && d.txn.NoTxn? && !d.inTxn && d.nextPin == c.nextPin
            && Conserved(c0.committed.pins, d.committed.pins, if commit && c.txn.Open? then orphans else {}, Taken(x))
            && (forall p <- Taken(x) :: p !in c0.committed.pins && p < d.nextPin)
            && (forall p <- d.committed.pins :: p < d.nextPin)
  {
  }

  function PlayAll(c: S.ConnState, scripts: seq<Script>): S.ConnState
    decreases |scripts|
  {
    if scripts == [] then c else PlayAll(Play(c, scripts[0]), scripts[1..])
  }

  function LeftAll(c: S.ConnState, scripts: seq<Script>): set<nat>
    decreases |scripts|
  {
    if scripts == [] then {} else Left(c, scripts[0]) + LeftAll(Play(c, scripts[0]), scripts[1..])
  }

  function PublishedAll(c: S.ConnState, scripts: seq<Script>): set<nat>
    decreases |scripts|
  {
    if scripts == [] then {} else Published(c, scripts[0]) + PublishedAll(Play(c, scripts[0]), scripts[1..])
  }

  lemma Compose(before: map<nat, S.PinRow>, mid: map<nat, S.PinRow>, after: map<nat, S.PinRow>,
                p1: set<nat>, l1: set<nat>, p2: set<nat>, l2: set<nat>)
    requires Conserved(before, mid, p1, l1) && Conserved(mid, after, p2, l2)
    ensures Conserved(before, after, p1 + p2, l1 + l2)
  {
  }

  /** Pin conservation.  After any serialized run the pin table is what it was, plus
      exactly the failed scans' rows that a COMMIT published, plus at most the pins
      from a refused release on.  So with every release granted it is unchanged if
      and only if each transaction was rolled back, was aborted, or had no scan
      failing after its pin insert inside it. */
  lemma {:induction false} PinsConserved(c: S.ConnState, scripts: seq<Script>)
    requires Idle(c) && forall s <- scripts :: WellBehaved(s)
    ensures var d, left, published := PlayAll(c, scripts), LeftAll(c, scripts), PublishedAll(c, scripts);
            && Idle(d)
            && Conserved(c.committed.pins, d.committed.pins, published, left)
            && (left == {} ==> d.committed.pins.Keys == c.committed.pins.Keys + published)
            && (left == {} ==> (d.committed.pins == c.committed.pins <==> published == {}))
    decreases |scripts|
  {
    if scripts != [] {
      var s, mid := scripts[0], Play(c, scripts[0]);
      PlayExact(c, s);
      PinsConserved(mid, scripts[1..]);
      Compose(c.committed.pins, mid.committed.pins, PlayAll(c, scripts).committed.pins,
              Published(c, s), Left(c, s), PublishedAll(mid, scripts[1..]), LeftAll(mid, scripts[1..]));
    }
    if LeftAll(c, scripts) == {} {
      ConservedExactly(c.committed.pins, PlayAll(c, scripts).committed.pins, PublishedAll(c, scripts));
    }
  }

  /** The rollback after an error matters: a scan that fails once its pin row is in
      the write transaction leaves a pin nobody will release if that transaction
      is then committed. */
  lemma CommittedErrorLeaksPin(c: S.ConnState, table: int, at: S.Cut, e: T.Ending)
    requires Idle(c) && e.commit
    ensures var (x, d, _) := T.EnsureWriteTxn(T.FRESH, c, true);
            var (y, f, scan) := T.GetPinnedScan(x, d, table, Some(at), S.RenderFails);
            && scan == None && y.pins == []
            && c.nextPin !in c.committed.pins
            && c.nextPin in T.CommitTransaction(y, f, e).1.committed.pins
            && c.nextPin !in T.RollbackTransaction(y, f, e).1.committed.pins
  {
  }

  // ---------- what the manager reports ----------

  /** Ending a connection's transaction fails only when there is one to end and the
      server refuses; only a granted ending clears the flag. */
  lemma EndAnswers(c: S.ConnState, granted: bool)
    ensures S.TxnCommit(c, granted).1 <==> !c.inTxn || granted
    ensures S.TxnRollback(c, granted).1 <==> !c.inTxn || granted
    ensures S.TxnCommit(c, granted).0.inTxn <==> c.inTxn && !granted
    ensures S.TxnRollback(c, granted).0.inTxn <==> c.inTxn && !granted
  {
  }

  lemma {:induction false} AbortedReleases(c: S.ConnState, pins: seq<nat>, refused: set<nat>)
    requires c.txn.Aborted?
    ensures T.ReleaseAll(c, pins, refused).1 <==> pins == []
    decreases |pins|
  {
  }

  lemma {:induction false} ReleasesReport(c: S.ConnState, pins: seq<nat>, refused: set<nat>)
    requires !c.txn.Aborted?
    ensures T.ReleaseAll(c, pins, refused).1 <==> forall p <- pins :: p !in refused
    decreases |pins|
  {
    if pins != [] {
      assert pins == [pins[0]] + pins[1..];
      if pins[0] !in refused {
        ReleasesReport(S.ReleasePin(c, pins[0], true).0, pins[1..], refused);
      }
    }
  }

  /** A COMMIT reports an uncommitted write exactly when the transaction had written
      and Postgres refused; otherwise an unreleased pin exactly when a release was
      refused, or another's aborted transaction stood in the way; otherwise success.
      Either way the transaction is left blank. */
  lemma CommitReports(x: T.TxnState, c: S.ConnState, e: T.Ending)
    ensures var (y, d, failure) := T.CommitTransaction(x, c, e);
            var ends := x.writeActive && c.inTxn;
            var blocked := (exists p <- x.pins :: p in e.refused) || (!ends && c.txn.Aborted? && x.pins != []);
            && y == T.FRESH
            && (failure == Some(T.WriteNotCommitted) <==> ends && !e.commit)
            && (failure == Some(T.PinNotReleased) <==> !(ends && !e.commit) && blocked)
  {
    var ends := x.writeActive && c.inTxn;
    var (x1, c1, committed) := T.CommitWrite(x, c, e.commit);
    var c2 := if committed then c1 else T.RollbackWrite(x1, c1, e.rollback).1;
    assert c2.txn.Aborted? <==> !ends && c.txn.Aborted?;
    if c2.txn.Aborted? {
      AbortedReleases(c2, x.pins, e.refused);
      assert x.pins == [] ==> !exists p <- x.pins :: p in e.refused;
    } else {
      ReleasesReport(c2, x.pins, e.refused);
    }
  }

  // ---------- a COMMIT that reports failure ----------

  /** The transaction's flag is cleared before the call, so the manager's rollback
      returns early: the server holds nothing, yet the connection still believes
      it is inside a transaction. */
  lemma FailedCommitLeaves(x: T.TxnState, c: S.ConnState, e: T.Ending)
    requires x.writeActive && c.inTxn && c.txn.Open? && !e.commit
    ensures var (y, d, failure) := T.CommitTransaction(x, c, e);
            && failure == Some(T.WriteNotCommitted) && !y.writeActive
            && d.inTxn && d.txn.NoTxn?
            && d.committed.tables == c.committed.tables
            && d.committed.pins == c.committed.pins - Released(x.pins, e.refused)
  {
    ReleaseAllExact(S.Rollback(c), x.pins, e.refused);
  }

  // The chunks a script executes, in order, each on the tables the last one left.
  function FoldOps(tables: map<int, Tables>, ops: seq<Op>): map<int, Tables>
    decreases |ops|
  {
    if ops == [] then tables
    else
      var done, op := FoldOps(tables, ops[..|ops| - 1]), ops[|ops| - 1];
      if op.WriteOp? && op.lookup && op.table in done
      then done[op.table := Chunk(op.cx, done[op.table], op.dml).t]
      else done
  }

  // On a connection with no transaction open, whose flag says there is one or not.
  predicate Unguarded(c0: S.ConnState, x: T.TxnState, c: S.ConnState, ops: seq<Op>) {
    && (c0.inTxn ==> c.inTxn && c.txn.NoTxn? && c.committed.tables == FoldOps(c0.committed.tables, ops))
    && (!c0.inTxn ==> (c.inTxn <==> x.writeActive) && (c.inTxn <==> !c.txn.NoTxn?)
                      && c.committed.tables == c0.committed.tables)
  }

  lemma {:induction false} UnguardedOps(c: S.ConnState, ops: seq<Op>)
    requires c.txn.NoTxn?
    ensures var (x, d, _) := DoOps(T.FRESH, c, ops); Unguarded(c, x, d, ops)
    decreases |ops|
  {
    if ops != [] {
      var before := ops[..|ops| - 1];
      var (y, d, _) := DoOps(T.FRESH, c, before);
      UnguardedOps(c, before);
      if c.inTxn {
        ChunkCommitsAtOnce(y, d, ops[|ops| - 1]);
      } else {
        ChunkStaysInTxn(y, d, ops[|ops| - 1]);
      }
    }
  }

  lemma ChunkCommitsAtOnce(x: T.TxnState, c: S.ConnState, op: Op)
    requires c.inTxn && c.txn.NoTxn?
    ensures var (_, d, _) := DoOp(x, c, op);
            && d.inTxn && d.txn.NoTxn?
            && d.committed.tables ==
               (if op.WriteOp? && op.lookup && op.table in c.committed.tables
                then c.committed.tables[op.table := Chunk(op.cx, c.committed.tables[op.table], op.dml).t]
                else c.committed.tables)
  {
  }

  lemma ChunkStaysInTxn(x: T.TxnState, c: S.ConnState, op: Op)
    requires (c.inTxn <==> x.writeActive) && (c.inTxn <==> !c.txn.NoTxn?)
    ensures var (y, d, _) := DoOp(x, c, op);
            (d.inTxn <==> y.writeActive) && (d.inTxn <==> !d.txn.NoTxn?) && d.committed.tables == c.committed.tables
  {
  }

  /** When a transaction's ROLLBACK restores its start, whatever its script and
      however its ending is answered: if and only if the connection's flag was clear
      when it began, or its chunks change nothing.  With the flag set, every chunk
      is committed at once and the rollback takes nothing back.  A ROLLBACK that was
      issued clears the flag exactly when it is granted. */
  lemma RollbackRestoresIff(c: S.ConnState, s: Script)
    requires c.txn.NoTxn? && !s.commit
    ensures var before, after := c.committed.tables, Play(c, s).committed.tables;
            && (c.inTxn ==> after == FoldOps(before, s.ops))
            && (after == before <==> !c.inTxn || FoldOps(before, s.ops) == before)
    ensures Play(c, s).txn.NoTxn?
    ensures Play(c, s).inTxn <==>
            if DoOps(T.FRESH, c, s.ops).0.writeActive then !s.ending.rollback else c.inTxn
  {
    var x, d := DoOps(T.FRESH, c, s.ops).0, DoOps(T.FRESH, c, s.ops).1;
    UnguardedOps(c, s.ops);
    var d1 := T.RollbackWrite(x, d, s.ending.rollback).1;
    ReleaseAllExact(d1, x.pins, s.ending.refused);
    assert Play(c, s) == T.ReleaseAll(d1, x.pins, s.ending.refused).0;
  }

  /** So after a COMMIT that reports failure the next transaction, rolled back,
      has committed all its chunks. */
  lemma FailedCommitBreaksNextRollback(x: T.TxnState, c: S.ConnState, e: T.Ending, s: Script)
    requires x.writeActive && c.inTxn && c.txn.Open? && !e.commit && !s.commit
    ensures var d := T.CommitTransaction(x, c, e).1;
            Play(d, s).committed.tables == FoldOps(c.committed.tables, s.ops)
  {
    FailedCommitLeaves(x, c, e);
    RollbackRestoresIff(T.CommitTransaction(x, c, e).1, s);
  }
}
