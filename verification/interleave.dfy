/**
 Any number of DuckDB transactions interleaving on the one shared connection,
 one FFI call per step, while the lake worker moves cut-lines at will.
 */
module Interleaving {
  import opened Wrappers
  import opened Rows
  import opened Dml
  import S = Session
  import T = TxnSpec

  // A transaction that has ended still works off the pins it took along.
  datatype Client = Active(x: T.TxnState) | Ending(toRelease: seq<nat>)

  datatype World = World(conn: S.ConnState, clients: map<int, Client>, cutlines: map<int, S.Cut>)

  datatype Action =
    | Start(id: int)
    | Scan(id: int, table: int, reply: S.Reply)
    | Ensure(id: int, granted: bool)
    | Write(id: int, table: int, cx: Ctx, dml: Dml, granted: bool)
    | EndCommit(id: int, granted: bool)
    | EndRollback(id: int, granted: bool)
    | Release(id: int, granted: bool)
    | MoveCut(table: int, cut: Option<S.Cut>)

  function CutOf(w: World, table: int): Option<S.Cut> {
    if table in w.cutlines then Some(w.cutlines[table]) else None
  }

  predicate IsActive(w: World, id: int) {
    id in w.clients && w.clients[id].Active?
  }

  function Put(w: World, id: int, client: Client, conn: S.ConnState): World {
    w.(clients := w.clients[id := client], conn := conn)
  }

  // A step that is not possible in a state does nothing.
  function Step(w: World, a: Action): World {
    match a
    case Start(id) => if id in w.clients then w else Put(w, id, Active(T.FRESH), w.conn)
    case Scan(id, table, reply) =>
      if !IsActive(w, id) then w
      else
        var (x, c, _) := T.GetPinnedScan(w.clients[id].x, w.conn, table, CutOf(w, table), reply);
        Put(w, id, Active(x), c)
    case Ensure(id, granted) =>
      if !IsActive(w, id) then w
      else
        var (x, c, _) := T.EnsureWriteTxn(w.clients[id].x, w.conn, granted);
        Put(w, id, Active(x), c)
    case Write(id, table, cx, dml, granted) =>
      // a sink only comes this far with its write transaction open
      if !IsActive(w, id) || !w.clients[id].x.writeActive then w
      else w.(conn := S.RunChunk(w.conn, table, cx, dml, granted).0)
    case EndCommit(id, granted) =>
      if !IsActive(w, id) then w
      else
        var (x, c, _) := T.CommitWrite(w.clients[id].x, w.conn, granted);
        Put(w, id, Ending(x.pins), c)
    case EndRollback(id, granted) =>
      if !IsActive(w, id) then w
      else
        var (x, c, _) := T.RollbackWrite(w.clients[id].x, w.conn, granted);
        Put(w, id, Ending(x.pins), c)
    case Release(id, granted) =>
      if id !in w.clients || w.clients[id].Active? || w.clients[id].toRelease == [] then w
      else
        var pins := w.clients[id].toRelease;
        var (c, ok) := S.ReleasePin(w.conn, pins[0], granted);
        Put(w, id, Ending(if ok then pins[1..] else []), c)
    case MoveCut(table, cut) =>
      w.(cutlines := if cut.Some? then w.cutlines[table := cut.value] else w.cutlines - {table})
  }

  function Run(w: World, actions: seq<Action>): World
    decreases |actions|
  {
    if actions == [] then w else Step(Run(w, actions[..|actions| - 1]), actions[|actions| - 1])
  }

  lemma RunLast(w: World, before: seq<Action>, a: Action)
    ensures Run(w, before + [a]) == Step(Run(w, before), a)
  {
    var all := before + [a];
    assert all[..|all| - 1] == before;
  }

  lemma RunTwo(w: World, a: Action, b: Action)
    ensures Run(w, [a, b]) == Step(Step(w, a), b)
  {
    assert [a, b] == [a] + [b] && [a] == [] + [a];
    RunLast(w, [a], b);
    RunLast(w, [], a);
  }

  // ---------- table data: one writer, any number of readers ----------

  // The chunks a run executes, in order.
  function ApplyChunk(tables: map<int, Tables>, a: Action): map<int, Tables> {
    if a.Write? && a.table in tables then tables[a.table := Chunk(a.cx, tables[a.table], a.dml).t] else tables
  }

  function FoldChunks(tables: map<int, Tables>, actions: seq<Action>): map<int, Tables>
    decreases |actions|
  {
    if actions == [] then tables
    else ApplyChunk(FoldChunks(tables, actions[..|actions| - 1]), actions[|actions| - 1])
  }

  // Steps of a run in which `writer` alone writes and does not end yet.
  predicate MidWrite(writer: int, a: Action) {
    && (a.Ensure? || a.Write? ==> a.id == writer)
    && (a.EndCommit? || a.EndRollback? ==> a.id != writer)
  }

  // `writer` has just begun its write transaction; nobody else writes.
  predicate JustBegun(w: World, writer: int) {
    && w.conn.inTxn && w.conn.txn == S.Open(w.conn.committed)
    && IsActive(w, writer) && w.clients[writer].x.writeActive
    && OthersRead(w, writer)
  }

  predicate OthersRead(w: World, writer: int) {
    forall id <- w.clients :: id != writer && w.clients[id].Active? ==> !w.clients[id].x.writeActive
  }

  predicate MidState(w0: World, w: World, writer: int, actions: seq<Action>) {
    && w.conn.inTxn && (w.conn.txn.Open? || w.conn.txn.Aborted?)
    && w.conn.committed == w0.conn.committed
    && IsActive(w, writer) && w.clients[writer].x.writeActive
    && OthersRead(w, writer)
    && (w.conn.txn.Open? ==> w.conn.txn.work.tables == FoldChunks(w0.conn.committed.tables, actions))
  }

  // A call inside the write transaction that leaves table data alone.
  predicate SparesTables(c: S.ConnState, d: S.ConnState) {
    && d.inTxn && !d.txn.NoTxn? && d.committed == c.committed
    && (d.txn.Open? ==> c.txn.Open? && d.txn.work.tables == c.txn.work.tables)
  }

  lemma ScanSpares(x: T.TxnState, c: S.ConnState, table: int, cut: Option<S.Cut>, reply: S.Reply)
    requires c.inTxn && !c.txn.NoTxn?
    ensures var (y, d, _) := T.GetPinnedScan(x, c, table, cut, reply);
            SparesTables(c, d) && y.writeActive == x.writeActive
  {
  }

  lemma ReleaseSpares(c: S.ConnState, pin: nat, granted: bool)
    requires c.inTxn && !c.txn.NoTxn?
    ensures SparesTables(c, S.ReleasePin(c, pin, granted).0)
  {
  }

  lemma ChunkInTxn(c: S.ConnState, table: int, cx: Ctx, dml: Dml, granted: bool)
    requires c.inTxn && !c.txn.NoTxn?
    ensures var d := S.RunChunk(c, table, cx, dml, granted).0;
            && d.inTxn && !d.txn.NoTxn? && d.committed == c.committed
            && (d.txn.Open? ==> c.txn.Open?)
            && (d.txn.Open? && table in c.txn.work.tables ==>
                  d.txn.work.tables == c.txn.work.tables[table := Chunk(cx, c.txn.work.tables[table], dml).t])
            && (d.txn.Open? && table !in c.txn.work.tables ==> d.txn.work.tables == c.txn.work.tables)
  {
  }

  // Everything but a chunk, an end of another transaction included.
  lemma OtherStepSpares(w: World, writer: int, a: Action)
    requires w.conn.inTxn && !w.conn.txn.NoTxn?
    requires IsActive(w, writer) && w.clients[writer].x.writeActive && OthersRead(w, writer)
    requires MidWrite(writer, a) && !a.Write?
    ensures var v := Step(w, a);
            && SparesTables(w.conn, v.conn)
            && IsActive(v, writer) && v.clients[writer].x.writeActive && OthersRead(v, writer)
  {
    match a
    case Scan(id, table, reply) =>
      if IsActive(w, id) {
        ScanSpares(w.clients[id].x, w.conn, table, CutOf(w, table), reply);
      }
    case Release(id, granted) =>
      if id in w.clients && w.clients[id].Ending? && w.clients[id].toRelease != [] {
        ReleaseSpares(w.conn, w.clients[id].toRelease[0], granted);
      }
    case _ =>
  }

  lemma MidStep(w0: World, w: World, writer: int, before: seq<Action>, a: Action)
    requires MidState(w0, w, writer, before) && MidWrite(writer, a)
    ensures MidState(w0, Step(w, a), writer, before + [a])
  {
    assert (before + [a])[..|before + [a]| - 1] == before;
    if a.Write? {
      ChunkInTxn(w.conn, a.table, a.cx, a.dml, a.granted);
    } else {
      OtherStepSpares(w, writer, a);
    }
  }

  lemma {:induction false} MidRun(w: World, writer: int, actions: seq<Action>)
    requires JustBegun(w, writer)
    requires forall a <- actions :: MidWrite(writer, a)
    ensures MidState(w, Run(w, actions), writer, actions)
    decreases |actions|
  {
    if actions != [] {
      var before, a := actions[..|actions| - 1], actions[|actions| - 1];
      MidRun(w, writer, before);
      MidStep(w, Run(w, before), writer, before, a);
      assert before + [a] == actions;
    }
  }

  // ---------- what ends the write transaction ----------

  // Postgres refuses a statement of this step, whoever issued it.
  predicate Refusal(w: World, a: Action) {
    match a
    case Scan(id, table, reply) =>
      IsActive(w, id) && table !in w.clients[id].x.scans && (reply.LookupRefused? || reply.PinRefused?)
    case Write(id, table, cx, dml, granted) =>
      IsActive(w, id) && w.clients[id].x.writeActive &&
      S.RunChunk(w.conn, table, cx, dml, granted).1 == Err(StatementFailed)
    case Release(id, granted) =>
      id in w.clients && w.clients[id].Ending? && w.clients[id].toRelease != [] && !granted
    case _ => false
  }

  predicate SawRefusal(w: World, actions: seq<Action>)
    decreases |actions|
  {
    actions != [] &&
    (SawRefusal(w, actions[..|actions| - 1]) || Refusal(Run(w, actions[..|actions| - 1]), actions[|actions| - 1]))
  }

  lemma RefusalAborts(w: World, a: Action)
    requires w.conn.inTxn && w.conn.txn.Open?
    requires a.Ensure? || a.EndCommit? || a.EndRollback? ==>
               IsActive(w, a.id) ==> a.Ensure? || !w.clients[a.id].x.writeActive
    ensures Step(w, a).conn.txn.Aborted? <==> Refusal(w, a)
  {
  }

  lemma {:induction false} AbortedIffRefused(w: World, writer: int, actions: seq<Action>)
    requires JustBegun(w, writer)
    requires forall a <- actions :: MidWrite(writer, a)
    ensures Run(w, actions).conn.txn.Aborted? <==> SawRefusal(w, actions)
    decreases |actions|
  {
    if actions != [] {
      var before, a := actions[..|actions| - 1], actions[|actions| - 1];
      MidRun(w, writer, before);
      MidRun(w, writer, actions);
      AbortedIffRefused(w, writer, before);
      if Run(w, before).conn.txn.Open? {
        RefusalAborts(Run(w, before), a);
      } else {
        AbortedStays(Run(w, before), a);
      }
    }
  }

  lemma AbortedStays(w: World, a: Action)
    requires w.conn.inTxn && w.conn.txn.Aborted?
    requires a.EndCommit? || a.EndRollback? ==> IsActive(w, a.id) ==> !w.clients[a.id].x.writeActive
    ensures Step(w, a).conn.txn.Aborted?
  {
  }

  /** One writer, any number of readers.  Until the writer ends, the committed
      heap and delta of every table are what they were at its BEGIN.  Its COMMIT
      reports success and publishes the fold of all its chunks in order (of a chunk
      rejected without a refused statement, the rows it got through), unless
      Postgres refused some statement on the connection in between, a reader's
      included: then it still reports success but publishes nothing. */
  lemma WriterCommits(w: World, writer: int, actions: seq<Action>)
    requires JustBegun(w, writer)
    requires forall a <- actions :: MidWrite(writer, a)
    ensures Run(w, actions).conn.committed == w.conn.committed
    ensures IsActive(Run(w, actions), writer)
    ensures var mid := Run(w, actions);
            var after := Step(mid, EndCommit(writer, true));
            && T.CommitWrite(mid.clients[writer].x, mid.conn, true).2
            && after.conn.committed.tables ==
               (if SawRefusal(w, actions) then w.conn.committed.tables
                else FoldChunks(w.conn.committed.tables, actions))
            && after.conn.txn.NoTxn? && !after.conn.inTxn
  {
    MidRun(w, writer, actions);
    AbortedIffRefused(w, writer, actions);
  }

  /** For instance a reader whose pin insert is refused: the writer's COMMIT, whatever
      it had written, publishes nothing and reports success. */
  lemma RefusedReaderVoidsCommit(w: World, writer: int, reader: int, table: int, mid: seq<Action>)
    requires JustBegun(w, writer)
    requires forall a <- mid :: MidWrite(writer, a)
    requires reader != writer && IsActive(Run(w, mid), reader) && table !in Run(w, mid).clients[reader].x.scans
    ensures var refused := Run(w, mid + [Scan(reader, table, S.PinRefused)]);
            && IsActive(refused, writer)
            && T.CommitWrite(refused.clients[writer].x, refused.conn, true).2
            && Step(refused, EndCommit(writer, true)).conn.committed == w.conn.committed
  {
    var a := Scan(reader, table, S.PinRefused);
    RunLast(w, mid, a);
    MidRun(w, writer, mid);
  }

  /** A rollback leaves everything committed as it was at BEGIN, also when a chunk
      failed after some of its rows had been executed. */
  lemma WriterRollsBack(w: World, writer: int, actions: seq<Action>)
    requires JustBegun(w, writer)
    requires forall a <- actions :: MidWrite(writer, a)
    ensures var after := Step(Run(w, actions), EndRollback(writer, true));
            after.conn.committed == w.conn.committed && after.conn.txn.NoTxn? && !after.conn.inTxn
  {
    MidRun(w, writer, actions);
  }

  // ---------- the flags agree ----------

  predicate Writes(w: World, id: int) {
    IsActive(w, id) && w.clients[id].x.writeActive
  }

  ghost predicate FlagsAgree(w: World) {
    && (w.conn.inTxn <==> exists id :: Writes(w, id))
    && (w.conn.inTxn <==> !w.conn.txn.NoTxn?)
    && (forall i, j :: Writes(w, i) && Writes(w, j) ==> i == j)
  }

  // COMMIT and ROLLBACK succeed, and nobody starts writing while another writes.
  ghost predicate OneWriter(w: World, a: Action) {
    && (a.EndCommit? || a.EndRollback? ==> a.granted)
    && (a.Ensure? ==> forall id :: Writes(w, id) ==> id == a.id)
  }

  ghost predicate OneWriterRun(w: World, actions: seq<Action>)
    decreases |actions|
  {
    actions == [] ||
    (OneWriterRun(w, actions[..|actions| - 1]) && OneWriter(Run(w, actions[..|actions| - 1]), actions[|actions| - 1]))
  }

  lemma EnsureStep(w: World, id: int, granted: bool)
    requires FlagsAgree(w) && OneWriter(w, Ensure(id, granted))
    ensures FlagsAgree(Step(w, Ensure(id, granted)))
  {
    var v := Step(w, Ensure(id, granted));
    assert forall i :: i != id ==> (Writes(v, i) <==> Writes(w, i));
    if IsActive(w, id) && !Writes(w, id) {
      assert !w.conn.inTxn;
      assert v.conn.inTxn ==> Writes(v, id);
      assert forall i :: !Writes(w, i);
    } else {
      assert Writes(v, id) <==> Writes(w, id);
    }
  }

  lemma FlagsStep(w: World, a: Action)
    requires FlagsAgree(w) && OneWriter(w, a)
    ensures FlagsAgree(Step(w, a))
  {
    match a
    case Ensure(id, granted) => EnsureStep(w, id, granted);
    case EndCommit(id, granted) => WriterEnds(w, Step(w, a), id);
    case EndRollback(id, granted) => WriterEnds(w, Step(w, a), id);
    case _ => OtherFlags(w, a);
  }

  lemma OtherFlags(w: World, a: Action)
    requires FlagsAgree(w) && !a.Ensure? && !a.EndCommit? && !a.EndRollback?
    ensures FlagsAgree(Step(w, a))
  {
    assert forall i :: Writes(Step(w, a), i) <==> Writes(w, i);
  }

  lemma WriterEnds(w: World, v: World, id: int)
    requires FlagsAgree(w)
    requires forall i :: Writes(v, i) <==> Writes(w, i) && i != id
    requires v.conn == if Writes(w, id) then v.conn.(inTxn := false, txn := S.NoTxn) else w.conn
    ensures FlagsAgree(v)
  {
    if Writes(w, id) {
      assert forall i :: !Writes(v, i);
    } else {
      assert forall i :: Writes(v, i) <==> Writes(w, i);
    }
  }

  /** In every state reached with one writer at a time, the client's flag, the
      server's transaction and the transactions' own flags agree. */
  lemma {:induction false} FlagsAgreeAlways(w: World, actions: seq<Action>)
    requires FlagsAgree(w) && OneWriterRun(w, actions)
    ensures FlagsAgree(Run(w, actions))
    decreases |actions|
  {
    if actions != [] {
      var before := actions[..|actions| - 1];
      FlagsAgreeAlways(w, before);
      FlagsStep(Run(w, before), actions[|actions| - 1]);
    }
  }

  /** From agreeing flags a first write opens a transaction on what is committed. */
  lemma FirstWriteBegins(w: World, writer: int)
    requires FlagsAgree(w) && !w.conn.inTxn && IsActive(w, writer)
    ensures JustBegun(Step(w, Ensure(writer, true)), writer)
    ensures Step(w, Ensure(writer, true)).conn.committed == w.conn.committed
  {
    assert !Writes(w, writer);
    forall id | id in w.clients && w.clients[id].Active? ensures !w.clients[id].x.writeActive {
      assert !Writes(w, id);
    }
  }

  /** In particular in every state reached from a fresh connection. */
  lemma ReachableFlagsAgree(w: World, actions: seq<Action>)
    requires w.clients == map[] && !w.conn.inTxn && w.conn.txn.NoTxn?
    requires OneWriterRun(w, actions)
    ensures FlagsAgree(Run(w, actions))
  {
    assert forall id :: !Writes(w, id);
    FlagsAgreeAlways(w, actions);
  }

  // ---------- the manager's calls, one FFI call at a time ----------

  function ReleaseSteps(id: int, pins: seq<nat>, refused: set<nat>): seq<Action> {
    seq(|pins|, i requires 0 <= i < |pins| => Release(id, pins[i] !in refused))
  }

  lemma {:induction false} RunCons(w: World, a: Action, rest: seq<Action>)
    ensures Run(w, [a] + rest) == Run(Step(w, a), rest)
    decreases |rest|
  {
    var all := [a] + rest;
    if rest == [] {
      assert all[..0] == [];
    } else {
      assert all[..|all| - 1] == [a] + rest[..|rest| - 1];
      RunCons(w, a, rest[..|rest| - 1]);
    }
  }

  lemma {:induction false} ReleaseStepsExact(w: World, id: int, pins: seq<nat>, steps: seq<Action>, refused: set<nat>)
    requires id in w.clients && (w.clients[id] == Ending(pins) || w.clients[id] == Ending([]))
    requires steps == ReleaseSteps(id, pins, refused)
    ensures Run(w, steps).conn ==
            if w.clients[id] == Ending(pins) then T.ReleaseAll(w.conn, pins, refused).0 else w.conn
    decreases |pins|
  {
    if pins != [] {
      var next := Step(w, steps[0]);
      assert steps == [steps[0]] + steps[1..];
      RunCons(w, steps[0], steps[1..]);
      assert steps[1..] == ReleaseSteps(id, pins[1..], refused);
      ReleaseStepsExact(next, id, pins[1..], steps[1..], refused);
    }
  }

  /** The manager's COMMIT and ROLLBACK are an end step followed by one release
      step per pin, so everything proved of all interleavings covers them. */
  lemma ManagerIsSteps(w: World, id: int, e: T.Ending)
    requires IsActive(w, id)
    ensures var x := w.clients[id].x;
            var releases := ReleaseSteps(id, x.pins, e.refused);
            && Run(w, [EndCommit(id, e.commit)] + releases).conn == T.CommitTransaction(x, w.conn, e).1
            && Run(w, [EndRollback(id, e.rollback)] + releases).conn == T.RollbackTransaction(x, w.conn, e).1
  {
    var x := w.clients[id].x;
    var releases := ReleaseSteps(id, x.pins, e.refused);
    RunCons(w, EndCommit(id, e.commit), releases);
    RunCons(w, EndRollback(id, e.rollback), releases);
    ReleaseStepsExact(Step(w, EndCommit(id, e.commit)), id, x.pins, releases, e.refused);
    ReleaseStepsExact(Step(w, EndRollback(id, e.rollback)), id, x.pins, releases, e.refused);
  }
}
