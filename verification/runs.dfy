/**
 What holds over whole runs of chunks: nothing outside the cold, unexpired range
 is ever written cold, and the read stays free of duplicates exactly as long as
 every chunk is admissible.
 */
module Runs {
  import opened Wrappers
  import opened Rows
  import opened Core
  import opened Dml
  import opened Exact
  import opened TieredStore
  import opened Refinement
  import opened Relational

  // ---------- one chunk, accepted or not ----------

  predicate LogSafe(cx: Ctx, log: DeltaLog) {
    forall i :: 0 <= i < |log| ==> Safe(cx, log[i].1.tier)
  }

  predicate StmtSafe(cx: Ctx, olds: seq<Json>, stmt: LakeStmt) {
    match stmt
    case DeleteKeys(keys, below) =>
      below == cx.cut && forall k <- keys :: exists row <- olds :: RowKey(cx, row) == k && Safe(cx, RowTier(cx, row))
    case UpsertRows(rows) => forall r <- rows :: Safe(cx, r.1.tier)
  }

  lemma {:induction false} ApplyConcat(delta: map<Key, DeltaEntry>, a: DeltaLog, b: DeltaLog)
    ensures Apply(delta, a + b) == Apply(Apply(delta, a), b)
    decreases |b|
  {
    if b == [] {
      assert a + b == a;
    } else {
      assert (a + b)[..|a + b| - 1] == a + b[..|b| - 1];
      ApplyConcat(delta, a, b[..|b| - 1]);
    }
  }

  // `more` is what a step added to the log; it accounts for the whole change of the delta.
  predicate Logged<A>(cx: Ctx, w: Work<A>, v: Work<A>, more: DeltaLog) {
    v.wrote == w.wrote + more && v.t.delta == Apply(w.t.delta, more) && LogSafe(cx, more)
  }

  lemma LoggedTwice<A>(cx: Ctx, u: Work<A>, v: Work<A>, w: Work<A>, a: DeltaLog, b: DeltaLog)
    requires Logged(cx, u, v, a) && Logged(cx, v, w, b)
    ensures Logged(cx, u, w, a + b)
  {
    ApplyConcat(u.t.delta, a, b);
    assert (u.wrote + a) + b == u.wrote + (a + b);
  }

  lemma LoggedOne<A>(cx: Ctx, w: Work<A>, key: Key, entry: DeltaEntry)
    requires Safe(cx, entry.tier)
    ensures Logged(cx, w, PutDelta(w, key, entry), [(key, entry)])
  {
    assert [(key, entry)][..0] == [];
    assert Apply(w.t.delta, []) == w.t.delta;
  }

  lemma LoggedNone<A>(cx: Ctx, w: Work<A>, v: Work<A>)
    requires v.wrote == w.wrote && v.t.delta == w.t.delta
    ensures Logged(cx, w, v, [])
  {
    assert w.wrote + [] == w.wrote;
  }

  lemma DeleteRowLogged(cx: Ctx, w: Work<Key>, row: Json) returns (more: DeltaLog)
    ensures var v := DeleteRow(cx, w, row).work;
            && Logged(cx, w, v, more)
            && (v.batch == w.batch || (v.batch == w.batch + [RowKey(cx, row)] && Safe(cx, RowTier(cx, row))))
  {
    var v := DeleteRow(cx, w, row).work;
    if v.wrote == w.wrote {
      more := [];
      LoggedNone(cx, w, v);
    } else {
      var entry := DeltaEntry(Tombstone, RowTier(cx, row), TombstonePayload(row, cx.ts.pkCols));
      more := [(RowKey(cx, row), entry)];
      LoggedOne(cx, w, RowKey(cx, row), entry);
    }
  }

  lemma WriteRowLogged(cx: Ctx, w: Work<(Key, Row)>, raw: Json) returns (more: DeltaLog)
    ensures var v := WriteRow(cx, w, raw).work;
            && Logged(cx, w, v, more)
            && (v.batch == w.batch ||
                (v.batch == w.batch + [(ImageKey(cx, raw), Image(cx, raw))] && Safe(cx, Image(cx, raw).tier)))
  {
    var v := WriteRow(cx, w, raw).work;
    if v.wrote == w.wrote {
      more := [];
      LoggedNone(cx, w, v);
    } else {
      var entry := DeltaEntry(Upsert, Image(cx, raw).tier, Image(cx, raw).data);
      more := [(ImageKey(cx, raw), entry)];
      LoggedOne(cx, w, ImageKey(cx, raw), entry);
    }
  }

  lemma {:induction false} DeleteFoldLogged(cx: Ctx, w: Work<Key>, rows: seq<Json>) returns (more: DeltaLog)
    ensures var v := DeleteFold(cx, w, rows).work;
            && Logged(cx, w, v, more)
            && (forall k <- v.batch :: k in w.batch ||
                  exists row <- rows :: RowKey(cx, row) == k && Safe(cx, RowTier(cx, row)))
    decreases |rows|
  {
    if rows == [] {
      more := [];
      LoggedNone(cx, w, w);
    } else {
      var o := DeleteRow(cx, w, rows[0]);
      more := DeleteRowLogged(cx, w, rows[0]);
      assert rows[0] in rows && forall row :: row in rows[1..] ==> row in rows;
      if o.err.None? {
        var rest := DeleteFoldLogged(cx, o.work, rows[1..]);
        LoggedTwice(cx, w, o.work, DeleteFold(cx, w, rows).work, more, rest);
        more := more + rest;
      }
    }
  }

  lemma {:induction false} WriteFoldLogged(cx: Ctx, w: Work<(Key, Row)>, rows: seq<Json>) returns (more: DeltaLog)
    ensures var v := WriteFold(cx, w, rows).work;
            && Logged(cx, w, v, more)
            && (forall r <- v.batch :: r in w.batch || Safe(cx, r.1.tier))
    decreases |rows|
  {
    if rows == [] {
      more := [];
      LoggedNone(cx, w, w);
    } else {
      var o := WriteRow(cx, w, rows[0]);
      more := WriteRowLogged(cx, w, rows[0]);
      if o.err.None? {
        var rest := WriteFoldLogged(cx, o.work, rows[1..]);
        LoggedTwice(cx, w, o.work, WriteFold(cx, w, rows).work, more, rest);
        more := more + rest;
      }
    }
  }

  lemma DeleteStmtSafe(cx: Ctx, w: Work<Key>, rows: seq<Json>)
    requires forall k <- w.batch :: exists row <- rows :: RowKey(cx, row) == k && Safe(cx, RowTier(cx, row))
    ensures var r := Finish(cx, w, DeleteKeys(w.batch, cx.cut));
            && r.wrote == w.wrote && r.t == w.t
            && (r.lake.Ok? ==> forall stmt <- r.lake.value :: StmtSafe(cx, rows, stmt))
  {
    assert StmtSafe(cx, rows, DeleteKeys(w.batch, cx.cut));
  }

  lemma WriteStmtSafe(cx: Ctx, w: Work<(Key, Row)>, olds: seq<Json>)
    requires forall r <- w.batch :: Safe(cx, r.1.tier)
    ensures var r := Finish(cx, w, UpsertRows(w.batch));
            && r.wrote == w.wrote && r.t == w.t
            && (r.lake.Ok? ==> forall stmt <- r.lake.value :: StmtSafe(cx, olds, stmt))
  {
    assert StmtSafe(cx, olds, UpsertRows(w.batch));
  }

  lemma DeleteLegSafe(cx: Ctx, t: Tables, ran: nat, rows: seq<Json>)
    ensures var r := DeleteLeg(cx, t, ran, rows);
            && LogSafe(cx, r.wrote) && r.t.delta == Apply(t.delta, r.wrote)
            && (r.lake.Ok? ==> forall stmt <- r.lake.value :: StmtSafe(cx, rows, stmt))
  {
    var more := DeleteFoldLogged(cx, Start(t, ran), rows);
    assert [] + more == more;
    DeleteStmtSafe(cx, DeleteFold(cx, Start(t, ran), rows).work, rows);
  }

  lemma WriteLegSafe(cx: Ctx, t: Tables, ran: nat, rows: seq<Json>, olds: seq<Json>)
    ensures var r := WriteLeg(cx, t, ran, rows);
            && LogSafe(cx, r.wrote) && r.t.delta == Apply(t.delta, r.wrote)
            && (r.lake.Ok? ==> forall stmt <- r.lake.value :: StmtSafe(cx, olds, stmt))
  {
    var more := WriteFoldLogged(cx, Start(t, ran), rows);
    assert [] + more == more;
    WriteStmtSafe(cx, WriteFold(cx, Start(t, ran), rows).work, olds);
  }

  function RemovedRows(dml: Dml): seq<Json> {
    match dml
    case Insert(_) => []
    case Delete(keys) => keys
    case Update(pairs) => if SplitPairs(pairs).Ok? then SplitPairs(pairs).value.0 else []
  }

  /** Whatever the mode and whether or not the chunk goes through, every delta
      entry it writes, overwritten later or not, and every row and key it sends to
      the lake lies below the T and not below the retention line that this chunk
      read; and the delta changes by exactly the entries written. */
  lemma ChunkSafe(cx: Ctx, t: Tables, dml: Dml)
    ensures var r := Chunk(cx, t, dml);
            && LogSafe(cx, r.wrote) && r.t.delta == Apply(t.delta, r.wrote)
            && (r.lake.Ok? ==> forall stmt <- r.lake.value :: StmtSafe(cx, RemovedRows(dml), stmt))
  {
    match dml
    case Insert(rows) => WriteLegSafe(cx, t, 0, rows, []);
    case Delete(keys) => DeleteLegSafe(cx, t, 0, keys);
    case Update(pairs) =>
      if SplitPairs(pairs).Ok? {
        var (olds, news) := SplitPairs(pairs).value;
        DeleteLegSafe(cx, t, 0, olds);
        var d := DeleteLeg(cx, t, 0, olds);
        WriteLegSafe(cx, d.t, d.ran, news, olds);
        ApplyConcat(t.delta, d.wrote, WriteLeg(cx, d.t, d.ran, news).wrote);
      }
  }

  // ---------- a run ----------

  // Each chunk reads its own T and retention line; rejected chunks leave their
  // partial writes behind, the worst case for safety.
  type Run = seq<(Ctx, Dml)>

  function After(t: Tables, run: Run): Tables
    decreases |run|
  {
    if run == [] then t else After(Chunk(run[0].0, t, run[0].1).t, run[1..])
  }

  function Numbered<A>(n: nat, xs: seq<A>): seq<(nat, A)> {
    seq(|xs|, i requires 0 <= i < |xs| => (n, xs[i]))
  }

  // Every delta write of a run, and every lake statement of its accepted chunks,
  // each with the number of the chunk it came from.
  function WriteLog(t: Tables, run: Run, n: nat): seq<(nat, (Key, DeltaEntry))>
    decreases |run|
  {
    if run == [] then []
    else
      var r := Chunk(run[0].0, t, run[0].1);
      Numbered(n, r.wrote) + WriteLog(r.t, run[1..], n + 1)
  }

  function LakeLog(t: Tables, run: Run, n: nat): seq<(nat, LakeStmt)>
    decreases |run|
  {
    if run == [] then []
    else
      var r := Chunk(run[0].0, t, run[0].1);
      (if r.lake.Ok? then Numbered(n, r.lake.value) else []) + LakeLog(r.t, run[1..], n + 1)
  }

  function Entries(log: seq<(nat, (Key, DeltaEntry))>): DeltaLog {
    seq(|log|, i requires 0 <= i < |log| => log[i].1)
  }

  lemma EntriesConcat(n: nat, first: DeltaLog, rest: seq<(nat, (Key, DeltaEntry))>)
    ensures Entries(Numbered(n, first) + rest) == first + Entries(rest)
  {
  }

  predicate SafeWrite(run: Run, i: int, tier: int) {
    0 <= i < |run| && Safe(run[i].0, tier)
  }

  lemma SafeTail(run: Run, rest: seq<(nat, (Key, DeltaEntry))>, n: nat)
    requires run != [] && forall e <- rest :: SafeWrite(run[1..], e.0 - n - 1, e.1.1.tier)
    ensures forall e <- rest :: SafeWrite(run, e.0 - n, e.1.1.tier)
  {
    forall e | e in rest ensures SafeWrite(run, e.0 - n, e.1.1.tier) {
      assert run[1..][e.0 - n - 1] == run[e.0 - n];
    }
  }

  lemma SafeHead(run: Run, wrote: DeltaLog, n: nat)
    requires run != [] && LogSafe(run[0].0, wrote)
    ensures forall e <- Numbered(n, wrote) :: SafeWrite(run, e.0 - n, e.1.1.tier)
  {
  }

  lemma {:induction false} LogIsDelta(t: Tables, run: Run, n: nat)
    ensures After(t, run).delta == Apply(t.delta, Entries(WriteLog(t, run, n)))
    decreases |run|
  {
    if run != [] {
      var r := Chunk(run[0].0, t, run[0].1);
      var rest := WriteLog(r.t, run[1..], n + 1);
      ChunkSafe(run[0].0, t, run[0].1);
      LogIsDelta(r.t, run[1..], n + 1);
      EntriesConcat(n, r.wrote, rest);
      ApplyConcat(t.delta, r.wrote, Entries(rest));
    }
  }

  lemma {:induction false} LogIsSafe(t: Tables, run: Run, n: nat)
    ensures forall e <- WriteLog(t, run, n) :: SafeWrite(run, e.0 - n, e.1.1.tier)
    decreases |run|
  {
    if run != [] {
      var r := Chunk(run[0].0, t, run[0].1);
      ChunkSafe(run[0].0, t, run[0].1);
      SafeHead(run, r.wrote, n);
      LogIsSafe(r.t, run[1..], n + 1);
      SafeTail(run, WriteLog(r.t, run[1..], n + 1), n);
    }
  }

  /** Every delta write of a run is safe for the very chunk that made it, and those
      writes in order are all that happened to the delta. */
  lemma RunDeltaSafe(t: Tables, run: Run, n: nat)
    ensures forall e <- WriteLog(t, run, n) :: n <= e.0 < n + |run| && Safe(run[e.0 - n].0, e.1.1.tier)
    ensures After(t, run).delta == Apply(t.delta, Entries(WriteLog(t, run, n)))
  {
    LogIsSafe(t, run, n);
    LogIsDelta(t, run, n);
    forall e | e in WriteLog(t, run, n) ensures n <= e.0 < n + |run| && Safe(run[e.0 - n].0, e.1.1.tier) {
      assert SafeWrite(run, e.0 - n, e.1.1.tier);
    }
  }

  predicate SafeIn(run: Run, i: int, stmt: LakeStmt) {
    0 <= i < |run| && StmtSafe(run[i].0, RemovedRows(run[i].1), stmt)
  }

  lemma SafeLakeTail(run: Run, rest: seq<(nat, LakeStmt)>, n: nat)
    requires run != [] && forall e <- rest :: SafeIn(run[1..], e.0 - n - 1, e.1)
    ensures forall e <- rest :: SafeIn(run, e.0 - n, e.1)
  {
    forall e | e in rest ensures SafeIn(run, e.0 - n, e.1) {
      assert run[1..][e.0 - n - 1] == run[e.0 - n];
    }
  }

  lemma SafeLakeHead(run: Run, stmts: seq<LakeStmt>, n: nat)
    requires run != [] && forall stmt <- stmts :: StmtSafe(run[0].0, RemovedRows(run[0].1), stmt)
    ensures forall e <- Numbered(n, stmts) :: SafeIn(run, e.0 - n, e.1)
  {
  }

  /** And every lake statement of a run is safe for the chunk it came from. */
  lemma {:induction false} RunLakeSafe(t: Tables, run: Run, n: nat)
    ensures forall e <- LakeLog(t, run, n) :: SafeIn(run, e.0 - n, e.1)
    decreases |run|
  {
    if run != [] {
      var r := Chunk(run[0].0, t, run[0].1);
      ChunkSafe(run[0].0, t, run[0].1);
      RunLakeSafe(r.t, run[1..], n + 1);
      SafeLakeTail(run, LakeLog(r.t, run[1..], n + 1), n);
      if r.lake.Ok? {
        SafeLakeHead(run, r.lake.value, n);
      }
    }
  }

  // ---------- what the lake worker does between chunks ----------

  // The cold rows of the store, whatever T is.
  function ColdStore(mode: Mode, s: Store): map<Key, Row> {
    if mode.Direct? then s.lake else Overlaid(s.lake, s.t.delta)
  }

  lemma ColdRowsOfStore(mode: Mode, s: Store, cut: Option<int>)
    ensures ColdRows(mode, s, cut) == if mode.Direct? then OnSide(s.lake, cut, Cold) else ColdRows(Tiered, s, cut)
    ensures ColdRows(mode, s, cut) == OnSide(ColdStore(mode, s), cut, Cold)
  {
    OverlaidSide(s, cut);
  }

  // Rows leave the heap for the lake.
  function Offloaded(s: Store, keys: set<Key>): Store {
    Store(s.t.(heap := s.t.heap - keys), s.lake + (map k | k in s.t.heap && k in keys :: s.t.heap[k]))
  }

  // Delta entries are worked into the lake.
  function Compacted(s: Store, keys: set<Key>): Store {
    var flushed := map k | k in s.t.delta && k in keys :: s.t.delta[k];
    Store(s.t.(delta := s.t.delta - keys), (s.lake - flushed.Keys) + Visible(flushed))
  }

  // Cold rows that a rise of T brings into the read.
  function Uncovered(mode: Mode, s: Store, cut: Option<int>, next: int): map<Key, Row> {
    OnSide(OnSide(ColdStore(mode, s), cut, Hot), Some(next), Cold)
  }

  predicate Rises(cut: Option<int>, next: int) {
    cut.None? || cut.value <= next
  }

  lemma OffloadSides(mode: Mode, s: Store, keys: set<Key>, cut: Option<int>)
    ensures HotLeg(Offloaded(s, keys), cut) == HotLeg(s, cut) - keys
    ensures forall k :: k !in s.t.heap || k !in keys ==>
              (k in ColdStore(mode, Offloaded(s, keys)) <==> k in ColdStore(mode, s)) &&
              (k in ColdStore(mode, s) ==> ColdStore(mode, Offloaded(s, keys))[k] == ColdStore(mode, s)[k])
  {
  }

  /** Rows move to the lake while T rises: the read stays free of duplicates exactly
      when no row that stays hot meets a cold row that only the new T brings in. */
  lemma OffloadKeepsPlacement(mode: Mode, s: Store, cut: Option<int>, keys: set<Key>, next: int)
    requires !mode.Mirrored? && Placed(mode, s, cut) && Rises(cut, next)
    ensures Placed(mode, Offloaded(s, keys), Some(next)) <==>
            HotLeg(s, Some(next)).Keys - keys !! Uncovered(mode, s, cut, next).Keys
  {
    var after := Offloaded(s, keys);
    OffloadSides(mode, s, keys, Some(next));
    ColdRowsOfStore(mode, s, cut);
    ColdRowsOfStore(mode, after, Some(next));
    forall k | k in HotLeg(s, Some(next)).Keys - keys
      ensures k in ColdRows(mode, after, Some(next)) <==> k in Uncovered(mode, s, cut, next)
    {
      assert k in HotLeg(s, cut);
    }
  }

  // Visible heap rows that a rise of T makes cold.
  function GoingCold(s: Store, cut: Option<int>, next: int): set<Key> {
    set k | k in s.t.heap && Route(s.t.heap[k].tier, cut).Hot? && Route(s.t.heap[k].tier, Some(next)).Cold?
  }

  // No other delta entry would cover a row that moves.
  predicate NotCovered(mode: Mode, s: Store, keys: set<Key>) {
    mode.Tiered? ==> forall k <- keys :: k in s.t.heap && k in s.t.delta ==>
      k in Visible(s.t.delta) && Visible(s.t.delta)[k] == s.t.heap[k]
  }

  function Look(rows: map<Key, Row>, k: Key): Option<Row> {
    if k in rows then Some(rows[k]) else None
  }

  lemma SameLooks(a: map<Key, Row>, b: map<Key, Row>)
    ensures a == b <==> forall k :: Look(a, k) == Look(b, k)
  {
    if forall k :: Look(a, k) == Look(b, k) {
      forall k ensures k in a <==> k in b ensures k in a && k in b ==> a[k] == b[k] {
        assert Look(a, k) == Look(b, k);
      }
      assert a.Keys == b.Keys;
    }
  }

  lemma MovedLook(mode: Mode, s: Store, cut: Option<int>, next: int, k: Key)
    requires !mode.Mirrored? && Placed(mode, s, cut) && Rises(cut, next) && k in GoingCold(s, cut, next)
    ensures var after := View(mode, Offloaded(s, GoingCold(s, cut, next)), Some(next));
            Look(after, k) == Look(View(mode, s, cut), k) <==>
            (mode.Tiered? && k in s.t.delta ==> k in Visible(s.t.delta) && Visible(s.t.delta)[k] == s.t.heap[k])
  {
    var after := Offloaded(s, GoingCold(s, cut, next));
    assert k in HotLeg(s, cut) && k !in HotLeg(after, Some(next));
    assert after.lake[k] == s.t.heap[k] && after.t.delta == s.t.delta;
  }

  function SideLook(row: Option<Row>, cut: Option<int>, target: Core.Target): Option<Row> {
    if row.Some? && Route(row.value.tier, cut) == target then row else None
  }

  lemma ViewLook(mode: Mode, s: Store, cut: Option<int>, k: Key)
    ensures Look(View(mode, s, cut), k) ==
            if SideLook(Look(ColdStore(mode, s), k), cut, Cold).Some? then Look(ColdStore(mode, s), k)
            else SideLook(Look(s.t.heap, k), cut, Hot)
  {
    ColdRowsOfStore(mode, s, cut);
  }

  lemma StayingLook(mode: Mode, s: Store, cut: Option<int>, next: int, k: Key)
    requires !mode.Mirrored? && Placed(mode, s, cut) && Rises(cut, next) && k !in GoingCold(s, cut, next)
    ensures var after := View(mode, Offloaded(s, GoingCold(s, cut, next)), Some(next));
            Look(after, k) == Look(View(mode, s, cut), k) <==> k !in Uncovered(mode, s, cut, next)
  {
    var after := Offloaded(s, GoingCold(s, cut, next));
    OffloadSides(mode, s, GoingCold(s, cut, next), Some(next));
    ViewLook(mode, s, cut, k);
    ViewLook(mode, after, Some(next), k);
    assert Look(ColdStore(mode, after), k) == Look(ColdStore(mode, s), k) && Look(after.t.heap, k) == Look(s.t.heap, k);
  }

  // What has to hold for the read of one key to survive the move.
  predicate Survives(mode: Mode, s: Store, cut: Option<int>, next: int, k: Key) {
    if k in GoingCold(s, cut, next) then NotCovered(mode, s, {k}) else k !in Uncovered(mode, s, cut, next)
  }

  lemma OffloadLook(mode: Mode, s: Store, cut: Option<int>, next: int, k: Key)
    requires !mode.Mirrored? && Placed(mode, s, cut) && Rises(cut, next)
    ensures var after := View(mode, Offloaded(s, GoingCold(s, cut, next)), Some(next));
            Look(after, k) == Look(View(mode, s, cut), k) <==> Survives(mode, s, cut, next, k)
  {
    if k in GoingCold(s, cut, next) {
      MovedLook(mode, s, cut, next, k);
    } else {
      StayingLook(mode, s, cut, next, k);
    }
  }

  lemma AllSurvive(mode: Mode, s: Store, cut: Option<int>, next: int)
    ensures var keys := GoingCold(s, cut, next);
            (forall k :: Survives(mode, s, cut, next, k)) <==>
            NotCovered(mode, s, keys) && Uncovered(mode, s, cut, next).Keys <= keys
  {
    var keys, uncovered := GoingCold(s, cut, next), Uncovered(mode, s, cut, next);
    if forall k :: Survives(mode, s, cut, next, k) {
      forall k | k in keys ensures NotCovered(mode, s, {k}) {
        assert Survives(mode, s, cut, next, k);
      }
      forall k | k in uncovered ensures k in keys {
        assert Survives(mode, s, cut, next, k);
      }
    }
  }

  /** Moving exactly the rows that go cold keeps the read as it is if and only if no
      other delta entry covers one of them and every cold row that the new T brings
      in belongs to a key that moves. */
  lemma OffloadKeepsView(mode: Mode, s: Store, cut: Option<int>, next: int)
    requires !mode.Mirrored? && Placed(mode, s, cut) && Rises(cut, next)
    ensures var keys := GoingCold(s, cut, next);
            View(mode, Offloaded(s, keys), Some(next)) == View(mode, s, cut) <==>
            NotCovered(mode, s, keys) && Uncovered(mode, s, cut, next).Keys <= keys
  {
    var was, now := View(mode, s, cut), View(mode, Offloaded(s, GoingCold(s, cut, next)), Some(next));
    SameLooks(now, was);
    AllSurvive(mode, s, cut, next);
    forall k ensures Look(now, k) == Look(was, k) <==> Survives(mode, s, cut, next, k) {
      OffloadLook(mode, s, cut, next, k);
    }
  }

  lemma FlushedOverlay(lake: map<Key, Row>, delta: map<Key, DeltaEntry>, keys: set<Key>, flushed: map<Key, DeltaEntry>)
    requires flushed == map k | k in delta && k in keys :: delta[k]
    ensures Overlaid((lake - flushed.Keys) + Visible(flushed), delta - keys) == Overlaid(lake, delta)
  {
    var a, b := Overlaid((lake - flushed.Keys) + Visible(flushed), delta - keys), Overlaid(lake, delta);
    SameLooks(a, b);
    forall k ensures Look(a, k) == Look(b, k) {
      if k in keys {
        assert k !in delta - keys && (k in flushed <==> k in delta);
      }
    }
  }

  /** Compaction never changes a tiered read. */
  lemma CompactionKeepsView(s: Store, cut: Option<int>, keys: set<Key>)
    ensures HotLeg(Compacted(s, keys), cut) == HotLeg(s, cut)
    ensures ColdRows(Tiered, Compacted(s, keys), cut) == ColdRows(Tiered, s, cut)
  {
    FlushedOverlay(s.lake, s.t.delta, keys, map k | k in s.t.delta && k in keys :: s.t.delta[k]);
    OverlaidSide(s, cut);
    OverlaidSide(Compacted(s, keys), cut);
  }

  // ---------- single placement over runs ----------

  // A chunk is rolled back when it is rejected.
  datatype Event =
    | Dml(cx: Ctx, dml: Dml)
    | Offload(keys: set<Key>, next: int)
    | Compact(keys: set<Key>)

  datatype State = State(s: Store, cut: Option<int>)

  function Next(st: State, e: Event): State {
    match e
    case Offload(keys, next) => State(Offloaded(st.s, keys), Some(next))
    case Compact(keys) => State(Compacted(st.s, keys), st.cut)
    case Dml(cx, dml) =>
      var r := Chunk(cx, st.s.t, dml);
      if r.lake.Ok? then State(Landed(st.s, r), st.cut) else st
  }

  // What the event must respect: no inserted or updated image may cross the seam
  // into a row that stays or another image of its chunk, and no row that stays hot
  // may meet a cold row that a rise of T brings in.
  predicate Admissible(mode: Mode, st: State, e: Event) {
    match e
    case Offload(keys, next) => HotLeg(st.s, Some(next)).Keys - keys !! Uncovered(mode, st.s, st.cut, next).Keys
    case Compact(_) => true
    case Dml(cx, dml) =>
      Chunk(cx, st.s.t, dml).lake.Ok? ==>
        match dml
        case Insert(rows) => NothingCrosses(cx, st.s, rows)
        case Delete(_) => true
        case Update(pairs) => NoCrossing(cx, st.s, SplitPairs(pairs).value.0, SplitPairs(pairs).value.1)
  }

  // A chunk reads the current T; T only rises; only a tiered table has a delta.
  predicate Reads(mode: Mode, st: State, e: Event) {
    match e
    case Offload(_, next) => Rises(st.cut, next)
    case Compact(_) => mode.Tiered?
    case Dml(cx, _) => cx.mode == mode && cx.cut == st.cut
  }

  predicate RunReads(mode: Mode, st: State, run: seq<Event>)
    decreases |run|
  {
    run == [] || (Reads(mode, st, run[0]) && RunReads(mode, Next(st, run[0]), run[1..]))
  }

  predicate AllAdmissible(mode: Mode, st: State, run: seq<Event>)
    decreases |run|
  {
    run == [] || (Admissible(mode, st, run[0]) && AllAdmissible(mode, Next(st, run[0]), run[1..]))
  }

  // The merged read shows no key twice, now and after every event.
  ghost predicate AlwaysKeyUnique(mode: Mode, st: State, run: seq<Event>)
    decreases |run|
  {
    KeyUnique(MergedRead(mode, st.s, st.cut)) && (run == [] || AlwaysKeyUnique(mode, Next(st, run[0]), run[1..]))
  }

  lemma StepPlaced(mode: Mode, st: State, e: Event)
    requires !mode.Mirrored? && Placed(mode, st.s, st.cut) && Reads(mode, st, e)
    ensures Placed(mode, Next(st, e).s, Next(st, e).cut) <==> Admissible(mode, st, e)
  {
    match e
    case Offload(keys, next) => OffloadKeepsPlacement(mode, st.s, st.cut, keys, next);
    case Compact(keys) => CompactionKeepsView(st.s, st.cut, keys);
    case Dml(cx, dml) =>
      if Chunk(cx, st.s.t, dml).lake.Ok? {
        match dml
        case Insert(rows) => InsertRefines(cx, st.s, rows);
        case Delete(keys) => DeleteRefines(cx, st.s, keys);
        case Update(pairs) =>
          UpdateExact(cx, st.s, pairs);
          ReadIsViewIffPlaced(mode, Next(st, e).s, st.cut);
      }
  }

  /** Over every run of accepted and rejected chunks and worker moves, the UNION
      ALL read is free of duplicates throughout if and only if every event was
      admissible. */
  lemma {:induction false} RunKeyUniqueIffAdmissible(mode: Mode, st: State, run: seq<Event>)
    requires !mode.Mirrored? && Placed(mode, st.s, st.cut) && RunReads(mode, st, run)
    ensures AlwaysKeyUnique(mode, st, run) <==> AllAdmissible(mode, st, run)
    decreases |run|
  {
    ReadIsViewIffPlaced(mode, st.s, st.cut);
    if run != [] {
      var next := Next(st, run[0]);
      StepPlaced(mode, st, run[0]);
      if Admissible(mode, st, run[0]) {
        RunKeyUniqueIffAdmissible(mode, next, run[1..]);
      } else {
        ReadIsViewIffPlaced(mode, next.s, next.cut);
      }
    }
  }
}
