/**
 How a chunk fails: the first row that cannot be taken decides the error, the rows
 before it stay executed, and a refused Postgres statement ends the chunk there.
 */
module Failing {
  import opened Wrappers
  import opened Rows
  import opened Core
  import opened Dml
  import opened Exact
  import opened TieredStore
  import opened Refinement
  import opened Simulation

  // ---------- what is wrong with a row ----------

  predicate Expired(cx: Ctx, tier: int) {
    && !cx.mode.Mirrored? && cx.cut.Some? && tier < cx.cut.value
    && cx.retention.Some? && tier < cx.retention.value
  }

  // A removal needs tier key, then key, then the retention line.
  function RemovalProblem(cx: Ctx, row: Json): Option<Error> {
    match ReadTier(cx.ts, row)
    case Err(e) => Some(e)
    case Ok(tier) =>
      match ReadKey(row, cx.ts.pkCols)
      case Err(e) => Some(e)
      case Ok(_) => if Expired(cx, tier) then Some(BelowRetention(tier, cx.retention)) else None
  }

  // A write needs tier key, then the retention line, then what its place asks for.
  function WriteProblem(cx: Ctx, heapKeys: set<Key>, raw: Json): Option<Error> {
    var row := Normalize(cx.ts, raw);
    match ReadTier(cx.ts, row)
    case Err(e) => Some(e)
    case Ok(tier) =>
      if Expired(cx, tier) then Some(BelowRetention(tier, cx.retention))
      else
        match ImagePlace(cx, raw)
        case Some(InHeap) =>
          if !HeapTakes(cx.ts, row) || (cx.policy.RejectDuplicate? && ImageKey(cx, raw) in heapKeys)
          then Some(StatementFailed) else None
        case Some(InDelta) => (match ReadKey(row, cx.ts.pkCols) case Err(e) => Some(e) case Ok(_) => None)
        case _ => None
  }

  lemma RemovalErrors(cx: Ctx, w: Work<Key>, row: Json)
    requires cx.fail.None?
    ensures DeleteRow(cx, w, row).err == RemovalProblem(cx, row)
    ensures RemovalProblem(cx, row).Some? ==> DeleteRow(cx, w, row).work == w
    ensures RemovalProblem(cx, row).None? <==> Deletable(cx, row)
  {
  }

  lemma WriteErrors(cx: Ctx, w: Work<(Key, Row)>, raw: Json)
    requires cx.fail.None?
    ensures WriteRow(cx, w, raw).err == WriteProblem(cx, w.t.heap.Keys, raw)
    ensures WriteProblem(cx, w.t.heap.Keys, raw).Some? ==> WriteRow(cx, w, raw).work.t == w.t
  {
  }

  // ---------- the first problem decides ----------

  lemma {:induction false} DeleteFoldStops(cx: Ctx, w: Work<Key>, rows: seq<Json>, i: nat)
    requires cx.fail.None? && i < |rows| && RemovalProblem(cx, rows[i]).Some?
    requires forall j :: 0 <= j < i ==> Deletable(cx, rows[j])
    ensures DeleteFold(cx, w, rows).err == RemovalProblem(cx, rows[i])
    ensures DeleteFold(cx, w, rows).work == DeleteFold(cx, w, rows[..i]).work
    decreases i
  {
    RemovalErrors(cx, w, rows[0]);
    if i > 0 {
      assert forall j {:trigger rows[1..][j]} :: 0 <= j < i - 1 ==> rows[1..][j] == rows[j + 1];
      DeleteFoldStops(cx, DeleteRow(cx, w, rows[0]).work, rows[1..], i - 1);
      assert rows[..i][1..] == rows[1..][..i - 1];
    }
  }

  lemma {:induction false} WriteFoldStops(cx: Ctx, w: Work<(Key, Row)>, rows: seq<Json>, i: nat)
    requires cx.fail.None? && i < |rows| && WriteFold(cx, w, rows[..i]).err.None?
    requires WriteProblem(cx, WriteFold(cx, w, rows[..i]).work.t.heap.Keys, rows[i]).Some?
    ensures var done := WriteFold(cx, w, rows[..i]).work.t;
            && WriteFold(cx, w, rows).err == WriteProblem(cx, done.heap.Keys, rows[i])
            && WriteFold(cx, w, rows).work.t == done
    decreases i
  {
    WriteErrors(cx, w, rows[0]);
    if i > 0 {
      assert rows[..i][1..] == rows[1..][..i - 1];
      WriteFoldStops(cx, WriteRow(cx, w, rows[0]).work, rows[1..], i - 1);
    }
  }

  lemma DeleteLegStops(cx: Ctx, t: Tables, ran: nat, rows: seq<Json>, i: nat)
    requires Runnable(cx) && KeysAreColumns(cx.ts) && i < |rows| && RemovalProblem(cx, rows[i]).Some?
    requires forall j :: 0 <= j < i ==> Deletable(cx, rows[j])
    ensures var r := DeleteLeg(cx, t, ran, rows);
            r.lake == Err(RemovalProblem(cx, rows[i]).value) && r.t == AfterDelete(cx, t, rows[..i])
  {
    KnownIsColumn(cx.ts);
    DeleteFoldStops(cx, Start(t, ran), rows, i);
    assert forall row <- rows[..i] :: Deletable(cx, row);
    DeleteFoldAccepted(cx, Start(t, ran), rows[..i]);
    DeleteFoldExact(cx, Start(t, ran), rows[..i]);
  }

  lemma WriteLegStops(cx: Ctx, t: Tables, ran: nat, rows: seq<Json>, i: nat)
    requires Runnable(cx) && i < |rows| && WritesFit(cx, t.heap.Keys, rows[..i])
    requires WriteProblem(cx, AfterWrite(cx, t, rows[..i]).heap.Keys, rows[i]).Some?
    ensures var r := WriteLeg(cx, t, ran, rows);
            && r.lake == Err(WriteProblem(cx, AfterWrite(cx, t, rows[..i]).heap.Keys, rows[i]).value)
            && r.t == AfterWrite(cx, t, rows[..i])
  {
    WriteFoldAccepted(cx, Start(t, ran), rows[..i]);
    WriteFoldExact(cx, Start(t, ran), rows[..i]);
    WriteFoldStops(cx, Start(t, ran), rows, i);
  }

  /** A delete with Postgres granting everything stops at the first row it cannot
      remove, with that row's error, and exactly the rows before it are removed. */
  lemma DeleteStops(cx: Ctx, t: Tables, keys: seq<Json>, i: nat)
    requires Runnable(cx) && KeysAreColumns(cx.ts) && i < |keys| && RemovalProblem(cx, keys[i]).Some?
    requires forall j :: 0 <= j < i ==> Deletable(cx, keys[j])
    ensures var r := Chunk(cx, t, Delete(keys));
            r.lake == Err(RemovalProblem(cx, keys[i]).value) && r.t == AfterDelete(cx, t, keys[..i])
  {
    DeleteLegStops(cx, t, 0, keys, i);
  }

  /** An insert stops at the first row it cannot write, a duplicate heap key
      included, with that row's error, and exactly the rows before it are written. */
  lemma InsertStops(cx: Ctx, t: Tables, rows: seq<Json>, i: nat)
    requires Runnable(cx) && i < |rows| && WritesFit(cx, t.heap.Keys, rows[..i])
    requires WriteProblem(cx, AfterWrite(cx, t, rows[..i]).heap.Keys, rows[i]).Some?
    ensures var r := Chunk(cx, t, Insert(rows));
            && r.lake == Err(WriteProblem(cx, AfterWrite(cx, t, rows[..i]).heap.Keys, rows[i]).value)
            && r.t == AfterWrite(cx, t, rows[..i])
  {
    WriteLegStops(cx, t, 0, rows, i);
  }

  /** An update that cannot remove an old row writes nothing at all. */
  lemma UpdateStopsRemoving(cx: Ctx, t: Tables, pairs: seq<Json>, i: nat)
    requires Runnable(cx) && KeysAreColumns(cx.ts) && SplitPairs(pairs).Ok?
    requires var olds := SplitPairs(pairs).value.0;
             i < |olds| && RemovalProblem(cx, olds[i]).Some? && forall j :: 0 <= j < i ==> Deletable(cx, olds[j])
    ensures var olds := SplitPairs(pairs).value.0;
            var r := Chunk(cx, t, Update(pairs));
            r.lake == Err(RemovalProblem(cx, olds[i]).value) && r.t == AfterDelete(cx, t, olds[..i])
  {
    DeleteLegStops(cx, t, 0, SplitPairs(pairs).value.0, i);
  }

  /** One that cannot write a new row has done all its removals and the writes
      before that row. */
  lemma UpdateStopsWriting(cx: Ctx, t: Tables, pairs: seq<Json>, i: nat)
    requires Runnable(cx) && SplitPairs(pairs).Ok? && DeletesFit(cx, SplitPairs(pairs).value.0)
    requires var (olds, news) := SplitPairs(pairs).value;
             var mid := AfterDelete(cx, t, olds);
             i < |news| && WritesFit(cx, mid.heap.Keys, news[..i]) &&
             WriteProblem(cx, AfterWrite(cx, mid, news[..i]).heap.Keys, news[i]).Some?
    ensures var (olds, news) := SplitPairs(pairs).value;
            var done := AfterWrite(cx, AfterDelete(cx, t, olds), news[..i]);
            var r := Chunk(cx, t, Update(pairs));
            r.lake == Err(WriteProblem(cx, done.heap.Keys, news[i]).value) && r.t == done
  {
    var (olds, news) := SplitPairs(pairs).value;
    DeleteLegAccepted(cx, t, 0, olds);
    DeleteFoldExact(cx, Start(t, 0), olds);
    var d := DeleteLeg(cx, t, 0, olds);
    WriteLegStops(cx, d.t, d.ran, news, i);
  }

  /** What is refused before any row is looked at leaves the tables alone: a
      malformed pair, and a key column that is no column of the table. */
  lemma RefusedAtOnce(cx: Ctx, t: Tables, dml: Dml)
    requires Runnable(cx)
    requires match dml
             case Insert(_) => false
             case Delete(_) => !KeysAreColumns(cx.ts)
             case Update(pairs) => SplitPairs(pairs).Err? || !KeysAreColumns(cx.ts)
    ensures var r := Chunk(cx, t, dml);
            && r.t == t && r.ran == 0
            && r.lake == Err(if dml.Update? && SplitPairs(dml.pairs).Err? then SplitPairs(dml.pairs).error
                             else UnknownKeyColumn)
  {
    KnownIsColumn(cx.ts);
  }

  // ---------- a statement Postgres refuses ----------

  // A step of the chunk `cx` with the refusal, against the same step without it.
  predicate RefusedHere<A(==)>(cx: Ctx, n: nat, free: Outcome<A>, o: Outcome<A>) {
    if n >= free.work.ran then o == free
    else o.err == Some(StatementFailed) && o.work.ran == n + 1
  }

  lemma DeleteRowRefused(cx: Ctx, w: Work<Key>, row: Json, n: nat)
    requires cx.fail == Some(n) && w.ran <= n
    ensures RefusedHere(cx, n, DeleteRow(cx.(fail := None), w, row), DeleteRow(cx, w, row))
    ensures w.ran <= DeleteRow(cx.(fail := None), w, row).work.ran <= w.ran + 1
  {
  }

  lemma WriteRowRefused(cx: Ctx, w: Work<(Key, Row)>, raw: Json, n: nat)
    requires cx.fail == Some(n) && w.ran <= n
    ensures RefusedHere(cx, n, WriteRow(cx.(fail := None), w, raw), WriteRow(cx, w, raw))
    ensures w.ran <= WriteRow(cx.(fail := None), w, raw).work.ran <= w.ran + 1
  {
  }

  lemma {:induction false} DeleteFoldRefused(cx: Ctx, w: Work<Key>, rows: seq<Json>, n: nat)
    requires cx.fail == Some(n) && w.ran <= n
    ensures RefusedHere(cx, n, DeleteFold(cx.(fail := None), w, rows), DeleteFold(cx, w, rows))
    ensures w.ran <= DeleteFold(cx.(fail := None), w, rows).work.ran
    decreases |rows|
  {
    if rows != [] {
      var free := DeleteRow(cx.(fail := None), w, rows[0]);
      DeleteRowRefused(cx, w, rows[0], n);
      if free.err.None? && n >= free.work.ran {
        DeleteFoldRefused(cx, free.work, rows[1..], n);
      } else if free.err.None? {
        DeleteFoldRuns(cx.(fail := None), free.work, rows[1..]);
      }
    }
  }

  lemma {:induction false} DeleteFoldRuns(cx: Ctx, w: Work<Key>, rows: seq<Json>)
    ensures w.ran <= DeleteFold(cx, w, rows).work.ran
    decreases |rows|
  {
    if rows != [] {
      DeleteFoldRuns(cx, DeleteRow(cx, w, rows[0]).work, rows[1..]);
    }
  }

  lemma {:induction false} WriteFoldRuns(cx: Ctx, w: Work<(Key, Row)>, rows: seq<Json>)
    ensures w.ran <= WriteFold(cx, w, rows).work.ran
    decreases |rows|
  {
    if rows != [] {
      WriteFoldRuns(cx, WriteRow(cx, w, rows[0]).work, rows[1..]);
    }
  }

  lemma {:induction false} WriteFoldRefused(cx: Ctx, w: Work<(Key, Row)>, rows: seq<Json>, n: nat)
    requires cx.fail == Some(n) && w.ran <= n
    ensures RefusedHere(cx, n, WriteFold(cx.(fail := None), w, rows), WriteFold(cx, w, rows))
    decreases |rows|
  {
    if rows != [] {
      var free := WriteRow(cx.(fail := None), w, rows[0]);
      WriteRowRefused(cx, w, rows[0], n);
      if free.err.None? && n >= free.work.ran {
        WriteFoldRefused(cx, free.work, rows[1..], n);
      } else if free.err.None? {
        WriteFoldRuns(cx.(fail := None), free.work, rows[1..]);
      }
    }
  }

  predicate LegRefused(n: nat, free: LegResult, r: LegResult) {
    if n >= free.ran then r == free else r.lake == Err(StatementFailed) && r.ran == n + 1
  }

  lemma DeleteLegRefused(cx: Ctx, t: Tables, ran: nat, rows: seq<Json>, n: nat)
    requires cx.fail == Some(n) && ran <= n
    ensures LegRefused(n, DeleteLeg(cx.(fail := None), t, ran, rows), DeleteLeg(cx, t, ran, rows))
  {
    DeleteFoldRefused(cx, Start(t, ran), rows, n);
  }

  lemma WriteLegRefused(cx: Ctx, t: Tables, ran: nat, rows: seq<Json>, n: nat)
    requires cx.fail == Some(n) && ran <= n
    ensures LegRefused(n, WriteLeg(cx.(fail := None), t, ran, rows), WriteLeg(cx, t, ran, rows))
  {
    WriteFoldRefused(cx, Start(t, ran), rows, n);
  }

  lemma WriteLegRuns(cx: Ctx, t: Tables, ran: nat, rows: seq<Json>)
    ensures ran <= WriteLeg(cx, t, ran, rows).ran
  {
    WriteFoldRuns(cx, Start(t, ran), rows);
  }

  /** A refused statement fails its chunk, whichever it is, the lake lock included:
      the chunk ends there with that error if it would have run so many statements,
      and goes as if nothing were refused if not. */
  lemma RefusedStatementFails(cx: Ctx, t: Tables, dml: Dml, n: nat)
    requires cx.fail == Some(n)
    ensures LegRefused(n, Chunk(cx.(fail := None), t, dml), Chunk(cx, t, dml))
  {
    match dml
    case Insert(rows) => WriteLegRefused(cx, t, 0, rows, n);
    case Delete(keys) => DeleteLegRefused(cx, t, 0, keys, n);
    case Update(pairs) =>
      if SplitPairs(pairs).Ok? {
        var (olds, news) := SplitPairs(pairs).value;
        DeleteLegRefused(cx, t, 0, olds, n);
        var d := DeleteLeg(cx.(fail := None), t, 0, olds);
        if d.lake.Ok? {
          if d.ran <= n {
            WriteLegRefused(cx, d.t, d.ran, news, n);
          }
          WriteLegRuns(cx.(fail := None), d.t, d.ran, news);
        }
      }
  }

  // ---------- how many statements ----------

  lemma {:induction false} DeleteFoldCounts(cx: Ctx, w: Work<Key>, rows: seq<Json>)
    requires DeleteFold(cx, w, rows).err.None?
    ensures DeleteFold(cx, w, rows).work.ran == w.ran + |rows| - |LakeKeys(cx, rows)|
    decreases |rows|
  {
    if rows != [] {
      DeleteFoldCounts(cx, DeleteRow(cx, w, rows[0]).work, rows[1..]);
    }
  }

  lemma {:induction false} WriteFoldCounts(cx: Ctx, w: Work<(Key, Row)>, rows: seq<Json>)
    requires WriteFold(cx, w, rows).err.None?
    ensures WriteFold(cx, w, rows).work.ran == w.ran + |rows| - |LakeRows(cx, rows)|
    decreases |rows|
  {
    if rows != [] {
      WriteFoldCounts(cx, WriteRow(cx, w, rows[0]).work, rows[1..]);
    }
  }

  function Lock<A>(batch: seq<A>): nat {
    if batch == [] then 0 else 1
  }

  // One statement for each row that stays in Postgres, and one lock for a lake batch.
  function DeleteStatements(cx: Ctx, rows: seq<Json>): int {
    |rows| - |LakeKeys(cx, rows)| + Lock(LakeKeys(cx, rows))
  }

  function WriteStatements(cx: Ctx, rows: seq<Json>): int {
    |rows| - |LakeRows(cx, rows)| + Lock(LakeRows(cx, rows))
  }

  /** An accepted chunk runs one Postgres statement for each row that goes to heap or
      delta and takes the lake lock once for each leg that has a lake batch. */
  lemma StatementsRun(cx: Ctx, t: Tables, dml: Dml)
    requires Accepted(cx, t, dml)
    ensures Chunk(cx, t, dml).ran ==
            match dml
            case Insert(rows) => WriteStatements(cx, rows)
            case Delete(keys) => DeleteStatements(cx, keys)
            case Update(pairs) =>
              DeleteStatements(cx, SplitPairs(pairs).value.0) + WriteStatements(cx, SplitPairs(pairs).value.1)
  {
    match dml
    case Insert(rows) => WriteLegCounts(cx, t, 0, rows);
    case Delete(keys) => DeleteLegCounts(cx, t, 0, keys);
    case Update(pairs) =>
      var (olds, news) := SplitPairs(pairs).value;
      DeleteLegCounts(cx, t, 0, olds);
      var d := DeleteLeg(cx, t, 0, olds);
      WriteLegCounts(cx, d.t, d.ran, news);
  }

  lemma DeleteLegCounts(cx: Ctx, t: Tables, ran: nat, rows: seq<Json>)
    requires DeleteLeg(cx, t, ran, rows).lake.Ok?
    ensures DeleteLeg(cx, t, ran, rows).ran == ran + DeleteStatements(cx, rows)
  {
    DeleteFoldCounts(cx, Start(t, ran), rows);
    DeleteFoldExact(cx, Start(t, ran), rows);
  }

  lemma WriteLegCounts(cx: Ctx, t: Tables, ran: nat, rows: seq<Json>)
    requires WriteLeg(cx, t, ran, rows).lake.Ok?
    ensures WriteLeg(cx, t, ran, rows).ran == ran + WriteStatements(cx, rows)
  {
    WriteFoldCounts(cx, Start(t, ran), rows);
    WriteFoldExact(cx, Start(t, ran), rows);
  }

  // ---------- what is read off a row ----------

  function ScalarText(v: Json): Option<string> {
    match v
    case Text(s) => Some(s)
    case Number(n) => Some(n)
    case Bool(b) => Some(if b then "true" else "false")
    case _ => None
  }

  predicate Absent(row: Json, field: string) {
    !row.Object? || field !in row.fields || row.fields[field].Null?
  }

  /** A tier key is the encoding of its column's text, and each way it cannot be
      read has its own error. */
  lemma TierTexts(ts: TableSchema, row: Json)
    ensures ReadTier(ts, row) ==
            if Absent(row, ts.tierCol) then Err(MissingField(ts.tierCol))
            else
              match ScalarText(row.fields[ts.tierCol])
              case None => Err(UnsupportedType(ts.tierCol))
              case Some(text) =>
                match ts.encodeText(text)
                case Some(tier) => Ok(tier)
                case None => Err(BadTierKey(text))
  {
  }

  /** What a heap or lake row is keyed by: an absent or NULL column counts as NULL, a
      scalar as its text, and an array or object as its value. */
  lemma {:induction false} KeyCells(row: Json, cols: seq<string>, i: nat)
    requires i < |cols|
    ensures |KeyOf(row, cols).cells| == |cols|
    ensures KeyOf(row, cols).cells[i] ==
            if Absent(row, cols[i]) then NullCell
            else
              match ScalarText(row.fields[cols[i]])
              case Some(text) => TextCell(text)
              case None => StructCell(row.fields[cols[i]])
    decreases |cols|
  {
    if i > 0 {
      KeyCells(row, cols[1..], i - 1);
    } else if |cols| > 1 {
      KeyCells(row, cols[1..], 0);
    } else {
      assert Cells(row, cols[1..]) == [];
    }
  }

  /** A heap row cannot have a NULL key. */
  lemma NullKeyNotInHeap(cx: Ctx, t: Tables, row: Json, i: nat)
    requires Runnable(cx) && i < |cx.ts.pkCols| && Absent(Normalize(cx.ts, row), cx.ts.pkCols[i])
    requires ImagePlace(cx, row) == Some(InHeap)
    ensures Chunk(cx, t, Insert([row])).lake == Err(StatementFailed) && Chunk(cx, t, Insert([row])).t == t
  {
    var image := Normalize(cx.ts, row);
    KeyCells(image, cx.ts.pkCols, i);
    assert KeyOf(image, cx.ts.pkCols).cells[i] in KeyOf(image, cx.ts.pkCols).cells;
    assert [row][..0] == [] && !HeapTakes(cx.ts, image);
    NothingWritten(cx, t);
    WriteFoldAccepted(cx, Start(t, 0), []);
    InsertStops(cx, t, [row], 0);
  }

  lemma NothingWritten(cx: Ctx, t: Tables)
    ensures AfterWrite(cx, t, []) == t
  {
    assert Upserts(map[]) == map[];
  }

  /** A key is read as the texts of its columns, strings bare, numbers as printed,
      booleans as words; a column that is absent or NULL is missing, an array or
      object is unsupported. */
  lemma {:induction false} KeyTexts(row: Json, cols: seq<string>, i: nat)
    requires i < |cols|
    ensures ReadKey(row, cols).Ok? ==>
              && row.Object? && cols[i] in row.fields
              && |ReadKey(row, cols).value.cells| == |cols|
              && var text := ScalarText(row.fields[cols[i]]);
              && text.Some? && ReadKey(row, cols).value.cells[i] == TextCell(text.value)
    ensures ReadKey(row, cols).Err? && (forall j :: 0 <= j < i ==> FieldText(row, cols[j]).Ok?) &&
            FieldText(row, cols[i]).Err? ==>
              ReadKey(row, cols).error ==
              if Absent(row, cols[i]) then MissingField(cols[i]) else UnsupportedType(cols[i])
    decreases |cols|
  {
    if |cols| > 1 {
      if i > 0 {
        assert forall j {:trigger cols[1..][j]} :: 0 <= j < i - 1 ==> cols[1..][j] == cols[j + 1];
        KeyTexts(row, cols[1..], i - 1);
      } else {
        KeyTexts(row, cols[1..], 0);
      }
    }
  }
}
