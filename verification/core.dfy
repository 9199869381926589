/**
 What this model assumes of `tierdb-core`, which lies outside the repository:
 routing, the per-mode plans (with `keep_heap = false`), the retention test, the
 delta entry, and the meaning of the two lake statements.
 */
module Core {
  import opened Wrappers
  import opened Rows

  datatype Mode = Tiered | Mirrored | Direct

  datatype Target = Hot | Cold

  // The cut-line T as a chunk reads it; no cut-line routes everything hot.
  function Route(tier: int, cut: Option<int>): Target {
    if cut.None? || tier >= cut.value then Hot else Cold
  }

  datatype ColdSink = Delta | Lake

  datatype InsertPlan = InsertPlan(cold: Option<ColdSink>, checkRetention: bool, toHeap: bool)

  datatype DeletePlan = DeletePlan(cold: Option<ColdSink>, checkRetention: bool, fromHeap: bool, heapFloor: bool)

  function PlanInsert(mode: Mode, target: Target): InsertPlan {
    if mode.Mirrored? || target.Hot? then InsertPlan(None, false, true)
    else InsertPlan(Some(if mode.Tiered? then Delta else Lake), true, false)
  }

  // A mirrored heap also holds rows below T, so only the other modes apply the floor.
  function PlanDelete(mode: Mode, target: Target): DeletePlan {
    if mode.Mirrored? then DeletePlan(None, false, true, false)
    else if target.Hot? then DeletePlan(None, false, true, true)
    else DeletePlan(Some(if mode.Tiered? then Delta else Lake), true, false, false)
  }

  predicate RetentionRejects(tier: int, line: Option<int>) {
    line.Some? && tier < line.value
  }

  datatype Row = Row(tier: int, data: Json)

  datatype Op = Upsert | Tombstone

  datatype DeltaEntry = DeltaEntry(op: Op, tier: int, payload: Json)

  datatype LakeStmt =
    | DeleteKeys(keys: seq<Key>, below: Option<int>)
    | UpsertRows(rows: seq<(Key, Row)>)

  // Later rows of one statement win.
  function MapOf(rows: seq<(Key, Row)>): map<Key, Row> {
    if rows == [] then map[] else map[rows[0].0 := rows[0].1] + MapOf(rows[1..])
  }

  function ApplyStmt(lake: map<Key, Row>, stmt: LakeStmt): map<Key, Row> {
    match stmt
    case DeleteKeys(keys, below) => map k | k in lake && !(k in keys && Route(lake[k].tier, below).Cold?) :: lake[k]
    case UpsertRows(rows) => lake + MapOf(rows)
  }

  function ApplyAll(lake: map<Key, Row>, stmts: seq<LakeStmt>): map<Key, Row>
    decreases |stmts|
  {
    if stmts == [] then lake else ApplyAll(ApplyStmt(lake, stmts[0]), stmts[1..])
  }

  lemma {:induction false} ApplyAllConcat(lake: map<Key, Row>, a: seq<LakeStmt>, b: seq<LakeStmt>)
    ensures ApplyAll(lake, a + b) == ApplyAll(ApplyAll(lake, a), b)
    decreases |a|
  {
    if a == [] {
      assert a + b == b;
    } else {
      assert (a + b)[1..] == a[1..] + b;
      ApplyAllConcat(ApplyStmt(lake, a[0]), a[1..], b);
    }
  }

  // Whether a heap insert under the primary key refuses or replaces an existing
  // row is not fixed by this repository; every result holds for both.
  datatype HeapPolicy = RejectDuplicate | Overwrite
}
