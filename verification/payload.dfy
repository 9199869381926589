/**
 The JSON payloads the sinks build from a chunk of cells, and why a delete or
 update addresses the slot its row was written to.
 */
module Payload {
  import opened Wrappers
  import opened Rows

  // Adding a name twice keeps the last value.
  function ObjectOf(names: seq<string>, cells: seq<Json>): map<string, Json>
    requires |names| == |cells|
  {
    if names == [] then map[]
    else ObjectOf(names[..|names| - 1], cells[..|cells| - 1])[names[|names| - 1] := cells[|cells| - 1]]
  }

  predicate InRange(indexes: seq<nat>, width: nat) {
    forall k :: 0 <= k < |indexes| ==> indexes[k] < width
  }

  function Pick(row: seq<Json>, indexes: seq<nat>): seq<Json>
    requires InRange(indexes, |row|)
  {
    seq(|indexes|, k requires 0 <= k < |indexes| => row[indexes[k]])
  }

  method BuildObject(row: seq<Json>, indexes: seq<nat>, names: seq<string>) returns (fields: map<string, Json>)
    requires |indexes| == |names| && InRange(indexes, |row|)
    ensures fields == ObjectOf(names, Pick(row, indexes))
  {
    fields := map[];
    var cells := Pick(row, indexes);
    for k := 0 to |indexes|
      invariant fields == ObjectOf(names[..k], cells[..k])
    {
      assert names[..k + 1][..k] == names[..k] && cells[..k + 1][..k] == cells[..k];
      fields := fields[names[k] := row[indexes[k]]];
    }
    assert names[..|names|] == names && cells[..|cells|] == cells;
  }

  // `chunk` holds the rows of one data chunk.
  method KeysToJsonArray(chunk: seq<seq<Json>>, keyIndexes: seq<nat>, keyNames: seq<string>) returns (rows: seq<Json>)
    requires |keyIndexes| == |keyNames|
    requires forall row <- chunk :: InRange(keyIndexes, |row|)
    ensures |rows| == |chunk|
    ensures forall r :: 0 <= r < |chunk| ==> rows[r] == Object(ObjectOf(keyNames, Pick(chunk[r], keyIndexes)))
  {
    rows := [];
    for r := 0 to |chunk|
      invariant |rows| == r
      invariant forall q :: 0 <= q < r ==> rows[q] == Object(ObjectOf(keyNames, Pick(chunk[q], keyIndexes)))
    {
      var fields := BuildObject(chunk[r], keyIndexes, keyNames);
      rows := rows + [Object(fields)];
    }
  }

  function Trailing(width: nat, count: nat): seq<nat>
    requires count <= width
  {
    seq(count, k requires 0 <= k < count => width - count + k)
  }

  function UpdatePair(was: map<string, Json>, now: map<string, Json>): (pair: Json)
    ensures Get(pair, "old") == Some(Object(was)) && Get(pair, "new") == Some(Object(now))
  {
    Object(map["old" := Object(was), "new" := Object(now)])
  }

  lemma TrailingCells(row: seq<Json>, count: nat)
    requires count <= |row|
    ensures Pick(row, Trailing(|row|, count)) == row[|row| - count..]
  {
  }

  // One row's pair: the old routing key sits in the trailing columns of an
  // update's chunk.
  function PairOf(row: seq<Json>, newIndexes: seq<nat>, newNames: seq<string>, oldNames: seq<string>): (pair: Json)
    requires |newIndexes| == |newNames| && |oldNames| <= |row| && InRange(newIndexes, |row|)
    ensures Get(pair, "old") == Some(Object(ObjectOf(oldNames, row[|row| - |oldNames|..])))
    ensures Get(pair, "new") == Some(Object(ObjectOf(newNames, Pick(row, newIndexes))))
  {
    UpdatePair(ObjectOf(oldNames, row[|row| - |oldNames|..]), ObjectOf(newNames, Pick(row, newIndexes)))
  }

  method BuildPair(row: seq<Json>, oldIndexes: seq<nat>, newIndexes: seq<nat>, newNames: seq<string>,
                   oldNames: seq<string>)
    returns (pair: Json)
    requires |newIndexes| == |newNames| && |oldNames| <= |row| && InRange(newIndexes, |row|)
    requires oldIndexes == Trailing(|row|, |oldNames|)
    ensures pair == PairOf(row, newIndexes, newNames, oldNames)
  {
    TrailingCells(row, |oldNames|);
    var was := BuildObject(row, oldIndexes, oldNames);
    var now := BuildObject(row, newIndexes, newNames);
    pair := UpdatePair(was, now);
  }

  method BuildUpdatePayload(chunk: seq<seq<Json>>, width: nat, newIndexes: seq<nat>, newNames: seq<string>,
                            oldNames: seq<string>)
    returns (pairs: seq<Json>)
    requires |newIndexes| == |newNames| && |oldNames| <= width
    requires (forall row <- chunk :: |row| == width) && InRange(newIndexes, width)
    ensures |pairs| == |chunk|
    ensures forall r :: 0 <= r < |chunk| ==> pairs[r] == PairOf(chunk[r], newIndexes, newNames, oldNames)
  {
    pairs := [];
    var oldIndexes := Trailing(width, |oldNames|);
    for r := 0 to |chunk|
      invariant |pairs| == r
      invariant forall q :: 0 <= q < r ==> pairs[q] == PairOf(chunk[q], newIndexes, newNames, oldNames)
    {
      assert chunk[r] in chunk;
      var pair := BuildPair(chunk[r], oldIndexes, newIndexes, newNames, oldNames);
      pairs := pairs + [pair];
    }
  }

  // ---------- cell by cell ----------

  predicate LastOf(names: seq<string>, k: nat)
    requires k < |names|
  {
    forall j :: k < j < |names| ==> names[j] != names[k]
  }

  lemma {:induction false} ObjectOfAt(names: seq<string>, cells: seq<Json>, k: nat)
    requires |names| == |cells| && k < |names| && LastOf(names, k)
    ensures names[k] in ObjectOf(names, cells) && ObjectOf(names, cells)[names[k]] == cells[k]
    decreases |names|
  {
    if k < |names| - 1 {
      ObjectOfAt(names[..|names| - 1], cells[..|cells| - 1], k);
    }
  }

  lemma {:induction false} ObjectOfKeys(names: seq<string>, cells: seq<Json>)
    requires |names| == |cells|
    ensures ObjectOf(names, cells).Keys == set n | n in names
    decreases |names|
  {
    if names != [] {
      ObjectOfKeys(names[..|names| - 1], cells[..|cells| - 1]);
      assert names == names[..|names| - 1] + [names[|names| - 1]];
    }
  }

  /** An object built from a row has exactly the given fields, each holding the cell
      that its index names; of a name given twice the last counts. */
  lemma PickedObject(row: seq<Json>, indexes: seq<nat>, names: seq<string>)
    requires |indexes| == |names| && InRange(indexes, |row|)
    ensures var fields := ObjectOf(names, Pick(row, indexes));
            && fields.Keys == (set n | n in names)
            && forall k :: 0 <= k < |names| && LastOf(names, k) ==> fields[names[k]] == row[indexes[k]]
  {
    ObjectOfKeys(names, Pick(row, indexes));
    forall k | 0 <= k < |names| && LastOf(names, k)
      ensures ObjectOf(names, Pick(row, indexes))[names[k]] == row[indexes[k]]
    {
      ObjectOfAt(names, Pick(row, indexes), k);
    }
  }

  // ---------- the payload routes like its row ----------

  lemma {:induction false} ObjectOfReads(names: seq<string>, cells: seq<Json>, row: Json)
    requires |names| == |cells|
    requires forall i :: 0 <= i < |names| ==> Get(row, names[i]) == Some(cells[i])
    ensures forall c <- names :: Get(Object(ObjectOf(names, cells)), c) == Get(row, c)
    decreases |names|
  {
    if names != [] {
      ObjectOfReads(names[..|names| - 1], cells[..|cells| - 1], row);
      assert names == names[..|names| - 1] + [names[|names| - 1]];
    }
  }

  /** A routing key projected from a row, in the order of the routing columns,
      addresses the delta slot and the tier that the whole row was written under,
      also when the tier key is itself part of the primary key. */
  lemma ProjectedKeyAgrees(ts: TableSchema, row: Json, cells: seq<Json>)
    requires forall c <- RoutingCols(ts) :: !JsonColumn(ts.columns, c)
    requires |cells| == |RoutingCols(ts)|
    requires forall i :: 0 <= i < |cells| ==> Get(row, RoutingCols(ts)[i]) == Some(cells[i])
    ensures var payload := Object(ObjectOf(RoutingCols(ts), cells));
            && ReadKey(payload, ts.pkCols) == ReadKey(Normalize(ts, row), ts.pkCols)
            && ReadTier(ts, payload) == ReadTier(ts, Normalize(ts, row))
  {
    ObjectOfReads(RoutingCols(ts), cells, row);
    KeyAgreement(ts, row, Object(ObjectOf(RoutingCols(ts), cells)));
  }
}
