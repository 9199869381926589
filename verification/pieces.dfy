/**
 One UPDATE statement reaches the store as several chunks, each reading its own T
 and retention line.  Removals precede writes only within a chunk, so a row
 written by an early chunk can be taken back by a late one: exactly then does the
 order of the chunks matter.
 */
module Pieces {
  import opened Wrappers
  import opened Rows
  import opened Core
  import opened Dml
  import opened Exact
  import opened TieredStore
  import opened Refinement

  // One update chunk including its lake statements; None when it is rejected.
  function UpdateStore(cx: Ctx, s: Store, pairs: seq<Json>): Option<Store> {
    var r := Chunk(cx, s.t, Update(pairs));
    if r.lake.Ok? then Some(Landed(s, r)) else None
  }

  function Olds(pairs: seq<Json>): seq<Json> {
    if SplitPairs(pairs).Ok? then SplitPairs(pairs).value.0 else []
  }

  function News(pairs: seq<Json>): seq<Json> {
    if SplitPairs(pairs).Ok? then SplitPairs(pairs).value.1 else []
  }

  lemma UpdateStoreLands(cx: Ctx, s: Store, pairs: seq<Json>)
    requires UpdateStore(cx, s, pairs).Some?
    ensures UpdateStore(cx, s, pairs).value == Wrote(cx, Deleted(cx, s, Olds(pairs)), News(pairs))
  {
    UpdateLands(cx, s, Olds(pairs), News(pairs));
  }

  datatype Piece = Piece(cx: Ctx, pairs: seq<Json>)

  function RemovedBy(p: Piece, place: Place): set<Key> {
    Removed(p.cx, Olds(p.pairs), place)
  }

  function WrittenBy(p: Piece, place: Place): map<Key, Row> {
    Written(p.cx, News(p.pairs), place)
  }

  function UpdatePiece(s: Store, p: Piece): Option<Store> {
    UpdateStore(p.cx, s, p.pairs)
  }

  function RunBy(step: (Store, Piece) -> Option<Store>, s: Store, pieces: seq<Piece>): Option<Store>
    decreases |pieces|
  {
    if pieces == [] then Some(s)
    else
      match step(s, pieces[0])
      case None => None
      case Some(next) => RunBy(step, next, pieces[1..])
  }

  // The sink, chunk by chunk; the first rejected chunk ends the statement.
  function RunEach(s: Store, pieces: seq<Piece>): Option<Store> {
    RunBy(UpdatePiece, s, pieces)
  }

  function StepOf(p: Piece, s: Store): Store {
    Wrote(p.cx, Deleted(p.cx, s, Olds(p.pairs)), News(p.pairs))
  }

  function DeletedEach(s: Store, pieces: seq<Piece>): Store
    decreases |pieces|
  {
    if pieces == [] then s
    else DeletedEach(Deleted(pieces[0].cx, s, Olds(pieces[0].pairs)), pieces[1..])
  }

  function WroteEach(s: Store, pieces: seq<Piece>): Store
    decreases |pieces|
  {
    if pieces == [] then s
    else WroteEach(Wrote(pieces[0].cx, s, News(pieces[0].pairs)), pieces[1..])
  }

  // ---------- what is stored under a key at a place ----------

  function At(s: Store, place: Place, k: Key): Option<Row> {
    match place
    case InHeap => if k in s.t.heap then Some(s.t.heap[k]) else None
    case InDelta =>
      if k in s.t.delta && s.t.delta[k].op.Upsert? then Some(Row(s.t.delta[k].tier, s.t.delta[k].payload)) else None
    case InLake => if k in s.lake then Some(s.lake[k]) else None
  }

  // A removal that asks for this row's key at this place takes the row: the heap
  // has a floor at T, the lake a ceiling, a tombstone replaces whatever is there.
  predicate Takes(cx: Ctx, place: Place, row: Row) {
    match place
    case InHeap => cx.mode.Mirrored? || RouteTo(cx, row.tier).Hot?
    case InDelta => true
    case InLake => RouteTo(cx, row.tier).Cold?
  }

  lemma DeletedAt(cx: Ctx, s: Store, olds: seq<Json>, place: Place, k: Key)
    ensures At(Deleted(cx, s, olds), place, k) ==
            match At(s, place, k)
            case None => None
            case Some(row) => if k in Removed(cx, olds, place) && Takes(cx, place, row) then None else Some(row)
  {
    BatchKeys(cx, olds);
    if k in Tombstones(cx, olds) {
      assert Tombstones(cx, olds)[k] in Tombstones(cx, olds).Values;
    }
  }

  lemma WroteAt(cx: Ctx, s: Store, news: seq<Json>, place: Place, k: Key)
    ensures At(Wrote(cx, s, news), place, k) ==
            if k in Written(cx, news, place) then Some(Written(cx, news, place)[k]) else At(s, place, k)
  {
  }

  // ---------- removals and writes commute when nothing is taken back ----------

  // Some row written by `p` is taken, from the same place, by `q`.
  predicate TakesBack(p: Piece, q: Piece) {
    exists place, k <- RemovedBy(q, place) ::
      k in WrittenBy(p, place) && Takes(q.cx, place, WrittenBy(p, place)[k])
  }

  predicate NothingTakenBack(pieces: seq<Piece>) {
    forall i, j {:trigger TakesBack(pieces[i], pieces[j])} ::
      0 <= i < j < |pieces| ==> !TakesBack(pieces[i], pieces[j])
  }

  lemma Commute(p: Piece, q: Piece, s: Store)
    requires !TakesBack(p, q)
    ensures Deleted(q.cx, Wrote(p.cx, s, News(p.pairs)), Olds(q.pairs)) ==
            Wrote(p.cx, Deleted(q.cx, s, Olds(q.pairs)), News(p.pairs))
  {
    assert forall place, k <- RemovedBy(q, place) ::
        k in WrittenBy(p, place) ==> !Takes(q.cx, place, WrittenBy(p, place)[k]);
    CommuteHeap(s.t.heap, WrittenBy(p, InHeap), RemovedBy(q, InHeap), !q.cx.mode.Mirrored?, q.cx.cut);
    CommuteLake(s.lake, WrittenBy(p, InLake), RemovedBy(q, InLake), q.cx.cut);
    BatchKeys(q.cx, Olds(q.pairs));
    CommuteDelta(s.t.delta, Upserts(WrittenBy(p, InDelta)), Tombstones(q.cx, Olds(q.pairs)));
  }

  lemma CommuteHeap(heap: map<Key, Row>, rows: map<Key, Row>, keys: set<Key>, floored: bool, cut: Option<int>)
    requires forall k <- keys :: k in rows ==> floored && Route(rows[k].tier, cut).Cold?
    ensures HeapMinus(heap + rows, keys, floored, cut) == HeapMinus(heap, keys, floored, cut) + rows
  {
  }

  lemma CommuteLake(lake: map<Key, Row>, rows: map<Key, Row>, keys: set<Key>, cut: Option<int>)
    requires forall k <- keys :: k in rows ==> Route(rows[k].tier, cut).Hot?
    ensures LakeMinus(lake + rows, keys, cut) == LakeMinus(lake, keys, cut) + rows
  {
  }

  lemma CommuteDelta(delta: map<Key, DeltaEntry>, a: map<Key, DeltaEntry>, b: map<Key, DeltaEntry>)
    requires a.Keys !! b.Keys
    ensures (delta + a) + b == (delta + b) + a
  {
  }

  lemma {:induction false} CommuteEach(p: Piece, s: Store, pieces: seq<Piece>)
    requires forall i :: 0 <= i < |pieces| ==> !TakesBack(p, pieces[i])
    ensures DeletedEach(Wrote(p.cx, s, News(p.pairs)), pieces) == Wrote(p.cx, DeletedEach(s, pieces), News(p.pairs))
    decreases |pieces|
  {
    if pieces != [] {
      Commute(p, pieces[0], s);
      assert forall i {:trigger pieces[1..][i]} :: 0 <= i < |pieces[1..]| ==> pieces[1..][i] == pieces[i + 1];
      CommuteEach(p, Deleted(pieces[0].cx, s, Olds(pieces[0].pairs)), pieces[1..]);
    }
  }

  lemma {:induction false} RemovalsThenWrites(s: Store, pieces: seq<Piece>)
    requires RunEach(s, pieces).Some? && NothingTakenBack(pieces)
    ensures RunEach(s, pieces).value == WroteEach(DeletedEach(s, pieces), pieces)
    decreases |pieces|
  {
    if pieces != [] {
      var p, rest := pieces[0], pieces[1..];
      var removed := Deleted(p.cx, s, Olds(p.pairs));
      RunTail(s, pieces);
      assert forall i {:trigger rest[i]} :: 0 <= i < |rest| ==> rest[i] == pieces[i + 1];
      RemovalsThenWrites(StepOf(p, s), rest);
      CommuteEach(p, removed, rest);
    }
  }

  // ---------- and only then ----------

  // Each new key is written by one chunk of the statement at most.
  predicate WrittenOnce(pieces: seq<Piece>) {
    forall i, j {:trigger Apart(pieces[i], pieces[j])} :: 0 <= i < j < |pieces| ==> Apart(pieces[i], pieces[j])
  }

  predicate Apart(p: Piece, q: Piece) {
    forall place :: WrittenBy(p, place).Keys !! WrittenBy(q, place).Keys
  }

  lemma StepAt(p: Piece, s: Store, place: Place, k: Key)
    ensures At(StepOf(p, s), place, k) ==
            if k in WrittenBy(p, place) then Some(WrittenBy(p, place)[k])
            else if At(s, place, k).Some? && k in RemovedBy(p, place) && Takes(p.cx, place, At(s, place, k).value)
              then None
            else At(s, place, k)
  {
    DeletedAt(p.cx, s, Olds(p.pairs), place, k);
    WroteAt(p.cx, Deleted(p.cx, s, Olds(p.pairs)), News(p.pairs), place, k);
  }

  // The stores an accepted statement goes through.
  predicate Steps(pieces: seq<Piece>, stores: seq<Store>) {
    |stores| == |pieces| + 1 && forall m :: 0 <= m < |pieces| ==> Follows(pieces, stores, m)
  }

  predicate Follows(pieces: seq<Piece>, stores: seq<Store>, m: nat)
    requires m < |pieces| && |stores| == |pieces| + 1
  {
    stores[m + 1] == StepOf(pieces[m], stores[m])
  }

  // `next` comes from `s` by one step.
  predicate Leads(step: (Store, Piece) -> Option<Store>, pieces: seq<Piece>, stores: seq<Store>, m: nat)
    requires m < |pieces| && |stores| == |pieces| + 1
  {
    step(stores[m], pieces[m]) == Some(stores[m + 1])
  }

  lemma {:induction false} StoresBy(step: (Store, Piece) -> Option<Store>, s: Store, pieces: seq<Piece>)
    returns (stores: seq<Store>)
    requires RunBy(step, s, pieces).Some?
    ensures |stores| == |pieces| + 1 && stores[0] == s && RunBy(step, s, pieces) == Some(stores[|pieces|])
    ensures forall m :: 0 <= m < |pieces| ==> Leads(step, pieces, stores, m)
    decreases |pieces|
  {
    if pieces == [] {
      stores := [s];
    } else {
      var rest := StoresBy(step, step(s, pieces[0]).value, pieces[1..]);
      stores := [s] + rest;
      forall m | 0 <= m < |pieces| ensures Leads(step, pieces, stores, m) {
        if m > 0 {
          assert Leads(step, pieces[1..], rest, m - 1);
          assert pieces[1..][m - 1] == pieces[m];
        }
      }
    }
  }

  lemma StoresOf(s: Store, pieces: seq<Piece>) returns (stores: seq<Store>)
    requires RunEach(s, pieces).Some?
    ensures Steps(pieces, stores) && stores[0] == s && RunEach(s, pieces) == Some(stores[|pieces|])
  {
    stores := StoresBy(UpdatePiece, s, pieces);
    forall m | 0 <= m < |pieces| ensures Follows(pieces, stores, m) {
      assert Leads(UpdatePiece, pieces, stores, m);
      UpdateStoreLands(pieces[m].cx, stores[m], pieces[m].pairs);
    }
  }

  lemma RunTail(s: Store, pieces: seq<Piece>)
    requires pieces != [] && RunEach(s, pieces).Some?
    ensures RunEach(StepOf(pieces[0], s), pieces[1..]) == RunEach(s, pieces)
  {
    UpdateStoreLands(pieces[0].cx, s, pieces[0].pairs);
  }

  // Row `k`, written by piece `i`, is taken by piece `j`.
  predicate Back(pieces: seq<Piece>, i: nat, j: nat, place: Place, k: Key)
    requires i < j < |pieces|
  {
    && k in RemovedBy(pieces[j], place) && k in WrittenBy(pieces[i], place)
    && Takes(pieces[j].cx, place, WrittenBy(pieces[i], place)[k])
  }

  // What was a row or nothing before a step is that row or nothing after it; after
  // step `j` it is nothing.
  predicate Fades(seen: seq<Option<Row>>, m: nat, row: Row, j: nat)
    requires m + 1 < |seen|
  {
    seen[m] == None || seen[m] == Some(row) ==> seen[m + 1] == None || (seen[m + 1] == seen[m] && m != j)
  }

  lemma {:induction false} FadesAway(seen: seq<Option<Row>>, i: nat, j: nat, n: nat, row: Row)
    requires i < j < |seen| - 1 && i < n < |seen| && seen[i + 1] == Some(row)
    requires forall m :: i < m < |seen| - 1 ==> Fades(seen, m, row, j)
    ensures seen[n] == None || (n <= j && seen[n] == Some(row))
    decreases n
  {
    if n > i + 1 {
      FadesAway(seen, i, j, n - 1, row);
      assert Fades(seen, n - 1, row, j);
    }
  }

  // What is seen under a key in each store.
  function Seen(stores: seq<Store>, place: Place, k: Key): seq<Option<Row>> {
    seq(|stores|, m requires 0 <= m < |stores| => At(stores[m], place, k))
  }

  lemma StepFades(pieces: seq<Piece>, stores: seq<Store>, m: nat, place: Place, k: Key, row: Row, j: nat)
    requires m < |pieces| && Steps(pieces, stores) && k !in WrittenBy(pieces[m], place)
    requires m == j ==> k in RemovedBy(pieces[m], place) && Takes(pieces[m].cx, place, row)
    ensures Fades(Seen(stores, place, k), m, row, j)
  {
    assert Follows(pieces, stores, m);
    StepAt(pieces[m], stores[m], place, k);
  }

  lemma WrittenSeen(pieces: seq<Piece>, stores: seq<Store>, i: nat, place: Place, k: Key)
    requires Steps(pieces, stores) && i < |pieces| && k in WrittenBy(pieces[i], place)
    ensures Seen(stores, place, k)[i + 1] == Some(WrittenBy(pieces[i], place)[k])
  {
    assert Follows(pieces, stores, i);
    StepAt(pieces[i], stores[i], place, k);
  }

  lemma BackFades(pieces: seq<Piece>, stores: seq<Store>, i: nat, j: nat, m: nat, place: Place, k: Key)
    requires Steps(pieces, stores) && WrittenOnce(pieces) && i < j < |pieces| && Back(pieces, i, j, place, k)
    requires i < m < |pieces|
    ensures Fades(Seen(stores, place, k), m, WrittenBy(pieces[i], place)[k], j)
  {
    assert Apart(pieces[i], pieces[m]);
    StepFades(pieces, stores, m, place, k, WrittenBy(pieces[i], place)[k], j);
  }

  lemma TakenBackIsGone(pieces: seq<Piece>, stores: seq<Store>, i: nat, j: nat, place: Place, k: Key)
    requires Steps(pieces, stores) && WrittenOnce(pieces) && i < j < |pieces| && Back(pieces, i, j, place, k)
    ensures At(stores[|pieces|], place, k) == None
  {
    var row, seen := WrittenBy(pieces[i], place)[k], Seen(stores, place, k);
    WrittenSeen(pieces, stores, i, place, k);
    forall m | i < m < |pieces| ensures Fades(seen, m, row, j) {
      BackFades(pieces, stores, i, j, m, place, k);
    }
    FadesAway(seen, i, j, |pieces|, row);
  }

  predicate NotWritten(pieces: seq<Piece>, place: Place, k: Key) {
    forall j :: 0 <= j < |pieces| ==> k !in WrittenBy(pieces[j], place)
  }

  lemma OnceRest(pieces: seq<Piece>, rest: seq<Piece>)
    requires pieces != [] && rest == pieces[1..] && WrittenOnce(pieces)
    ensures WrittenOnce(rest)
  {
    forall i, j | 0 <= i < j < |rest| ensures Apart(rest[i], rest[j]) {
      assert rest[i] == pieces[i + 1] && rest[j] == pieces[j + 1];
    }
  }

  lemma OnceFirst(pieces: seq<Piece>, rest: seq<Piece>, place: Place, k: Key)
    requires pieces != [] && rest == pieces[1..] && WrittenOnce(pieces) && k in WrittenBy(pieces[0], place)
    ensures NotWritten(rest, place, k)
  {
    forall j | 0 <= j < |rest| ensures k !in WrittenBy(rest[j], place) {
      assert rest[j] == pieces[j + 1] && Apart(pieces[0], pieces[j + 1]);
    }
  }

  lemma {:induction false} NotWrittenStays(s: Store, pieces: seq<Piece>, place: Place, k: Key)
    requires NotWritten(pieces, place, k)
    ensures At(WroteEach(s, pieces), place, k) == At(s, place, k)
    decreases |pieces|
  {
    if pieces != [] {
      var rest := pieces[1..];
      WroteAt(pieces[0].cx, s, News(pieces[0].pairs), place, k);
      assert forall m {:trigger rest[m]} :: 0 <= m < |rest| ==> rest[m] == pieces[m + 1];
      NotWrittenStays(Wrote(pieces[0].cx, s, News(pieces[0].pairs)), rest, place, k);
    }
  }

  lemma {:induction false} WrittenIsThere(s: Store, pieces: seq<Piece>, i: nat, place: Place, k: Key)
    requires WrittenOnce(pieces) && i < |pieces| && k in WrittenBy(pieces[i], place)
    ensures At(WroteEach(s, pieces), place, k) == Some(WrittenBy(pieces[i], place)[k])
    decreases |pieces|
  {
    var p, rest := pieces[0], pieces[1..];
    if i == 0 {
      OnceFirst(pieces, rest, place, k);
      WroteAt(p.cx, s, News(p.pairs), place, k);
      NotWrittenStays(Wrote(p.cx, s, News(p.pairs)), rest, place, k);
    } else {
      OnceRest(pieces, rest);
      assert rest[i - 1] == pieces[i];
      WrittenIsThere(Wrote(p.cx, s, News(p.pairs)), rest, i - 1, place, k);
    }
  }

  /** An accepted UPDATE in chunks, each routed by the T it read itself, that writes
      each new key once: all its removals take effect before all its writes if and
      only if no chunk takes back a row that an earlier one wrote. */
  lemma RemovalsThenWritesExactly(s: Store, pieces: seq<Piece>)
    requires RunEach(s, pieces).Some? && WrittenOnce(pieces)
    ensures RunEach(s, pieces).value == WroteEach(DeletedEach(s, pieces), pieces) <==> NothingTakenBack(pieces)
  {
    if NothingTakenBack(pieces) {
      RemovalsThenWrites(s, pieces);
    } else {
      var i, j, place, k := SomeBack(pieces);
      var stores := StoresOf(s, pieces);
      TakenBackIsGone(pieces, stores, i, j, place, k);
      WrittenIsThere(DeletedEach(s, pieces), pieces, i, place, k);
    }
  }

  lemma SomeBack(pieces: seq<Piece>) returns (i: nat, j: nat, place: Place, k: Key)
    requires !NothingTakenBack(pieces)
    ensures i < j < |pieces| && Back(pieces, i, j, place, k)
  {
    i, j :| 0 <= i < j < |pieces| && TakesBack(pieces[i], pieces[j]);
    place, k :| k in RemovedBy(pieces[j], place) && k in WrittenBy(pieces[i], place)
      && Takes(pieces[j].cx, place, WrittenBy(pieces[i], place)[k]);
  }
}
