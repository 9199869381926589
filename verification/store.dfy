/**
 The merged read.  One logical table is kept in a hot heap, a cold lake and a
 delta overlay; the read is the UNION ALL of three legs, so it is a multiset and
 freedom from duplicates is something to prove.  A mirrored table keeps all its
 rows in the heap and is treated apart (module Refinement).
 */
module TieredStore {
  import opened Wrappers
  import opened Rows
  import opened Core
  import opened Dml

  datatype Store = Store(t: Tables, lake: map<Key, Row>)

  function OnSide(rows: map<Key, Row>, cut: Option<int>, target: Core.Target): map<Key, Row> {
    map k | k in rows && Route(rows[k].tier, cut) == target :: rows[k]
  }

  function HotLeg(s: Store, cut: Option<int>): map<Key, Row> {
    OnSide(s.t.heap, cut, Hot)
  }

  // Direct tables have no overlay; a tiered lake row is hidden by any entry for its key.
  function LakeLeg(mode: Mode, s: Store, cut: Option<int>): map<Key, Row> {
    OnSide(if mode.Direct? then s.lake else s.lake - s.t.delta.Keys, cut, Cold)
  }

  function Visible(delta: map<Key, DeltaEntry>): map<Key, Row> {
    map k | k in delta && delta[k].op.Upsert? :: Row(delta[k].tier, delta[k].payload)
  }

  function DeltaLeg(mode: Mode, s: Store, cut: Option<int>): map<Key, Row> {
    if mode.Direct? then map[] else OnSide(Visible(s.t.delta), cut, Cold)
  }

  function ColdRows(mode: Mode, s: Store, cut: Option<int>): map<Key, Row> {
    LakeLeg(mode, s, cut) + DeltaLeg(mode, s, cut)
  }

  function MergedRead(mode: Mode, s: Store, cut: Option<int>): multiset<(Key, Row)> {
    multiset(HotLeg(s, cut).Items) + multiset(LakeLeg(mode, s, cut).Items) + multiset(DeltaLeg(mode, s, cut).Items)
  }

  // The table a reader is meant to see.
  function View(mode: Mode, s: Store, cut: Option<int>): map<Key, Row> {
    HotLeg(s, cut) + ColdRows(mode, s, cut)
  }

  predicate Placed(mode: Mode, s: Store, cut: Option<int>) {
    HotLeg(s, cut).Keys !! ColdRows(mode, s, cut).Keys
  }

  // No key occurs twice in a read.
  ghost predicate KeyUnique(read: multiset<(Key, Row)>) {
    (forall p <- read :: read[p] == 1) && forall p, q | p in read && q in read && p.0 == q.0 :: p == q
  }

  lemma ItemsOf(m: map<Key, Row>)
    ensures forall p :: multiset(m.Items)[p] == if p.0 in m && m[p.0] == p.1 then 1 else 0
  {
    forall p: (Key, Row) ensures multiset(m.Items)[p] == if p.0 in m && m[p.0] == p.1 then 1 else 0 {
      assert p in m.Items <==> p.0 in m && m[p.0] == p.1;
    }
  }

  lemma ItemsAdd(a: map<Key, Row>, b: map<Key, Row>)
    requires a.Keys !! b.Keys
    ensures multiset((a + b).Items) == multiset(a.Items) + multiset(b.Items)
  {
    ItemsOf(a);
    ItemsOf(b);
    ItemsOf(a + b);
    forall p ensures multiset((a + b).Items)[p] == (multiset(a.Items) + multiset(b.Items))[p] {
    }
  }

  lemma LegsDisjoint(mode: Mode, s: Store, cut: Option<int>)
    ensures LakeLeg(mode, s, cut).Keys !! DeltaLeg(mode, s, cut).Keys
  {
  }

  /** The UNION ALL read shows no key twice exactly when no key is placed on both
      sides of the seam, and then it is the view, row for row. */
  lemma ReadIsViewIffPlaced(mode: Mode, s: Store, cut: Option<int>)
    ensures KeyUnique(MergedRead(mode, s, cut)) <==> Placed(mode, s, cut)
    ensures Placed(mode, s, cut) <==> MergedRead(mode, s, cut) == multiset(View(mode, s, cut).Items)
  {
    var hot, cold, read := HotLeg(s, cut), ColdRows(mode, s, cut), MergedRead(mode, s, cut);
    if Placed(mode, s, cut) {
      LegsDisjoint(mode, s, cut);
      ItemsAdd(LakeLeg(mode, s, cut), DeltaLeg(mode, s, cut));
      ItemsAdd(hot, cold);
      assert read == multiset(View(mode, s, cut).Items);
      ItemsOf(View(mode, s, cut));
      assert KeyUnique(read) by {
        forall p | p in read ensures read[p] == 1 {
          assert read[p] == multiset(View(mode, s, cut).Items)[p];
        }
      }
    } else {
      var k :| k in hot.Keys && k in cold.Keys;
      TwiceRead(mode, s, cut, k);
    }
  }

  lemma ReadCounts(mode: Mode, s: Store, cut: Option<int>, p: (Key, Row))
    ensures MergedRead(mode, s, cut)[p] ==
            multiset(HotLeg(s, cut).Items)[p] + multiset(ColdRows(mode, s, cut).Items)[p]
  {
    LegsDisjoint(mode, s, cut);
    ItemsAdd(LakeLeg(mode, s, cut), DeltaLeg(mode, s, cut));
  }

  lemma ReadFromBoth(mode: Mode, s: Store, cut: Option<int>, k: Key)
    requires k in HotLeg(s, cut) && k in ColdRows(mode, s, cut)
    ensures (k, HotLeg(s, cut)[k]) in MergedRead(mode, s, cut)
    ensures (k, ColdRows(mode, s, cut)[k]) in MergedRead(mode, s, cut)
  {
    var hot, cold := HotLeg(s, cut)[k], ColdRows(mode, s, cut)[k];
    ReadCounts(mode, s, cut, (k, hot));
    ReadCounts(mode, s, cut, (k, cold));
    ItemsOf(HotLeg(s, cut));
    ItemsOf(ColdRows(mode, s, cut));
  }

  // A key on both sides is read once from each, as two different rows.
  lemma TwiceRead(mode: Mode, s: Store, cut: Option<int>, k: Key)
    requires k in HotLeg(s, cut) && k in ColdRows(mode, s, cut)
    ensures !KeyUnique(MergedRead(mode, s, cut))
    ensures MergedRead(mode, s, cut) != multiset(View(mode, s, cut).Items)
  {
    var hot := HotLeg(s, cut)[k];
    DifferentSides(mode, s, cut, k);
    ReadFromBoth(mode, s, cut, k);
    assert (k, hot) !in multiset(View(mode, s, cut).Items) by {
      ItemsOf(View(mode, s, cut));
    }
  }

  lemma DifferentSides(mode: Mode, s: Store, cut: Option<int>, k: Key)
    requires k in HotLeg(s, cut) && k in ColdRows(mode, s, cut)
    ensures HotLeg(s, cut)[k] != ColdRows(mode, s, cut)[k] == View(mode, s, cut)[k]
  {
  }

  // ---------- the overlay is the delta log applied to the lake ----------

  function Replay(lake: map<Key, Row>, log: DeltaLog): map<Key, Row> {
    if log == [] then lake
    else
      var (k, e) := log[|log| - 1];
      var before := Replay(lake, log[..|log| - 1]);
      if e.op.Upsert? then before[k := Row(e.tier, e.payload)] else before - {k}
  }

  // The delta after a log of writes: it keeps the newest entry of each key.
  function Apply(delta: map<Key, DeltaEntry>, log: DeltaLog): map<Key, DeltaEntry>
    decreases |log|
  {
    if log == [] then delta else Apply(delta, log[..|log| - 1])[log[|log| - 1].0 := log[|log| - 1].1]
  }

  lemma OneMoreEntry(lake: map<Key, Row>, delta: map<Key, DeltaEntry>, k: Key, e: DeltaEntry)
    ensures var before, after := (lake - delta.Keys) + Visible(delta), delta[k := e];
            (lake - after.Keys) + Visible(after) ==
            if e.op.Upsert? then before[k := Row(e.tier, e.payload)] else before - {k}
  {
  }

  lemma {:induction false} ReplayIsOverlay(lake: map<Key, Row>, log: DeltaLog)
    ensures Replay(lake, log) == (lake - Apply(map[], log).Keys) + Visible(Apply(map[], log))
    decreases |log|
  {
    if log == [] {
      assert Replay(lake, log) == lake - {} + map[];
    } else {
      var before := log[..|log| - 1];
      ReplayIsOverlay(lake, before);
      OneMoreEntry(lake, Apply(map[], before), log[|log| - 1].0, log[|log| - 1].1);
    }
  }

  /** Reading the lake through the overlay is replaying, over the lake and in the
      order they were written, every delta write ever made. */
  lemma OverlayReadIsReplay(s: Store, log: DeltaLog, cut: Option<int>)
    requires s.t.delta == Apply(map[], log)
    ensures ColdRows(Tiered, s, cut) == OnSide(Replay(s.lake, log), cut, Cold)
  {
    ReplayIsOverlay(s.lake, log);
  }

  lemma {:induction false} EveryDeltaHasALog(delta: map<Key, DeltaEntry>) returns (log: DeltaLog)
    ensures Apply(map[], log) == delta
    decreases |delta|
  {
    if delta == map[] {
      log := [];
    } else {
      var k :| k in delta;
      var rest := EveryDeltaHasALog(delta - {k});
      log := rest + [(k, delta[k])];
      assert log[..|log| - 1] == rest;
    }
  }
}
