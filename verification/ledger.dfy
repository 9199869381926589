/**
 Where every pin row is, over all interleavings: a ledger of events tells which
 pins were lost with a write transaction and which were left for good, and it
 accounts exactly for the pin table.
 */
module Ledger {
  import opened Wrappers
  import opened Interleaving
  import opened Frozen
  import S = Session
  import T = TxnSpec

  /** `joined`, `orphans` and `released` belong to the write transaction that is
      open on the server: pins its scans took, pins inserted by scans that then
      failed, pins released.  `lost` are pins taken in a write transaction since
      aborted or rolled back, `leaked` are rows that nobody will release. */
  datatype Book = Book(joined: set<nat>, orphans: set<nat>, released: set<nat>, lost: set<nat>, leaked: set<nat>)

  const BLANK := Book({}, {}, {}, {}, {})

  // ---------- events ----------

  predicate NewScan(w: World, a: Action) {
    a.Scan? && IsActive(w, a.id) && a.table !in w.clients[a.id].x.scans
  }

  // The scan returns with a pin.
  predicate TakesPin(w: World, a: Action) {
    NewScan(w, a) &&
    var scan := S.AcquireScan(w.conn, a.table, CutOf(w, a.table), a.reply).1;
    scan.Some? && scan.value.pin.Some?
  }

  // The scan joins the connection's transaction and fails after its pin insert.
  predicate OrphansPin(w: World, a: Action) {
    NewScan(w, a) && w.conn.inTxn && !w.conn.txn.Aborted? && a.reply.RenderFails? && CutOf(w, a.table).Some?
  }

  predicate Releases(w: World, a: Action) {
    a.Release? && a.id in w.clients && w.clients[a.id].Ending? && w.clients[a.id].toRelease != []
  }

  predicate ReleaseOk(w: World, a: Action)
    requires Releases(w, a)
  {
    S.ReleasePin(w.conn, w.clients[a.id].toRelease[0], a.granted).1
  }

  // The server's write transaction ends in this step, published or not.
  predicate Ends(w: World, a: Action) {
    w.conn.txn.Open? && !Step(w, a).conn.txn.Open?
  }

  predicate Publishes(w: World, a: Action) {
    Ends(w, a) && a.EndCommit? && a.granted
  }

  function Elements(pins: seq<nat>): set<nat> {
    set p | p in pins
  }

  function Settle(b: Book, published: bool): Book {
    if published then Book({}, {}, {}, b.lost, b.leaked + b.orphans)
    else Book({}, {}, {}, b.lost + b.joined, b.leaked + (b.released - b.joined))
  }

  function BookStep(w: World, b: Book, a: Action): Book {
    var c := if Ends(w, a) then Settle(b, Publishes(w, a)) else b;
    if TakesPin(w, a) then
      if w.conn.txn.Open? then c.(joined := c.joined + {w.conn.nextPin}) else c
    else if OrphansPin(w, a) then
      if w.conn.txn.Open? then c.(orphans := c.orphans + {w.conn.nextPin})
      else c.(leaked := c.leaked + {w.conn.nextPin})
    else if Releases(w, a) then
      var pins := w.clients[a.id].toRelease;
      if !ReleaseOk(w, a) then c.(leaked := c.leaked + (Elements(pins) - c.lost))
      else if w.conn.txn.Open? && pins[0] !in c.lost then c.(released := c.released + {pins[0]})
      else c
    else c
  }

  function BookRun(w: World, b: Book, actions: seq<Action>): Book
    decreases |actions|
  {
    if actions == [] then b
    else
      var before := actions[..|actions| - 1];
      BookStep(Run(w, before), BookRun(w, b, before), actions[|actions| - 1])
  }

  // ---------- the accounts ----------

  function PinsOf(client: Client): seq<nat> {
    match client
    case Active(x) => x.pins
    case Ending(pins) => pins
  }

  function Held(w: World): set<nat> {
    set id, p | id in w.clients && p in PinsOf(w.clients[id]) :: p
  }

  predicate Distinct(pins: seq<nat>) {
    forall i, j :: 0 <= i < j < |pins| ==> pins[i] != pins[j]
  }

  // Every pin has one holder.
  predicate Owned(w: World) {
    && (forall id <- w.clients :: Distinct(PinsOf(w.clients[id])))
    && (forall i, j, p :: i in w.clients && j in w.clients && i != j && p in PinsOf(w.clients[i]) ==>
          p !in PinsOf(w.clients[j]))
  }

  // Ids already given out.
  predicate Spent(init: set<nat>, held: set<nat>, b: Book, next: nat) {
    Below(init + held + b.joined + b.orphans + b.released + b.lost + b.leaked, next)
  }

  // The keys of the pin table, committed and pending, from the ledger.
  predicate Accounts(init: set<nat>, held: set<nat>, b: Book, c: S.ConnState) {
    && held !! init + b.orphans + b.released + b.leaked
    && init !! b.orphans + b.released + b.leaked
    && b.orphans !! b.leaked
    && c.committed.pins.Keys == init + (held - b.lost - b.joined) + b.leaked + (b.released - b.joined)
    && (c.txn.Open? ==> c.txn.work.pins.Keys == init + (held - b.lost) + b.leaked + b.orphans)
    && (!c.txn.Open? ==> b.joined == b.orphans == b.released == {})
    && (!c.txn.NoTxn? ==> c.inTxn)
  }

  predicate InitKept(init: map<nat, S.PinRow>, c: S.ConnState) {
    && (forall p <- init :: p in c.committed.pins ==> c.committed.pins[p] == init[p])
    && (c.txn.Open? ==> forall p <- init :: p in c.txn.work.pins ==> c.txn.work.pins[p] == init[p])
  }

  predicate Balanced(init: map<nat, S.PinRow>, w: World, b: Book) {
    && Owned(w)
    && Spent(init.Keys, Held(w), b, w.conn.nextPin)
    && Accounts(init.Keys, Held(w), b, w.conn)
    && InitKept(init, w.conn)
  }

  lemma HeldPut(w: World, id: int, client: Client, conn: S.ConnState)
    requires Owned(w) && Distinct(PinsOf(client))
    requires forall p <- PinsOf(client) :: p !in Held(w) || (id in w.clients && p in PinsOf(w.clients[id]))
    ensures var v := Put(w, id, client, conn);
            && Owned(v)
            && Held(v) == (if id in w.clients then Held(w) - Elements(PinsOf(w.clients[id])) else Held(w))
               + Elements(PinsOf(client))
  {
    var v := Put(w, id, client, conn);
    assert forall i, p :: i in w.clients && p in PinsOf(w.clients[i]) ==> p in Held(w);
    var rest := if id in w.clients then Held(w) - Elements(PinsOf(w.clients[id])) else Held(w);
    forall p ensures p in Held(v) <==> p in rest + Elements(PinsOf(client)) {
      if p in rest {
        var i :| i in w.clients && p in PinsOf(w.clients[i]);
        assert i != id && p in PinsOf(v.clients[i]);
      }
      if p in Elements(PinsOf(client)) {
        assert p in PinsOf(v.clients[id]);
      }
      if p in Held(v) {
        var i :| i in v.clients && p in PinsOf(v.clients[i]);
        if i != id {
          assert p in Held(w);
          assert id in w.clients ==> p !in PinsOf(w.clients[id]);
        }
      }
    }
  }

  // ---------- the accounts balance in every step ----------

  // A call that neither adds nor removes a pin row itself.
  predicate PinsPlain(c: S.ConnState, d: S.ConnState, published: bool) {
    && c.nextPin <= d.nextPin
    && d.committed.pins == (if published then S.Visible(c).pins else c.committed.pins)
    && (d.txn.Open? ==> d.txn.work.pins == (if c.txn.Open? then c.txn.work.pins else d.committed.pins))
    && (!d.txn.NoTxn? ==> d.inTxn)
    && (published ==> c.txn.Open? && !d.txn.Open?)
  }

  predicate Sound(init: map<nat, S.PinRow>, held: set<nat>, b: Book, c: S.ConnState) {
    Accounts(init.Keys, held, b, c) && Spent(init.Keys, held, b, c.nextPin) && InitKept(init, c)
  }

  function Settled(b: Book, c: S.ConnState, d: S.ConnState, published: bool): Book {
    if c.txn.Open? && !d.txn.Open? then Settle(b, published) else b
  }

  lemma PlainAccounts(init: set<nat>, held: set<nat>, b: Book, c: S.ConnState, d: S.ConnState, published: bool)
    requires Accounts(init, held, b, c) && PinsPlain(c, d, published)
    ensures Accounts(init, held, Settled(b, c, d, published), d)
  {
  }

  lemma PlainSound(init: map<nat, S.PinRow>, held: set<nat>, b: Book, c: S.ConnState, d: S.ConnState, published: bool)
    requires Sound(init, held, b, c) && PinsPlain(c, d, published)
    ensures Sound(init, held, Settled(b, c, d, published), d)
  {
    PlainAccounts(init.Keys, held, b, c, d, published);
  }

  // Steps that touch no pin list and no pin row.
  lemma PlainStep(init: map<nat, S.PinRow>, w: World, b: Book, a: Action)
    requires Balanced(init, w, b)
    requires !TakesPin(w, a) && !OrphansPin(w, a) && !Releases(w, a)
    ensures Balanced(init, Step(w, a), BookStep(w, b, a))
  {
    var v := Step(w, a);
    PlainConn(w, a);
    PlainSound(init, Held(w), b, w.conn, v.conn, Publishes(w, a));
    SameHolders(w, a);
  }

  lemma PlainConn(w: World, a: Action)
    requires !w.conn.txn.NoTxn? ==> w.conn.inTxn
    requires !TakesPin(w, a) && !OrphansPin(w, a) && !Releases(w, a)
    ensures PinsPlain(w.conn, Step(w, a).conn, Publishes(w, a))
  {
  }

  lemma SameHolders(w: World, a: Action)
    requires Owned(w)
    requires !TakesPin(w, a) && !OrphansPin(w, a) && !Releases(w, a)
    ensures Owned(Step(w, a)) && Held(Step(w, a)) == Held(w)
  {
    var v := Step(w, a);
    if v.clients != w.clients {
      var client := v.clients[a.id];
      assert v == Put(w, a.id, client, v.conn);
      assert PinsOf(client) == if a.id in w.clients then PinsOf(w.clients[a.id]) else [];
      assert forall p <- PinsOf(client) :: p in PinsOf(w.clients[a.id]);
      HeldPut(w, a.id, client, v.conn);
      assert a.id in w.clients ==> Elements(PinsOf(client)) <= Held(w);
    } else {
      assert Held(v) == Held(w);
    }
  }

  // A pin row under a fresh id, in the open transaction or committed at once.
  predicate PinsAdd(c: S.ConnState, d: S.ConnState, row: S.PinRow) {
    && c.nextPin < d.nextPin && d.inTxn == c.inTxn
    && (c.txn.Open? ==>
          && d.committed.pins == c.committed.pins
          && d.txn.Open? && d.txn.work.pins == c.txn.work.pins[c.nextPin := row])
    && (!c.txn.Open? ==> d.txn.NoTxn? && d.committed.pins == c.committed.pins[c.nextPin := row])
  }

  lemma TakesPinConn(w: World, a: Action)
    requires !w.conn.txn.NoTxn? ==> w.conn.inTxn
    requires TakesPin(w, a)
    ensures CutOf(w, a.table).Some?
    ensures PinsAdd(w.conn, Step(w, a).conn, S.PinRow(a.table, CutOf(w, a.table).value))
    ensures Step(w, a).clients[a.id].x.pins == w.clients[a.id].x.pins + [w.conn.nextPin]
  {
  }

  lemma OrphansPinConn(w: World, a: Action)
    requires OrphansPin(w, a)
    ensures PinsAdd(w.conn, Step(w, a).conn, S.PinRow(a.table, CutOf(w, a.table).value))
    ensures Step(w, a).clients == w.clients && !TakesPin(w, a)
  {
    var v := Step(w, a);
    assert v.clients[a.id] == w.clients[a.id];
    assert v.clients == w.clients;
  }

  lemma TakeSound(init: map<nat, S.PinRow>, held: set<nat>, b: Book, c: S.ConnState, d: S.ConnState, row: S.PinRow)
    requires Sound(init, held, b, c) && PinsAdd(c, d, row)
    ensures Sound(init, held + {c.nextPin}, if c.txn.Open? then b.(joined := b.joined + {c.nextPin}) else b, d)
  {
    FreshId(init.Keys, held, b, c.nextPin);
    TakeAccounts(init.Keys, held, b, c, d, row);
  }

  lemma FreshId(init: set<nat>, held: set<nat>, b: Book, next: nat)
    requires Spent(init, held, b, next)
    ensures next !in init && next !in held && next !in b.joined && next !in b.orphans
    ensures next !in b.released && next !in b.lost && next !in b.leaked
  {
  }

  lemma TakeAccounts(init: set<nat>, held: set<nat>, b: Book, c: S.ConnState, d: S.ConnState, row: S.PinRow)
    requires Accounts(init, held, b, c) && PinsAdd(c, d, row)
    requires Spent(init, held, b, c.nextPin)
    ensures Accounts(init, held + {c.nextPin}, if c.txn.Open? then b.(joined := b.joined + {c.nextPin}) else b, d)
  {
    FreshId(init, held, b, c.nextPin);
    if c.txn.Open? {
      assert d.txn.work.pins.Keys == c.txn.work.pins.Keys + {c.nextPin};
    } else {
      assert d.committed.pins.Keys == c.committed.pins.Keys + {c.nextPin};
    }
  }

  lemma OrphanAccounts(init: set<nat>, held: set<nat>, b: Book, c: S.ConnState, d: S.ConnState, row: S.PinRow)
    requires Accounts(init, held, b, c) && PinsAdd(c, d, row)
    requires Spent(init, held, b, c.nextPin)
    ensures var e := if c.txn.Open? then b.(orphans := b.orphans + {c.nextPin})
                     else b.(leaked := b.leaked + {c.nextPin});
            Accounts(init, held, e, d)
  {
    FreshId(init, held, b, c.nextPin);
    if c.txn.Open? {
      assert d.txn.work.pins.Keys == c.txn.work.pins.Keys + {c.nextPin};
    } else {
      assert d.committed.pins.Keys == c.committed.pins.Keys + {c.nextPin};
    }
  }

  lemma TakeHolders(w: World, a: Action)
    requires Owned(w) && TakesPin(w, a) && w.conn.nextPin !in Held(w)
    requires Step(w, a).clients[a.id].x.pins == w.clients[a.id].x.pins + [w.conn.nextPin]
    ensures Owned(Step(w, a)) && Held(Step(w, a)) == Held(w) + {w.conn.nextPin}
  {
    var v := Step(w, a);
    var client := v.clients[a.id];
    var was := PinsOf(w.clients[a.id]);
    assert forall p <- was :: p in Held(w);
    assert v == Put(w, a.id, client, v.conn);
    HeldPut(w, a.id, client, v.conn);
    assert Elements(was + [w.conn.nextPin]) == Elements(was) + {w.conn.nextPin};
    assert Elements(was) <= Held(w);
  }

  lemma TakeStep(init: map<nat, S.PinRow>, w: World, b: Book, a: Action)
    requires Balanced(init, w, b) && TakesPin(w, a)
    ensures Balanced(init, Step(w, a), BookStep(w, b, a))
  {
    var v := Step(w, a);
    var row := S.PinRow(a.table, CutOf(w, a.table).value);
    TakesPinConn(w, a);
    TakeSound(init, Held(w), b, w.conn, v.conn, row);
    FreshId(init.Keys, Held(w), b, w.conn.nextPin);
    TakeHolders(w, a);
    TakeNotEnd(w, b, a);
  }

  lemma TakeNotEnd(w: World, b: Book, a: Action)
    requires !w.conn.txn.NoTxn? ==> w.conn.inTxn
    requires TakesPin(w, a)
    ensures BookStep(w, b, a) == if w.conn.txn.Open? then b.(joined := b.joined + {w.conn.nextPin}) else b
  {
    TakesPinConn(w, a);
  }

  lemma OrphanNotEnd(w: World, b: Book, a: Action)
    requires OrphansPin(w, a)
    ensures BookStep(w, b, a) ==
            if w.conn.txn.Open? then b.(orphans := b.orphans + {w.conn.nextPin})
            else b.(leaked := b.leaked + {w.conn.nextPin})
  {
    OrphansPinConn(w, a);
  }

  lemma OrphanSpent(init: set<nat>, held: set<nat>, b: Book, e: Book, next: nat, after: nat)
    requires Spent(init, held, b, next) && next < after
    requires e == b.(orphans := b.orphans + {next}) || e == b.(leaked := b.leaked + {next})
    ensures Spent(init, held, e, after)
  {
  }

  lemma OrphanStep(init: map<nat, S.PinRow>, w: World, b: Book, a: Action)
    requires Balanced(init, w, b) && OrphansPin(w, a)
    ensures Balanced(init, Step(w, a), BookStep(w, b, a))
  {
    var v := Step(w, a);
    var row := S.PinRow(a.table, CutOf(w, a.table).value);
    OrphansPinConn(w, a);
    FreshId(init.Keys, Held(w), b, w.conn.nextPin);
    OrphanAccounts(init.Keys, Held(w), b, w.conn, v.conn, row);
    OrphanNotEnd(w, b, a);
    OrphanSpent(init.Keys, Held(w), b, BookStep(w, b, a), w.conn.nextPin, v.conn.nextPin);
    assert Held(v) == Held(w);
  }

  // ---------- releases ----------

  lemma ReleaseConn(w: World, a: Action)
    requires Releases(w, a)
    ensures var pins := w.clients[a.id].toRelease;
            var v := Step(w, a);
            && v == Put(w, a.id, Ending(if ReleaseOk(w, a) then pins[1..] else []), v.conn)
            && (ReleaseOk(w, a) ==> PinsDrop(w.conn, v.conn, pins[0]))
            && (!ReleaseOk(w, a) ==> PinsPlainIf(w.conn, v.conn))
            && !Publishes(w, a)
  {
  }

  predicate PinsDrop(c: S.ConnState, d: S.ConnState, pin: nat) {
    && !c.txn.Aborted? && d.nextPin == c.nextPin && d.inTxn == c.inTxn
    && (c.txn.Open? ==>
          && d.committed.pins == c.committed.pins
          && d.txn.Open? && d.txn.work.pins == c.txn.work.pins - {pin})
    && (!c.txn.Open? ==> d.txn == c.txn && d.committed.pins == c.committed.pins - {pin})
  }

  predicate PinsPlainIf(c: S.ConnState, d: S.ConnState) {
    && d.nextPin == c.nextPin && d.inTxn == c.inTxn && d.committed.pins == c.committed.pins
    && !d.txn.Open? && (d.txn.NoTxn? <==> c.txn.NoTxn?)
  }

  lemma DropAccounts(init: set<nat>, held: set<nat>, b: Book, c: S.ConnState, d: S.ConnState, pin: nat)
    requires Accounts(init, held, b, c) && PinsDrop(c, d, pin) && pin in held
    ensures Accounts(init, held - {pin},
                     if c.txn.Open? && pin !in b.lost then b.(released := b.released + {pin}) else b, d)
  {
    if c.txn.Open? {
      assert d.txn.work.pins.Keys == c.txn.work.pins.Keys - {pin};
    } else {
      assert d.committed.pins.Keys == c.committed.pins.Keys - {pin};
    }
  }

  lemma GiveUpAccounts(init: set<nat>, held: set<nat>, b: Book, c: S.ConnState, d: S.ConnState, pins: set<nat>)
    requires Accounts(init, held, b, c) && PinsPlainIf(c, d) && pins <= held
    ensures var e := if c.txn.Open? then Settle(b, false) else b;
            Accounts(init, held - pins, e.(leaked := e.leaked + (pins - e.lost)), d)
  {
  }

  // A holder gives up pins; nothing else about the holders changes.
  lemma GiveUp(w: World, id: int, rest: seq<nat>, gone: set<nat>, conn: S.ConnState)
    requires Owned(w) && id in w.clients && Distinct(rest)
    requires gone <= Elements(PinsOf(w.clients[id])) && Elements(rest) == Elements(PinsOf(w.clients[id])) - gone
    ensures var v := Put(w, id, Ending(rest), conn); Owned(v) && Held(v) == Held(w) - gone
    ensures gone <= Held(w)
  {
    assert forall p <- rest :: p in Elements(rest) && p in PinsOf(w.clients[id]);
    assert forall p <- Elements(PinsOf(w.clients[id])) :: p in Held(w);
    HeldPut(w, id, Ending(rest), conn);
  }

  lemma DropSpent(init: set<nat>, held: set<nat>, b: Book, next: nat, pin: nat, e: Book)
    requires Spent(init, held, b, next) && pin in held
    requires e == b || e == b.(released := b.released + {pin})
    ensures Spent(init, held - {pin}, e, next)
  {
  }

  lemma GiveUpSpent(init: set<nat>, held: set<nat>, b: Book, next: nat, pins: set<nat>, e: Book)
    requires Spent(init, held, b, next) && pins <= held
    requires e == b || e == Settle(b, false)
    ensures Spent(init, held - pins, e.(leaked := e.leaked + (pins - e.lost)), next)
  {
  }

  lemma GrantedRelease(init: map<nat, S.PinRow>, w: World, b: Book, a: Action)
    requires Balanced(init, w, b) && Releases(w, a) && ReleaseOk(w, a)
    ensures Balanced(init, Step(w, a), BookStep(w, b, a))
  {
    var v, e := Step(w, a), BookStep(w, b, a);
    var pins := w.clients[a.id].toRelease;
    ReleaseConn(w, a);
    TailElements(pins);
    GiveUp(w, a.id, pins[1..], {pins[0]}, v.conn);
    assert e == if w.conn.txn.Open? && pins[0] !in b.lost then b.(released := b.released + {pins[0]}) else b;
    DropAccounts(init.Keys, Held(w), b, w.conn, v.conn, pins[0]);
    DropSpent(init.Keys, Held(w), b, w.conn.nextPin, pins[0], e);
  }

  lemma RefusedRelease(init: map<nat, S.PinRow>, w: World, b: Book, a: Action)
    requires Balanced(init, w, b) && Releases(w, a) && !ReleaseOk(w, a)
    ensures Balanced(init, Step(w, a), BookStep(w, b, a))
  {
    var v, e := Step(w, a), BookStep(w, b, a);
    var pins := w.clients[a.id].toRelease;
    ReleaseConn(w, a);
    GiveUp(w, a.id, [], Elements(pins), v.conn);
    var settled := if w.conn.txn.Open? then Settle(b, false) else b;
    assert e == settled.(leaked := settled.leaked + (Elements(pins) - settled.lost));
    GiveUpAccounts(init.Keys, Held(w), b, w.conn, v.conn, Elements(pins));
    GiveUpSpent(init.Keys, Held(w), b, w.conn.nextPin, Elements(pins), settled);
  }

  lemma TailElements(pins: seq<nat>)
    requires pins != [] && Distinct(pins)
    ensures Elements(pins[1..]) == Elements(pins) - {pins[0]} && Distinct(pins[1..])
  {
    forall p | p in pins && p != pins[0] ensures p in pins[1..] {
      var i :| 0 <= i < |pins| && pins[i] == p;
      assert pins[1..][i - 1] == p;
    }
    forall i | 0 <= i < |pins[1..]| ensures pins[1..][i] != pins[0] {
    }
  }

  // ---------- over whole runs ----------

  lemma BalancedStep(init: map<nat, S.PinRow>, w: World, b: Book, a: Action)
    requires Balanced(init, w, b)
    ensures Balanced(init, Step(w, a), BookStep(w, b, a))
  {
    if TakesPin(w, a) {
      TakeStep(init, w, b, a);
    } else if OrphansPin(w, a) {
      OrphanStep(init, w, b, a);
    } else if Releases(w, a) {
      if ReleaseOk(w, a) {
        GrantedRelease(init, w, b, a);
      } else {
        RefusedRelease(init, w, b, a);
      }
    } else {
      PlainStep(init, w, b, a);
    }
  }

  lemma {:induction false} BalancedRun(init: map<nat, S.PinRow>, w: World, b: Book, actions: seq<Action>)
    requires Balanced(init, w, b)
    ensures Balanced(init, Run(w, actions), BookRun(w, b, actions))
    decreases |actions|
  {
    if actions != [] {
      var before := actions[..|actions| - 1];
      BalancedRun(init, w, b, before);
      BalancedStep(init, Run(w, before), BookRun(w, b, before), actions[|actions| - 1]);
    }
  }

  // A connection nobody uses yet.
  predicate Unused(w: World) {
    w.clients == map[] && !w.conn.inTxn && w.conn.txn.NoTxn? && ConnBelow(w.conn)
  }

  lemma UnusedBalances(w: World)
    requires Unused(w)
    ensures Balanced(w.conn.committed.pins, w, BLANK)
  {
    assert Held(w) == {};
  }

  // The pin row is there, for the session or for everyone.
  predicate Present(c: S.ConnState, pin: nat) {
    pin in S.Visible(c).pins
  }

  // What a step means to the open write transaction.
  datatype Event = Event(took: Option<nat>, ends: bool, publishes: bool)

  function EventOf(w: World, a: Action): Event {
    Event(if w.conn.txn.Open? && TakesPin(w, a) then Some(w.conn.nextPin) else None, Ends(w, a), Publishes(w, a))
  }

  function History(w: World, actions: seq<Action>): seq<Event>
    decreases |actions|
  {
    if actions == [] then []
    else
      var before := actions[..|actions| - 1];
      History(w, before) + [EventOf(Run(w, before), actions[|actions| - 1])]
  }

  // Pin `p` was taken by step `i`, and its transaction had not ended before step `j`.
  predicate TakenSince(h: seq<Event>, i: nat, j: nat, p: nat)
    requires i < j <= |h|
  {
    h[i].took == Some(p) && forall k :: i < k < j ==> !h[k].ends
  }

  ghost predicate TakenInOpen(h: seq<Event>, p: nat) {
    exists i :: 0 <= i < |h| && TakenSince(h, i, |h|, p)
  }

  // `p` was taken inside a write transaction that was then aborted or rolled back.
  ghost predicate TakenThenUndone(h: seq<Event>, p: nat) {
    exists i, j :: 0 <= i < j < |h| && TakenSince(h, i, j, p) && h[j].ends && !h[j].publishes
  }

  lemma SinceInPrefix(h: seq<Event>, e: Event, i: nat, j: nat, p: nat)
    requires i < j <= |h|
    ensures TakenSince(h + [e], i, j, p) <==> TakenSince(h, i, j, p)
  {
    assert forall k {:trigger h[k]} :: 0 <= k < |h| ==> (h + [e])[k] == h[k];
  }

  lemma OpenGrows(h: seq<Event>, e: Event, p: nat)
    ensures TakenInOpen(h + [e], p) <==> (TakenInOpen(h, p) && !e.ends) || e.took == Some(p)
  {
    var all, n := h + [e], |h|;
    if TakenInOpen(all, p) {
      var i :| 0 <= i < n + 1 && TakenSince(all, i, n + 1, p);
      if i < n {
        SinceInPrefix(h, e, i, n, p);
        assert TakenSince(all, i, n, p) && !all[n].ends;
      }
    }
    if TakenInOpen(h, p) && !e.ends {
      var i :| 0 <= i < n && TakenSince(h, i, n, p);
      assert TakenSince(all, i, n + 1, p);
    }
    if e.took == Some(p) {
      assert TakenSince(all, n, n + 1, p);
    }
  }

  lemma UndoneGrows(h: seq<Event>, e: Event, p: nat)
    ensures TakenThenUndone(h + [e], p) <==>
            TakenThenUndone(h, p) || (TakenInOpen(h, p) && e.ends && !e.publishes)
  {
    var all, n := h + [e], |h|;
    if TakenThenUndone(all, p) {
      var i, j :| 0 <= i < j < n + 1 && TakenSince(all, i, j, p) && all[j].ends && !all[j].publishes;
      SinceInPrefix(h, e, i, j, p);
    }
    if TakenThenUndone(h, p) {
      var i, j :| 0 <= i < j < n && TakenSince(h, i, j, p) && h[j].ends && !h[j].publishes;
      SinceInPrefix(h, e, i, j, p);
      assert all[j] == h[j];
    }
    if TakenInOpen(h, p) && e.ends && !e.publishes {
      var i :| 0 <= i < n && TakenSince(h, i, n, p);
      assert TakenSince(all, i, n, p);
    }
  }

  lemma BookStepPins(w: World, b: Book, a: Action, p: nat)
    ensures var e := EventOf(w, a);
            && (p in BookStep(w, b, a).joined <==> (p in b.joined && !e.ends) || e.took == Some(p))
            && (p in BookStep(w, b, a).lost <==> p in b.lost || (p in b.joined && e.ends && !e.publishes))
  {
  }

  // What the ledger calls lost is what the history says.
  lemma {:induction false} LostIsTakenThenUndone(w: World, actions: seq<Action>, p: nat)
    ensures p in BookRun(w, BLANK, actions).joined <==> TakenInOpen(History(w, actions), p)
    ensures p in BookRun(w, BLANK, actions).lost <==> TakenThenUndone(History(w, actions), p)
    decreases |actions|
  {
    if actions != [] {
      var before, a := actions[..|actions| - 1], actions[|actions| - 1];
      LostIsTakenThenUndone(w, before, p);
      OpenGrows(History(w, before), EventOf(Run(w, before), a), p);
      UndoneGrows(History(w, before), EventOf(Run(w, before), a), p);
      BookStepPins(Run(w, before), BookRun(w, BLANK, before), a, p);
    }
  }

  /** Over all runs, an active transaction's cached scan has its pin row, holding
      exactly the frozen pair, if and only if the pin was not taken inside a write
      transaction since aborted or rolled back. */
  lemma PinRowIffNotLost(w: World, actions: seq<Action>, id: int, table: int)
    requires Unused(w)
    requires var v := Run(w, actions);
             IsActive(v, id) && table in v.clients[id].x.scans && v.clients[id].x.scans[table].pin.Some?
    ensures var v := Run(w, actions);
            var scan := v.clients[id].x.scans[table];
            && scan.cut.Some?
            && (Present(v.conn, scan.pin.value) <==> !TakenThenUndone(History(w, actions), scan.pin.value))
            && (Present(v.conn, scan.pin.value) ==>
                  S.Visible(v.conn).pins[scan.pin.value] == S.PinRow(table, scan.cut.value))
  {
    UnusedBalances(w);
    BalancedRun(w.conn.committed.pins, w, BLANK, actions);
    ReachableIsFrozen(w, actions);
    var v := Run(w, actions);
    var pin := v.clients[id].x.scans[table].pin.value;
    LostIsTakenThenUndone(w, actions, pin);
    assert pin in PinsOf(v.clients[id]);
    assert pin in Held(v);
  }

  // Every transaction has ended and worked off its pins.
  predicate Quiet(w: World) {
    Held(w) == {} && !w.conn.txn.Open?
  }

  /** Over all runs, once every transaction is done the pin table is what it was
      plus exactly the leaked pins. */
  lemma PinsAccountedFor(w: World, actions: seq<Action>)
    requires Unused(w) && Quiet(Run(w, actions))
    ensures var before, after := w.conn.committed.pins, Run(w, actions).conn.committed.pins;
            var leaked := BookRun(w, BLANK, actions).leaked;
            && after.Keys == before.Keys + leaked
            && (forall p <- before :: after[p] == before[p])
            && leaked !! before.Keys
            && (after == before <==> leaked == {})
  {
    UnusedBalances(w);
    BalancedRun(w.conn.committed.pins, w, BLANK, actions);
    NothingHeld(w.conn.committed.pins, Run(w, actions), BookRun(w, BLANK, actions));
  }

  // ---------- which steps leak ----------

  // A step that leaves pin rows behind for good: it publishes a failed scan's
  // row, undoes somebody's release, gives up rows that exist, or fails a scan on
  // a connection that only believes it is in a transaction.
  predicate Leaks(w: World, b: Book, a: Action) {
    || (Publishes(w, a) && b.orphans != {})
    || (Ends(w, a) && !Publishes(w, a) && b.released - b.joined != {})
    || (OrphansPin(w, a) && !w.conn.txn.Open?)
    || (Releases(w, a) && !ReleaseOk(w, a) &&
        Elements(w.clients[a.id].toRelease) - b.lost - (if w.conn.txn.Open? then b.joined else {}) != {})
  }

  predicate SomeLeak(w: World, b: Book, actions: seq<Action>)
    decreases |actions|
  {
    actions != [] &&
    var before := actions[..|actions| - 1];
    SomeLeak(w, b, before) || Leaks(Run(w, before), BookRun(w, b, before), actions[|actions| - 1])
  }

  lemma LeakStep(w: World, b: Book, a: Action)
    ensures b.leaked <= BookStep(w, b, a).leaked
    ensures BookStep(w, b, a).leaked == {} <==> b.leaked == {} && !Leaks(w, b, a)
  {
    var c := if Ends(w, a) then Settle(b, Publishes(w, a)) else b;
    if Ends(w, a) && !Publishes(w, a) {
      assert c.leaked == {} <==> b.leaked == {} && b.released - b.joined == {};
    }
    if Releases(w, a) && !ReleaseOk(w, a) {
      assert Ends(w, a) <==> w.conn.txn.Open?;
      assert Elements(w.clients[a.id].toRelease) - c.lost ==
             Elements(w.clients[a.id].toRelease) - b.lost - (if w.conn.txn.Open? then b.joined else {});
    }
  }

  lemma {:induction false} LeakRun(w: World, b: Book, actions: seq<Action>)
    ensures BookRun(w, b, actions).leaked == {} <==> b.leaked == {} && !SomeLeak(w, b, actions)
    decreases |actions|
  {
    if actions != [] {
      var before := actions[..|actions| - 1];
      LeakRun(w, b, before);
      LeakStep(Run(w, before), BookRun(w, b, before), actions[|actions| - 1]);
    }
  }

  /** Over all runs that end with everything worked off, the pin table is unchanged
      if and only if no step leaked. */
  lemma PinTableUnchangedIff(w: World, actions: seq<Action>)
    requires Unused(w) && Quiet(Run(w, actions))
    ensures Run(w, actions).conn.committed.pins == w.conn.committed.pins <==> !SomeLeak(w, BLANK, actions)
  {
    PinsAccountedFor(w, actions);
    LeakRun(w, BLANK, actions);
  }

  // ---------- one write transaction ----------

  // Steps once the writer is done: nobody writes, releases are granted.
  predicate Winds(a: Action) {
    !a.Ensure? && !a.Write? && (a.Release? ==> a.granted)
  }

  predicate NothingOpen(c: S.ConnState) {
    c.txn.NoTxn? && !c.inTxn
  }

  // Pins inserted by scans that then failed, in a run inside one write transaction.
  function FailedPins(w: World, mid: seq<Action>): set<nat>
    decreases |mid|
  {
    if mid == [] then {}
    else
      var v := Run(w, mid[..|mid| - 1]);
      FailedPins(w, mid[..|mid| - 1]) +
      (if OrphansPin(v, mid[|mid| - 1]) then {v.conn.nextPin} else {})
  }

  // At BEGIN this transaction already holds a pin.
  predicate Older(w: World, id: int) {
    id in w.clients && PinsOf(w.clients[id]) != []
  }

  // The pins of everybody else come from inside the write transaction.
  predicate NewPins(w0: World, w: World, pins: set<nat>) {
    forall id <- w.clients :: !Older(w0, id) ==> Elements(PinsOf(w.clients[id])) <= pins
  }

  predicate MidBook(w0: World, w: World, b: Book, failed: set<nat>) {
    && b.leaked == {}
    && (w.conn.txn.Open? ==> b.released <= b.joined && NewPins(w0, w, b.joined) && b.orphans == failed)
    && (w.conn.txn.Aborted? ==> NewPins(w0, w, b.lost))
  }

  // A step inside the write transaction by which no older pin is released.
  predicate KeepsOlder(w0: World, writer: int, a: Action) {
    MidWrite(writer, a) && (a.Release? ==> !Older(w0, a.id))
  }

  lemma NewPinsStep(w0: World, w: World, a: Action, pins: set<nat>)
    requires NewPins(w0, w, pins)
    ensures NewPins(w0, Step(w, a), pins + (if TakesPin(w, a) then {w.conn.nextPin} else {}))
  {
    forall id | id in Step(w, a).clients && !Older(w0, id)
      ensures Elements(PinsOf(Step(w, a).clients[id])) <= pins + (if TakesPin(w, a) then {w.conn.nextPin} else {})
    {
      PinsStep(w, a, id);
      if id in w.clients {
        assert forall p <- PinsOf(w.clients[id]) :: p in Elements(PinsOf(w.clients[id]));
      }
    }
  }

  lemma PinsStep(w: World, a: Action, i: int)
    requires i in Step(w, a).clients
    ensures forall p <- PinsOf(Step(w, a).clients[i]) ::
              (i in w.clients && p in PinsOf(w.clients[i])) || (TakesPin(w, a) && p == w.conn.nextPin)
  {
    if TakesPin(w, a) {
      TakenPins(w, a);
    }
  }

  lemma TakenPins(w: World, a: Action)
    requires TakesPin(w, a)
    ensures Step(w, a).clients[a.id].Active?
    ensures Step(w, a).clients[a.id].x.pins == w.clients[a.id].x.pins + [w.conn.nextPin]
  {
  }

  // Inside the write transaction a step publishes nothing, and neither takes nor
  // orphans a pin without it.
  lemma MidEvents(w: World, writer: int, a: Action)
    requires MidWrite(writer, a) && OthersRead(w, writer)
    requires w.conn.inTxn && !w.conn.txn.NoTxn?
    ensures !Publishes(w, a) && (TakesPin(w, a) || OrphansPin(w, a) ==> w.conn.txn.Open? && Step(w, a).conn.txn.Open?)
    ensures w.conn.txn.Aborted? ==> Step(w, a).conn.txn.Aborted?
    ensures !Step(w, a).conn.txn.NoTxn?
    ensures Releases(w, a) && w.conn.txn.Open? ==> (ReleaseOk(w, a) <==> Step(w, a).conn.txn.Open?)
  {
  }

  lemma MidBookStep(w0: World, w: World, writer: int, b: Book, failed: set<nat>, a: Action)
    requires MidBook(w0, w, b, failed) && KeepsOlder(w0, writer, a)
    requires w.conn.inTxn && !w.conn.txn.NoTxn? && OthersRead(w, writer)
    ensures MidBook(w0, Step(w, a), BookStep(w, b, a), failed + (if OrphansPin(w, a) then {w.conn.nextPin} else {}))
  {
    MidEvents(w, writer, a);
    MidLeaks(w0, w, writer, b, failed, a);
    LeakStep(w, b, a);
    MidBooks(w, b, a);
    NewPinsStep(w0, w, a, if w.conn.txn.Open? then b.joined else b.lost);
    MidNewPins(w0, w, b, a);
  }

  lemma MorePins(w0: World, w: World, few: set<nat>, many: set<nat>)
    requires NewPins(w0, w, few) && few <= many
    ensures NewPins(w0, w, many)
  {
  }

  lemma MidNewPins(w0: World, w: World, b: Book, a: Action)
    requires !w.conn.txn.NoTxn? && !Publishes(w, a)
    requires Step(w, a).conn.txn.Open? ==> w.conn.txn.Open?
    requires TakesPin(w, a) ==> Step(w, a).conn.txn.Open?
    requires var was := if w.conn.txn.Open? then b.joined else b.lost;
             NewPins(w0, Step(w, a), was + (if TakesPin(w, a) then {w.conn.nextPin} else {}))
    ensures var v, e := Step(w, a), BookStep(w, b, a);
            (v.conn.txn.Open? ==> NewPins(w0, v, e.joined)) && (!v.conn.txn.Open? ==> NewPins(w0, v, e.lost))
  {
    var v, e := Step(w, a), BookStep(w, b, a);
    MidBooks(w, b, a);
    var was := if w.conn.txn.Open? then b.joined else b.lost;
    MorePins(w0, v, was + (if TakesPin(w, a) then {w.conn.nextPin} else {}),
             if v.conn.txn.Open? then e.joined else e.lost);
  }

  lemma MidLeaks(w0: World, w: World, writer: int, b: Book, failed: set<nat>, a: Action)
    requires MidBook(w0, w, b, failed) && KeepsOlder(w0, writer, a)
    requires w.conn.inTxn && !w.conn.txn.NoTxn? && OthersRead(w, writer)
    ensures !Leaks(w, b, a)
    ensures Releases(w, a) && w.conn.txn.Open? ==> w.clients[a.id].toRelease[0] in b.joined
  {
    MidEvents(w, writer, a);
    if Releases(w, a) {
      var pins := w.clients[a.id].toRelease;
      assert PinsOf(w.clients[a.id]) == pins && pins[0] in Elements(pins);
    }
  }

  // Of the ledger inside a write transaction.
  lemma MidBooks(w: World, b: Book, a: Action)
    requires !Publishes(w, a) && !w.conn.txn.NoTxn?
    requires Step(w, a).conn.txn.Open? ==> w.conn.txn.Open?
    ensures var e, v := BookStep(w, b, a), Step(w, a);
            && (v.conn.txn.Open? ==>
                  && e.joined == b.joined + (if TakesPin(w, a) then {w.conn.nextPin} else {})
                  && e.orphans == b.orphans + (if OrphansPin(w, a) then {w.conn.nextPin} else {})
                  && e.released <= b.released + (if Releases(w, a) then {w.clients[a.id].toRelease[0]} else {}))
            && (!v.conn.txn.Open? ==> e.lost == b.lost + (if w.conn.txn.Open? then b.joined else {}))
  {
    if TakesPin(w, a) {
      assert !OrphansPin(w, a);
    }
  }

  // The books when the write transaction begins: held pins whose rows are gone
  // were lost with an earlier one.
  function Opening(w: World): Book {
    BLANK.(lost := Held(w) - w.conn.committed.pins.Keys)
  }

  // Everybody's pins are distinct ids already given out.
  predicate Sane(w: World) {
    ConnBelow(w.conn) && Owned(w) && Below(Held(w), w.conn.nextPin)
  }

  // Every state reached from an unused connection is.
  lemma ReachableIsSane(w: World, actions: seq<Action>)
    requires Unused(w)
    ensures Sane(Run(w, actions))
  {
    UnusedBalances(w);
    BalancedRun(w.conn.committed.pins, w, BLANK, actions);
    ReachableIsFrozen(w, actions);
  }

  lemma OpeningBalances(w: World, writer: int)
    requires JustBegun(w, writer) && Sane(w)
    ensures Balanced(w.conn.committed.pins - Held(w), w, Opening(w))
  {
  }

  lemma {:induction false} MidBookRun(w: World, writer: int, mid: seq<Action>)
    requires JustBegun(w, writer)
    requires forall a <- mid :: KeepsOlder(w, writer, a)
    ensures MidBook(w, Run(w, mid), BookRun(w, Opening(w), mid), FailedPins(w, mid))
    decreases |mid|
  {
    if mid != [] {
      var before := mid[..|mid| - 1];
      MidBookRun(w, writer, before);
      MidRun(w, writer, before);
      MidBookStep(w, Run(w, before), writer, BookRun(w, Opening(w), before), FailedPins(w, before), mid[|mid| - 1]);
    }
  }

  lemma WriterEndBooks(w: World, b: Book, writer: int, end: Action)
    requires w.conn.inTxn && !w.conn.txn.NoTxn? && IsActive(w, writer) && w.clients[writer].x.writeActive
    requires end == EndCommit(writer, true) || end == EndRollback(writer, true)
    requires b.leaked == {} && (w.conn.txn.Open? ==> b.released <= b.joined)
    ensures NothingOpen(Step(w, end).conn)
    ensures BookStep(w, b, end).leaked == if end.EndCommit? && w.conn.txn.Open? then b.orphans else {}
  {
  }

  lemma BookLast(w: World, b: Book, before: seq<Action>, a: Action)
    ensures BookRun(w, b, before + [a]) == BookStep(Run(w, before), BookRun(w, b, before), a)
  {
    var all := before + [a];
    assert all[..|all| - 1] == before;
  }

  lemma {:induction false} WindsDown(w: World, b: Book, first: seq<Action>, rest: seq<Action>)
    requires NothingOpen(Run(w, first).conn)
    requires forall a <- rest :: Winds(a)
    ensures NothingOpen(Run(w, first + rest).conn)
    ensures BookRun(w, b, first + rest).leaked == BookRun(w, b, first).leaked
    decreases |rest|
  {
    if rest == [] {
      assert first + rest == first;
    } else {
      var before, a := rest[..|rest| - 1], rest[|rest| - 1];
      assert a in rest && first + rest == (first + before) + [a];
      WindsDown(w, b, first, before);
      WindStep(Run(w, first + before), BookRun(w, b, first + before), a);
      RunLast(w, first + before, a);
      BookLast(w, b, first + before, a);
    }
  }

  lemma WindStep(w: World, b: Book, a: Action)
    requires NothingOpen(w.conn) && Winds(a)
    ensures NothingOpen(Step(w, a).conn) && BookStep(w, b, a).leaked == b.leaked
  {
  }

  /** One write transaction, with any readers scanning, failing, ending and
      releasing in it, in which nobody who held a pin at BEGIN releases yet.  After
      it has ended and everybody has released, the pin table has lost the pins held
      at BEGIN and has gained exactly the rows of the failed scans if it was
      published, and otherwise nothing.  So no row is left behind if and only if it
      was rolled back, was aborted, or no scan failed after its insert. */
  lemma OneWriterPins(w: World, writer: int, mid: seq<Action>, end: Action, rest: seq<Action>)
    requires JustBegun(w, writer) && Sane(w)
    requires forall a <- mid :: KeepsOlder(w, writer, a)
    requires end == EndCommit(writer, true) || end == EndRollback(writer, true)
    requires forall a <- rest :: Winds(a)
    requires Held(Run(w, mid + [end] + rest)) == {}
    ensures var others, after := w.conn.committed.pins - Held(w), Run(w, mid + [end] + rest).conn.committed.pins;
            && after.Keys == others.Keys + (if end.EndCommit? && !SawRefusal(w, mid) then FailedPins(w, mid) else {})
            && (forall p <- others :: after[p] == others[p])
            && (after == others <==> end.EndRollback? || SawRefusal(w, mid) || FailedPins(w, mid) == {})
  {
    var all, others := mid + [end] + rest, w.conn.committed.pins - Held(w);
    OneWriterLeaks(w, writer, mid, end, rest);
    OpeningBalances(w, writer);
    BalancedRun(others, w, Opening(w), all);
    NothingHeld(others, Run(w, all), BookRun(w, Opening(w), all));
  }

  lemma OneWriterLeaks(w: World, writer: int, mid: seq<Action>, end: Action, rest: seq<Action>)
    requires JustBegun(w, writer)
    requires forall a <- mid :: KeepsOlder(w, writer, a)
    requires end == EndCommit(writer, true) || end == EndRollback(writer, true)
    requires forall a <- rest :: Winds(a)
    ensures NothingOpen(Run(w, mid + [end] + rest).conn)
    ensures BookRun(w, Opening(w), mid + [end] + rest).leaked ==
            if end.EndCommit? && !SawRefusal(w, mid) then FailedPins(w, mid) else {}
  {
    MidRun(w, writer, mid);
    AbortedIffRefused(w, writer, mid);
    MidBookRun(w, writer, mid);
    WriterEndBooks(Run(w, mid), BookRun(w, Opening(w), mid), writer, end);
    var ended := mid + [end];
    assert ended[..|ended| - 1] == mid;
    WindsDown(w, Opening(w), ended, rest);
  }

  lemma NothingHeld(init: map<nat, S.PinRow>, w: World, b: Book)
    requires Balanced(init, w, b) && Held(w) == {} && !w.conn.txn.Open?
    ensures var after := w.conn.committed.pins;
            && after.Keys == init.Keys + b.leaked && init.Keys !! b.leaked
            && (forall p <- init :: after[p] == init[p])
            && (after == init <==> b.leaked == {})
  {
  }

  // ---------- how a lost or leaked row comes about ----------

  /** A reader inside a writer's transaction loses its pin row to the writer's
      rollback, while it goes on reading at that pin. */
  lemma RollbackLosesReadersPin(w: World, writer: int, reader: int, table: int)
    requires JustBegun(w, writer) && ConnBelow(w.conn)
    requires reader != writer && IsActive(w, reader) && table !in w.clients[reader].x.scans && table in w.cutlines
    ensures var v := Run(w, [Scan(reader, table, S.Granted), EndRollback(writer, true)]);
            && IsActive(v, reader) && table in v.clients[reader].x.scans
            && v.clients[reader].x.scans[table].pin == Some(w.conn.nextPin)
            && !Present(v.conn, w.conn.nextPin)
  {
    var actions := [Scan(reader, table, S.Granted), EndRollback(writer, true)];
    RunTwo(w, actions[0], actions[1]);
  }

  /** A reader's scan fails after its pin insert, the reader is rolled back, which
      does nothing, and the writer's COMMIT publishes a row nobody holds. */
  lemma ReadersErrorLeaksPin(w: World, writer: int, reader: int, table: int)
    requires JustBegun(w, writer) && ConnBelow(w.conn)
    requires reader != writer && reader in w.clients && w.clients[reader] == Active(T.FRESH) && table in w.cutlines
    ensures var v := Run(w, [Scan(reader, table, S.RenderFails), EndRollback(reader, true), EndCommit(writer, true)]);
            && reader in v.clients && v.clients[reader] == Ending([])
            && w.conn.nextPin !in w.conn.committed.pins
            && w.conn.nextPin in v.conn.committed.pins
  {
    var actions := [Scan(reader, table, S.RenderFails), EndRollback(reader, true), EndCommit(writer, true)];
    assert actions[..2] == [actions[0], actions[1]];
    RunTwo(w, actions[0], actions[1]);
  }

  /** A reader releases an older pin while a writer's transaction is open, and the
      writer's rollback brings the row back with no holder left. */
  lemma UndoneReleaseLeaksPin(w: World, writer: int, reader: int, pin: nat)
    requires JustBegun(w, writer) && reader in w.clients && w.clients[reader] == Ending([pin])
             && pin in w.conn.committed.pins
    ensures var v := Run(w, [Release(reader, true), EndRollback(writer, true)]);
            && reader in v.clients && v.clients[reader] == Ending([])
            && pin in v.conn.committed.pins
  {
    RunTwo(w, Release(reader, true), EndRollback(writer, true));
  }
}
