/**
 Running a direct-mode chunk's lake statements: attach first, then each statement
 with at most three attempts, retried only on a commit conflict.  A statement that
 reports an error has had no effect.
 */
module LakeExec {
  import opened Wrappers
  import opened Rows
  import opened Core

  datatype Reply = Done | Failed(message: string)

  const MAX_ATTEMPTS := 3

  predicate Contains(s: string, sub: string) {
    sub <= s || (s != "" && Contains(s[1..], sub))
  }

  predicate IsConflict(message: string) {
    Contains(message, "409") || Contains(message, "Conflict") || Contains(message, "CommitFailed")
  }

  // The catalog's answer to attempt `a` (from 1) at statement `i`.
  type Replies = (nat, nat) -> Reply

  // Some allowed attempt succeeds, every earlier one having been a conflict.
  predicate Lands(reply: Replies, i: nat) {
    exists a | 1 <= a <= MAX_ATTEMPTS ::
      reply(i, a).Done? && forall b | 1 <= b < a :: reply(i, b).Failed? && IsConflict(reply(i, b).message)
  }

  // How many of the statements from `i` on take effect.
  function LandedCount(n: nat, reply: Replies, i: nat): nat
    requires i <= n
    decreases n - i
  {
    if i == n || !Lands(reply, i) then 0 else 1 + LandedCount(n, reply, i + 1)
  }

  lemma {:induction false} LandedCountIsPrefix(n: nat, reply: Replies, i: nat)
    requires i <= n
    ensures var k := LandedCount(n, reply, i);
            && i + k <= n
            && (forall j :: i <= j < i + k ==> Lands(reply, j))
            && (i + k < n ==> !Lands(reply, i + k))
    decreases n - i
  {
    if i < n && Lands(reply, i) {
      LandedCountIsPrefix(n, reply, i + 1);
    }
  }

  // The attempt that ends the work on statement `i`, counting from attempt `a`.
  function LastAttempt(reply: Replies, i: nat, a: nat): (last: nat)
    requires 1 <= a <= MAX_ATTEMPTS
    ensures a <= last <= MAX_ATTEMPTS
    decreases MAX_ATTEMPTS - a
  {
    if reply(i, a).Done? || !IsConflict(reply(i, a).message) || a == MAX_ATTEMPTS then a
    else LastAttempt(reply, i, a + 1)
  }

  // Statements sent from `i` on, successful or not.
  function SentCount(n: nat, reply: Replies, i: nat): nat
    requires i <= n
    decreases n - i
  {
    if i == n then 0
    else LastAttempt(reply, i, 1) + (if Lands(reply, i) then SentCount(n, reply, i + 1) else 0)
  }

  // The lake as its callers can tell: its rows, the statements that took effect in
  // order, and how many were sent at all.
  datatype LakeState = LakeState(rows: map<Key, Row>, effective: seq<LakeStmt>, executions: nat)

  // What a list of statements leaves behind, and whether it reports success.
  function ExecuteLake(s: LakeState, stmts: seq<LakeStmt>, attach: bool, reply: Replies): (LakeState, bool) {
    if stmts == [] then (s, true)
    else if !attach then (s, false)
    else
      LandedCountIsPrefix(|stmts|, reply, 0);
      var k := LandedCount(|stmts|, reply, 0);
      (LakeState(ApplyAll(s.rows, stmts[..k]), s.effective + stmts[..k], s.executions + SentCount(|stmts|, reply, 0)),
       k == |stmts|)
  }

  /** At most three executions a statement, and at least one if there is any. */
  lemma {:induction false} SentCountBounds(n: nat, reply: Replies, i: nat)
    requires i <= n
    ensures SentCount(n, reply, i) <= MAX_ATTEMPTS * (n - i)
    ensures LandedCount(n, reply, i) <= SentCount(n, reply, i)
    ensures i < n ==> SentCount(n, reply, i) > 0
    decreases n - i
  {
    if i < n {
      SentCountBounds(n, reply, i + 1);
    }
  }

  lemma {:induction false} LastAttemptDecides(reply: Replies, i: nat, a: nat)
    requires 1 <= a <= MAX_ATTEMPTS
    requires forall b :: 1 <= b < a ==> reply(i, b).Failed? && IsConflict(reply(i, b).message)
    ensures Lands(reply, i) <==> reply(i, LastAttempt(reply, i, a)).Done?
    decreases MAX_ATTEMPTS - a
  {
    if !(reply(i, a).Done? || !IsConflict(reply(i, a).message) || a == MAX_ATTEMPTS) {
      LastAttemptDecides(reply, i, a + 1);
    }
  }

  class LakeDb {
    var rows: map<Key, Row>
    ghost var effective: seq<LakeStmt>
    ghost var executions: nat

    constructor (rows: map<Key, Row>)
      ensures State() == LakeState(rows, [], 0)
    {
      this.rows := rows;
      effective, executions := [], 0;
    }

    ghost function State(): LakeState
      reads this
    {
      LakeState(rows, effective, executions)
    }

    method Query(stmt: LakeStmt, reply: Reply) returns (r: Reply)
      modifies this
      ensures r == reply && executions == old(executions) + 1
      ensures reply.Done? ==> rows == ApplyStmt(old(rows), stmt) && effective == old(effective) + [stmt]
      ensures reply.Failed? ==> rows == old(rows) && effective == old(effective)
    {
      executions := executions + 1;
      if reply.Done? {
        rows := ApplyStmt(rows, stmt);
        effective := effective + [stmt];
      }
      r := reply;
    }

    // The inner loop: one statement until it lands or may not be retried.
    method SendWithRetry(stmt: LakeStmt, i: nat, reply: Replies) returns (r: Reply)
      modifies this
      ensures r.Done? <==> Lands(reply, i)
      ensures executions == old(executions) + LastAttempt(reply, i, 1)
      ensures r.Done? ==> rows == ApplyStmt(old(rows), stmt) && effective == old(effective) + [stmt]
      ensures r.Failed? ==> rows == old(rows) && effective == old(effective)
    {
      var attempt := 1;
      r := Query(stmt, reply(i, attempt));
      LastAttemptDecides(reply, i, 1);
      while r.Failed?
        invariant 1 <= attempt <= MAX_ATTEMPTS && executions == old(executions) + attempt
        invariant r == reply(i, attempt)
        invariant LastAttempt(reply, i, attempt) == LastAttempt(reply, i, 1)
        invariant r.Failed? ==> rows == old(rows) && effective == old(effective)
        invariant r.Done? ==> rows == ApplyStmt(old(rows), stmt) && effective == old(effective) + [stmt]
        decreases MAX_ATTEMPTS - attempt, r.Failed?
      {
        if !IsConflict(r.message) || attempt >= MAX_ATTEMPTS {
          return;
        }
        attempt := attempt + 1;
        r := Query(stmt, reply(i, attempt));
      }
    }

    /** Sends exactly the statements `ExecuteLake` counts: success means that every
        one took effect once, in order; an error means that exactly those before the
        first one that cannot land did. */
    method ExecuteLakeDml(stmts: seq<LakeStmt>, attach: bool, reply: Replies) returns (err: Option<string>)
      modifies this
      ensures (State(), err.None?) == ExecuteLake(old(State()), stmts, attach, reply)
    {
      if stmts == [] {
        return None;
      }
      if !attach {
        return Some("lake catalog attach failed");
      }
      LandedCountIsPrefix(|stmts|, reply, 0);
      for i := 0 to |stmts|
        invariant i + LandedCount(|stmts|, reply, i) == LandedCount(|stmts|, reply, 0)
        invariant rows == ApplyAll(old(rows), stmts[..i]) && effective == old(effective) + stmts[..i]
        invariant executions + SentCount(|stmts|, reply, i) == old(executions) + SentCount(|stmts|, reply, 0)
      {
        var r := SendWithRetry(stmts[i], i, reply);
        if r.Failed? {
          return Some(r.message);
        }
        ApplyAllConcat(old(rows), stmts[..i], [stmts[i]]);
        assert ApplyAll(rows, []) == rows;
        assert stmts[..i + 1] == stmts[..i] + [stmts[i]];
      }
      assert stmts[..|stmts|] == stmts;
      return None;
    }
  }
}
