/**
 The retry rule in plain terms: which answers make the lake executor send a
 statement again, how often, and what a list of statements leaves behind.
 */
module Retry {
  import opened Wrappers
  import opened Rows
  import opened Core
  import opened LakeExec

  predicate OccursAt(message: string, word: string, i: nat) {
    i + |word| <= |message| && message[i..i + |word|] == word
  }

  predicate Mentions(message: string, word: string) {
    exists i | 0 <= i <= |message| :: OccursAt(message, word, i)
  }

  // A failing answer that names a commit conflict.
  predicate Conflicting(r: Reply) {
    r.Failed? &&
    (Mentions(r.message, "409") || Mentions(r.message, "Conflict") || Mentions(r.message, "CommitFailed"))
  }

  lemma {:induction false} ContainsIsMentions(s: string, word: string)
    ensures Contains(s, word) <==> Mentions(s, word)
    decreases |s|
  {
    assert word <= s <==> OccursAt(s, word, 0);
    if s != "" {
      ContainsIsMentions(s[1..], word);
      forall i | 0 <= i < |s| ensures OccursAt(s[1..], word, i) <==> OccursAt(s, word, i + 1) {
        if i + 1 + |word| <= |s| {
          assert s[1..][i..i + |word|] == s[i + 1..i + 1 + |word|];
        }
      }
      if Mentions(s, word) && !OccursAt(s, word, 0) {
        var i :| 0 <= i <= |s| && OccursAt(s, word, i);
        assert OccursAt(s[1..], word, i - 1);
      }
      if Mentions(s[1..], word) {
        var i :| 0 <= i <= |s[1..]| && OccursAt(s[1..], word, i);
        assert OccursAt(s, word, i + 1);
      }
    }
  }

  lemma ConflictIsConflicting(r: Reply)
    requires r.Failed?
    ensures IsConflict(r.message) <==> Conflicting(r)
  {
    ContainsIsMentions(r.message, "409");
    ContainsIsMentions(r.message, "Conflict");
    ContainsIsMentions(r.message, "CommitFailed");
  }

  // How often a statement is sent that is answered with these three at most.
  function Sends(first: Reply, second: Reply): nat {
    if !Conflicting(first) then 1 else if !Conflicting(second) then 2 else 3
  }

  predicate Succeeds(first: Reply, second: Reply, third: Reply) {
    first.Done? || (Conflicting(first) && (second.Done? || (Conflicting(second) && third.Done?)))
  }

  lemma AttemptsOf(reply: Replies, i: nat)
    ensures LastAttempt(reply, i, 1) == Sends(reply(i, 1), reply(i, 2))
    ensures Lands(reply, i) <==> Succeeds(reply(i, 1), reply(i, 2), reply(i, 3))
  {
    var r1, r2, r3 := reply(i, 1), reply(i, 2), reply(i, 3);
    if r1.Failed? {
      ConflictIsConflicting(r1);
    }
    if r2.Failed? {
      ConflictIsConflicting(r2);
    }
    LastAttemptDecides(reply, i, 1);
    assert LastAttempt(reply, i, 3) == 3;
  }

  function Later(reply: Replies): Replies {
    (i: nat, a: nat) => reply(i + 1, a)
  }

  lemma {:induction false} CountsLater(n: nat, reply: Replies, i: nat)
    requires 0 < i <= n
    ensures LandedCount(n, reply, i) == LandedCount(n - 1, Later(reply), i - 1)
    ensures SentCount(n, reply, i) == SentCount(n - 1, Later(reply), i - 1)
    decreases n - i
  {
    AttemptsOf(reply, i);
    AttemptsOf(Later(reply), i - 1);
    if i < n {
      CountsLater(n, reply, i + 1);
    }
  }

  lemma CountsOfFirst(n: nat, reply: Replies)
    requires n > 0 && Lands(reply, 0)
    ensures LandedCount(n, reply, 0) == 1 + LandedCount(n - 1, Later(reply), 0)
    ensures SentCount(n, reply, 0) == LastAttempt(reply, 0, 1) + SentCount(n - 1, Later(reply), 0)
  {
    CountsLater(n, reply, 1);
  }

  lemma PrefixCons(rows: map<Key, Row>, effective: seq<LakeStmt>, first: LakeStmt, rest: seq<LakeStmt>, k: nat)
    requires k <= |rest|
    ensures ApplyAll(rows, ([first] + rest)[..k + 1]) == ApplyAll(ApplyStmt(rows, first), rest[..k])
    ensures effective + ([first] + rest)[..k + 1] == (effective + [first]) + rest[..k]
  {
    var prefix := ([first] + rest)[..k + 1];
    assert prefix == [first] + rest[..k];
    assert prefix[1..] == rest[..k];
  }

  lemma OneLands(s: LakeState, first: LakeStmt, rest: seq<LakeStmt>, reply: Replies, one: LakeState)
    requires Lands(reply, 0)
    requires one == LakeState(ApplyStmt(s.rows, first), s.effective + [first], s.executions + LastAttempt(reply, 0, 1))
    ensures ExecuteLake(s, [first] + rest, true, reply) == ExecuteLake(one, rest, true, Later(reply))
  {
    var n := |[first] + rest|;
    CountsOfFirst(n, reply);
    LandedCountIsPrefix(n - 1, Later(reply), 0);
    var k := LandedCount(n - 1, Later(reply), 0);
    PrefixCons(s.rows, s.effective, first, rest, k);
    if rest == [] {
      NothingToSend(one);
    }
  }

  lemma NothingToSend(s: LakeState)
    ensures LakeState(ApplyAll(s.rows, []), s.effective + [], s.executions) == s
  {
  }

  lemma OneFails(s: LakeState, stmts: seq<LakeStmt>, reply: Replies)
    requires stmts != [] && !Lands(reply, 0)
    ensures ExecuteLake(s, stmts, true, reply) == (s.(executions := s.executions + LastAttempt(reply, 0, 1)), false)
  {
    assert stmts[..0] == [] && s.effective + [] == s.effective;
  }

  /** Statement by statement.  A statement is sent again only after an answer that
      mentions "409", "Conflict" or "CommitFailed" somewhere, and at most twice; it
      takes effect on the first success and not at all otherwise.  The next one is
      sent only after that, and a list is a success when all of it took effect; an
      empty one is, and needs no catalog. */
  lemma RetryRule(s: LakeState, stmts: seq<LakeStmt>, attach: bool, reply: Replies)
    requires stmts != []
    ensures var sent := s.executions + Sends(reply(0, 1), reply(0, 2));
            var one := LakeState(ApplyStmt(s.rows, stmts[0]), s.effective + [stmts[0]], sent);
            ExecuteLake(s, stmts, true, reply) ==
            if Succeeds(reply(0, 1), reply(0, 2), reply(0, 3)) then ExecuteLake(one, stmts[1..], true, Later(reply))
            else (s.(executions := sent), false)
    ensures ExecuteLake(s, [], attach, reply) == (s, true)
    ensures ExecuteLake(s, stmts, false, reply) == (s, false)
  {
    AttemptsOf(reply, 0);
    if Lands(reply, 0) {
      var sent := s.executions + LastAttempt(reply, 0, 1);
      var one := LakeState(ApplyStmt(s.rows, stmts[0]), s.effective + [stmts[0]], sent);
      assert stmts == [stmts[0]] + stmts[1..];
      OneLands(s, stmts[0], stmts[1..], reply, one);
    } else {
      OneFails(s, stmts, reply);
    }
  }
}
