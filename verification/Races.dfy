/**
 * What survives interleaving, for any number of requests in flight and any schedule;
 * what does not, with the schedule that breaks it; and the link back to atomic requests.
 */
module Races {
  import opened Common
  import opened AuthTables
  import opened AuthSteps
  import opened AuthInvariants
  import opened Sessions
  import opened Credentials
  import opened Interleaving

  lemma {:induction false} ScheduleLater(c: Config, s: Sys, acts: seq<Action>)
    requires SysInv(s)
    ensures Later(s.db, Schedule(c, s, acts).db) && |s.procs| <= |Schedule(c, s, acts).procs|
    ensures s.log <= Schedule(c, s, acts).log
    decreases |acts|
  {
    if |acts| == 0 {
      assert s.db.tokens[..|s.db.tokens|] == s.db.tokens;
    } else {
      var s' := Next(c, s, acts[0]);
      NextInv(c, s, acts[0]);
      ScheduleLater(c, s', acts[1..]);
      LaterTransitive(s.db, s'.db, Schedule(c, s, acts).db);
    }
  }

  /** One more action after a schedule. */
  lemma {:induction false} ScheduleSnoc(c: Config, s: Sys, acts: seq<Action>, a: Action)
    requires SysInv(s)
    ensures Schedule(c, s, acts + [a]) == Next(c, Schedule(c, s, acts), a)
    decreases |acts|
  {
    if |acts| == 0 {
      assert [] + [a] == [a] && [a][1..] == [];
    } else {
      NextInv(c, s, acts[0]);
      assert (acts + [a])[1..] == acts[1..] + [a];
      ScheduleSnoc(c, Next(c, s, acts[0]), acts[1..], a);
    }
  }

  // ----- what requests in flight look at -----

  /** After its lookup a request judges the copy it read and the clock, whatever has become of the row. */
  lemma CopiesDecide(c: Config, s: Db, s': Db, p: Process)
    requires p.LoginRead? || p.RefreshRead? || p.ResetRead?
    requires Fits(s, p) && Fits(s', p) && s'.now == s.now
    ensures Exec(c, s', p).next == Exec(c, s, p).next && Exec(c, s, p).db == s
  {
  }

  /** A Google login that read its google id in the row writes nothing, and it judges the copy it read. */
  lemma GoogleCopyDecides(c: Config, s: Db, s': Db, p: Process)
    requires p.GoogleRead? && Fits(s, p) && Fits(s', p)
    requires p.found.Some? && p.found.value.1.googleId == Some(p.googleId)
    ensures Exec(c, s', p).next == Exec(c, s, p).next && Exec(c, s, p).db == s
    ensures Exec(c, s, p).next == Done(Deactivated(p.found.value.0)) <==> !p.found.value.1.isActive
  {
  }

  /** The account check of a refresh or a reset looks at the account as it is at that statement, and at nothing else. */
  lemma AccountsDecide(c: Config, s: Db, p: Process)
    requires (p.RefreshLive? || p.ResetLive?) && Fits(s, p)
    ensures Exec(c, s, p).db == s
    ensures Exec(c, s, p).next.RefreshPassed? || Exec(c, s, p).next.ResetPassed?
       <==> s.users[p.u].isActive && s.users[p.u].deletedAt.None?
  {
  }

  // ----- the failed-attempt counter -----

  /** The statement zeroed the counter of `u`: a committed login or reset. */
  predicate Clears(x: Entry, u: UserId) {
    || (x.before.LoginPassed? && x.after == Done(LoggedIn(u)))
    || (x.before.ResetPassed? && x.after == Done(PasswordReset(u)))
  }

  /** Increments executed for `u` since the last zeroing, counted from `start`. */
  function Increments(log: seq<Entry>, u: UserId, start: nat): nat {
    if |log| == 0 then start
    else
      var x := log[|log| - 1];
      if x.before == LoginFailed(u) then Increments(log[..|log| - 1], u, start) + 1
      else if Clears(x, u) then 0
      else Increments(log[..|log| - 1], u, start)
  }

  predicate LockPending(s: Sys, u: UserId) {
    exists q | 0 <= q < |s.procs| :: s.procs[q] == LoginLocking(u)
  }

  function LockOf(s: Db, u: UserId): Option<Time> {
    if u < |s.users| then s.users[u].lockedUntil else None
  }

  predicate Guarded(c: Config, s: Sys, u: UserId) {
    Failures(s.db, u) >= c.maxFailedAttempts ==> LockOf(s.db, u).Some? || LockPending(s, u)
  }

  lemma BeginCounter(c: Config, s: Db, e: Event, u: UserId)
    ensures Failures(Begin(c, s, e).db, u) == Failures(s, u) && LockOf(Begin(c, s, e).db, u) == LockOf(s, u)
    ensures Begin(c, s, e).next != LoginLocking(u)
  {
  }

  /** Exactly three statements touch the counter and the lock of `u`. */
  lemma ExecCounter(c: Config, s: Db, p: Process, u: UserId)
    requires Fits(s, p)
    ensures var m := Exec(c, s, p);
      var cleared := Clears(Entry(0, p, m.next), u);
      && Failures(m.db, u)
           == (if p == LoginFailed(u) then Failures(s, u) + 1 else if cleared then 0 else Failures(s, u))
      && (LockOf(m.db, u).Some? <==> if cleared then false else p == LoginLocking(u) || LockOf(s, u).Some?)
      && (m.next == LoginLocking(u) <==> p == LoginFailed(u) && Failures(m.db, u) >= c.maxFailedAttempts)
  {
    if p.Ready? {
      BeginCounter(c, s, p.e, u);
    }
  }

  lemma NextGuarded(c: Config, s: Sys, a: Action, u: UserId)
    requires SysInv(s) && Guarded(c, s, u)
    ensures Guarded(c, Next(c, s, a), u)
  {
    var s' := Next(c, s, a);
    if a.Advance? && a.q < |s.procs| {
      ExecCounter(c, s.db, s.procs[a.q], u);
      if s'.procs[a.q] == LoginLocking(u) {
        assert LockPending(s', u);
      }
    }
    if LockPending(s, u) {
      var q :| 0 <= q < |s.procs| && s.procs[q] == LoginLocking(u);
      assert a != Advance(q) ==> s'.procs[q] == LoginLocking(u);
    }
  }

  lemma IncrementsAppend(log: seq<Entry>, x: Entry, u: UserId, start: nat)
    ensures Increments(log + [x], u, start)
         == if x.before == LoginFailed(u) then Increments(log, u, start) + 1
            else if Clears(x, u) then 0
            else Increments(log, u, start)
  {
  }

  lemma NextCounted(c: Config, s: Sys, a: Action, u: UserId, start: nat)
    requires SysInv(s) && Failures(s.db, u) == Increments(s.log, u, start)
    ensures Failures(Next(c, s, a).db, u) == Increments(Next(c, s, a).log, u, start)
  {
    if a.Advance? && a.q < |s.procs| {
      var p := s.procs[a.q];
      var x := Entry(a.q, p, Exec(c, s.db, p).next);
      ExecCounter(c, s.db, p, u);
      IncrementsAppend(s.log, x, u, start);
      assert Clears(x, u) <==> Clears(Entry(0, p, x.after), u);
    }
  }

  lemma {:induction false} ScheduleCounted(c: Config, s: Sys, acts: seq<Action>, u: UserId, start: nat)
    requires SysInv(s) && Failures(s.db, u) == Increments(s.log, u, start) && Guarded(c, s, u)
    ensures var s' := Schedule(c, s, acts);
      Failures(s'.db, u) == Increments(s'.log, u, start) && Guarded(c, s', u)
    decreases |acts|
  {
    if |acts| > 0 {
      NextInv(c, s, acts[0]);
      NextCounted(c, s, acts[0], u, start);
      NextGuarded(c, s, acts[0], u);
      ScheduleCounted(c, Next(c, s, acts[0]), acts[1..], u, start);
    }
  }

  /**
   * Under any interleaving no increment is lost: the counter equals the increments
   * executed since the last zeroing transaction, and at or above the maximum the account
   * is locked or a request stands between its increment and its lock write.
   */
  lemma CounterNeverLosesAttempts(c: Config, s: Sys, acts: seq<Action>, u: UserId)
    requires SysInv(s) && s.log == [] && Guarded(c, s, u)
    ensures var s' := Schedule(c, s, acts);
      && Failures(s'.db, u) == Increments(s'.log, u, Failures(s.db, u))
      && (Failures(s'.db, u) >= c.maxFailedAttempts ==> LockOf(s'.db, u).Some? || LockPending(s', u))
  {
    ScheduleCounted(c, s, acts, u, Failures(s.db, u));
  }

  // ----- the rotation forest -----

  /** Under any interleaving revocations last, tokens with a child are revoked, so live tokens are leaves. */
  lemma LiveTokensAreLeaves(c: Config, s: Sys, acts: seq<Action>, i: TokenId, j: TokenId)
    requires SysInv(s)
    ensures var s' := Schedule(c, s, acts).db;
      && (i < |s.db.tokens| && s.db.tokens[i].revokedAt.Some? ==> i < |s'.tokens| && s'.tokens[i].revokedAt.Some?)
      && (i < |s'.tokens| && s'.tokens[i].revokedAt.None? && j < |s'.tokens| ==> s'.issues[j].parent != Some(i))
  {
    ScheduleLater(c, s, acts);
    var s' := Schedule(c, s, acts).db;
    if i < |s.db.tokens| {
      OldRows(s.db, s', i);
    }
    if j < |s'.tokens| && s'.issues[j].parent.Some? {
      assert ForestAt(s', j);
    }
  }

  predicate ReplayPoint(p: Process, e: Event, u: UserId) {
    p == Ready(e) || p == RefreshReplayed(u) || p == Done(ReuseDetected(u))
  }

  /** One action leaves a replaying refresh where it was or takes it to its mass revocation or its end. */
  lemma ReplayNext(c: Config, s: Sys, a: Action, q: nat, e: Event, i: TokenId)
    requires SysInv(s) && e.Refresh? && i < |s.db.tokens|
    requires s.db.tokens[i].tokenHash == Sha256(e.raw) && s.db.tokens[i].revokedAt.Some?
    requires q < |s.procs| && ReplayPoint(s.procs[q], e, s.db.tokens[i].userId)
    ensures var s', u := Next(c, s, a), s.db.tokens[i].userId;
      && i < |s'.db.tokens| && s'.db.tokens[i] == s.db.tokens[i].(revokedAt := s'.db.tokens[i].revokedAt)
      && s'.db.tokens[i].revokedAt.Some? && s.log <= s'.log
      && |s'.log| <= |s.log| + 1 && q < |s'.procs| && ReplayPoint(s'.procs[q], e, u)
      && (|s'.log| > |s.log| && s'.log[|s.log|].q == q ==>
            s'.log[|s.log|].after == RefreshReplayed(u) || s'.log[|s.log|].after == Done(ReuseDetected(u)))
  {
    NextInv(c, s, a);
    OldRows(s.db, Next(c, s, a).db, i);
    FindUnique(s.db.tokens, i);
  }

  lemma {:induction false} ReplayStays(c: Config, s: Sys, acts: seq<Action>, q: nat, e: Event, i: TokenId)
    requires SysInv(s) && e.Refresh? && i < |s.db.tokens|
    requires s.db.tokens[i].tokenHash == Sha256(e.raw) && s.db.tokens[i].revokedAt.Some?
    requires q < |s.procs| && ReplayPoint(s.procs[q], e, s.db.tokens[i].userId)
    ensures var s', u := Schedule(c, s, acts), s.db.tokens[i].userId;
      && s.log <= s'.log && q < |s'.procs| && ReplayPoint(s'.procs[q], e, u)
      && forall k | |s.log| <= k < |s'.log| && s'.log[k].q == q ::
           s'.log[k].after == RefreshReplayed(u) || s'.log[k].after == Done(ReuseDetected(u))
    decreases |acts|
  {
    if |acts| > 0 {
      var s1 := Next(c, s, acts[0]);
      NextInv(c, s, acts[0]);
      ReplayNext(c, s, acts[0], q, e, i);
      ReplayStays(c, s1, acts[1..], q, e, i);
    }
  }

  /**
   * A refresh that has yet to look its token up when a rotation of that token has already
   * committed never issues a token, whatever the schedule: it can only detect the reuse.
   */
  lemma LateReplayNeverIssues(c: Config, s: Sys, acts: seq<Action>, q: nat, e: Event, i: TokenId, child: TokenId)
    requires SysInv(s) && q < |s.procs| && s.procs[q] == Ready(e) && e.Refresh?
    requires i < |s.db.tokens| && s.db.tokens[i].tokenHash == Sha256(e.raw)
    requires child < |s.db.tokens| && s.db.issues[child].parent == Some(i)
    ensures var s', u := Schedule(c, s, acts), s.db.tokens[i].userId;
      && s.log <= s'.log && q < |s'.procs|
      && (s'.procs[q] == Ready(e) || s'.procs[q] == RefreshReplayed(u) || s'.procs[q] == Done(ReuseDetected(u)))
      && forall k | |s.log| <= k < |s'.log| && s'.log[k].q == q ::
           s'.log[k].after == RefreshReplayed(u) || s'.log[k].after == Done(ReuseDetected(u))
  {
    assert ForestAt(s.db, child);
    ReplayStays(c, s, acts, q, e, i);
  }

  /** Once its `updateMany` has run, no token of that user from before that statement is ever live again. */
  lemma ReplayRevokesForGood(c: Config, s: Sys, acts: seq<Action>, q: nat, u: UserId, i: TokenId)
    requires SysInv(s) && q < |s.procs| && s.procs[q] == RefreshReplayed(u)
    requires i < |s.db.tokens| && s.db.tokens[i].userId == u
    ensures var s' := Schedule(c, s, [Advance(q)] + acts);
      i < |s'.db.tokens| && s'.db.tokens[i].revokedAt.Some?
  {
    var all := [Advance(q)] + acts;
    assert all[0] == Advance(q) && all[1..] == acts;
    var s1 := Next(c, s, Advance(q));
    NextInv(c, s, Advance(q));
    ScheduleLater(c, s1, acts);
    OldRows(s1.db, Schedule(c, s1, acts).db, i);
  }

  // ----- where interleaving breaks the atomic picture -----

  predicate OneLivePerChain(s: Db) {
    forall i, j | 0 <= i < j < |s.tokens| && s.issues[i].chain == s.issues[j].chain ::
      s.tokens[i].revokedAt.Some? || s.tokens[j].revokedAt.Some?
  }

  predicate Rotatable(s: Db, e: Event, i: TokenId) {
    && e.Refresh? && i < |s.tokens| && s.tokens[i].tokenHash == Sha256(e.raw)
    && s.tokens[i].revokedAt.None? && s.now <= s.tokens[i].expiresAt && Usable(s.users, s.tokens[i].userId)
    && !TokenTaken(s.tokens, Sha256(e.nonce))
  }

  function Turn(q: nat, r: nat): seq<Action> { [Advance(q), Advance(r)] }

  lemma TwoActions(c: Config, s: Sys, q: nat, r: nat, rest: seq<Action>)
    requires SysInv(s)
    ensures SysInv(Next(c, s, Advance(q)))
    ensures Schedule(c, s, Turn(q, r) + rest)
         == Schedule(c, Schedule(c, s, Turn(q, r)), rest)
    ensures Schedule(c, s, Turn(q, r)) == Next(c, Next(c, s, Advance(q)), Advance(r))
  {
    var s1 := Next(c, s, Advance(q));
    NextInv(c, s, Advance(q));
    NextInv(c, s1, Advance(r));
    assert (Turn(q, r) + rest)[1..] == [Advance(r)] + rest && ([Advance(r)] + rest)[1..] == rest;
    assert Turn(q, r)[1..] == [Advance(r)] && [Advance(r)][1..] == [];
    assert Schedule(c, s1, [Advance(r)] + rest) == Schedule(c, Next(c, s1, Advance(r)), rest);
    assert Schedule(c, s1, [Advance(r)]) == Schedule(c, Next(c, s1, Advance(r)), []);
  }

  /** Two processes that only read advance one statement each and leave the tables alone. */
  lemma ReadTurn(c: Config, s: Sys, q: nat, r: nat)
    requires SysInv(s) && q < |s.procs| && r < |s.procs| && q != r
    requires Exec(c, s.db, s.procs[q]).db == s.db && Exec(c, s.db, s.procs[r]).db == s.db
    ensures var s' := Schedule(c, s, Turn(q, r));
      && s'.db == s.db && |s'.procs| == |s.procs|
      && s'.procs[q] == Exec(c, s.db, s.procs[q]).next && s'.procs[r] == Exec(c, s.db, s.procs[r]).next
  {
    TwoActions(c, s, q, r, []);
  }

  /** Two refreshes of the same live token advancing in turn reach their transactions together. */
  lemma RefreshesReachCommit(c: Config, s: Sys, q: nat, r: nat, e: Event, f: Event, i: TokenId)
    requires SysInv(s) && q < |s.procs| && r < |s.procs| && q != r
    requires s.procs[q] == Ready(e) && s.procs[r] == Ready(f) && Rotatable(s.db, e, i) && Rotatable(s.db, f, i)
    ensures var s' := Schedule(c, Schedule(c, Schedule(c, s, Turn(q, r)), Turn(q, r)), Turn(q, r));
      var u := s.db.tokens[i].userId;
      && s'.db == s.db && |s'.procs| == |s.procs|
      && s'.procs[q] == RefreshPassed(i, u, e.device, e.nonce) && s'.procs[r] == RefreshPassed(i, u, f.device, f.nonce)
  {
    FindUnique(s.db.tokens, i);
    ReadTurn(c, s, q, r);
    var s1 := Schedule(c, s, Turn(q, r));
    ReadTurn(c, s1, q, r);
    var s2 := Schedule(c, s1, Turn(q, r));
    ReadTurn(c, s2, q, r);
  }

  /** Both transactions commit: two live successors of one token. */
  lemma CommitsFork(c: Config, s: Sys, q: nat, r: nat, e: Event, f: Event, i: TokenId)
    requires SysInv(s) && q < |s.procs| && r < |s.procs| && q != r && e.Refresh? && f.Refresh? && i < |s.db.tokens|
    requires var u := s.db.tokens[i].userId;
      s.procs[q] == RefreshPassed(i, u, e.device, e.nonce) && s.procs[r] == RefreshPassed(i, u, f.device, f.nonce)
    requires !TokenTaken(s.db.tokens, Sha256(e.nonce)) && !TokenTaken(s.db.tokens, Sha256(f.nonce))
    requires e.nonce != f.nonce
    ensures var s' := Schedule(c, s, Turn(q, r)).db;
      var n := |s.db.tokens|;
      && |s'.tokens| == n + 2
      && s'.tokens[n].revokedAt.None? && s'.tokens[n + 1].revokedAt.None?
      && s'.issues[n].parent == Some(i) && s'.issues[n + 1].parent == Some(i)
      && s'.issues[n].chain == s'.issues[n + 1].chain
  {
    TwoActions(c, s, q, r, []);
    var s1 := Next(c, s, Advance(q));
    var n := |s.db.tokens|;
    assert s1.db == Rotate(c, s.db, i, s.db.tokens[i].userId, e.device, e.nonce);
    assert !TokenTaken(s1.db.tokens, Sha256(f.nonce));
    assert s1.db.tokens[n] == NewToken(c, s.db.now, s.db.tokens[i].userId, e.device, e.nonce);
  }

  /**
   * The race that atomic requests rule out: two refreshes of one live token, advancing in
   * turn, both succeed and leave two live tokens in one chain.
   */
  lemma RefreshRaceForksChain(c: Config, s: Sys, q: nat, r: nat, e: Event, f: Event, i: TokenId)
    requires SysInv(s) && q < |s.procs| && r < |s.procs| && q != r && e.Refresh? && f.Refresh? && e.nonce != f.nonce
    requires s.procs[q] == Ready(e) && s.procs[r] == Ready(f) && Rotatable(s.db, e, i) && Rotatable(s.db, f, i)
    ensures var s' := Schedule(c, s, Turn(q, r) + (Turn(q, r) + (Turn(q, r) + Turn(q, r)))).db;
      !OneLivePerChain(s') && |s'.tokens| == |s.db.tokens| + 2
  {
    var s1 := Schedule(c, s, Turn(q, r));
    var s2 := Schedule(c, s1, Turn(q, r));
    var s3 := Schedule(c, s2, Turn(q, r));
    RefreshesReachCommit(c, s, q, r, e, f, i);
    CommitsFork(c, s3, q, r, e, f, i);
    TwoActions(c, s, q, r, Turn(q, r) + (Turn(q, r) + Turn(q, r)));
    TwoActions(c, s1, q, r, Turn(q, r) + Turn(q, r));
    TwoActions(c, s2, q, r, Turn(q, r));
  }

  /**
   * Exactly when a rotation transaction keeps one live token per chain: its token is still
   * unrevoked when it commits, or the chain has no live token left.
   */
  lemma RotationForksExactlyWhen(c: Config, s: Db, p: Process)
    requires p.RefreshPassed? && Fits(s, p) && OneLivePerChain(s) && !TokenTaken(s.tokens, Sha256(p.nonce))
    ensures OneLivePerChain(Exec(c, s, p).db)
       <==> s.tokens[p.i].revokedAt.None?
            || forall j | 0 <= j < |s.tokens| && s.issues[j].chain == s.issues[p.i].chain :: s.tokens[j].revokedAt.Some?
  {
    var s', n := Exec(c, s, p).db, |s.tokens|;
    assert forall j | 0 <= j < n ::
      s'.tokens[j] == if j == p.i then s.tokens[j].(revokedAt := Some(s.now)) else s.tokens[j];
    assert s'.tokens[n].revokedAt.None? && s'.issues[n].chain == s.issues[p.i].chain;
    if s.tokens[p.i].revokedAt.Some? {
      forall j | 0 <= j < n && s.issues[j].chain == s.issues[p.i].chain && s.tokens[j].revokedAt.None?
        ensures !OneLivePerChain(s')
      {
        assert s'.issues[j] == s.issues[j] && s'.tokens[j] == s.tokens[j];
      }
    }
  }

  predicate Spendable(s: Db, e: Event, t: nat) {
    && e.ResetPassword? && t < |s.resets| && FindReset(s.resets, Sha256(e.raw)) == Some(t)
    && s.resets[t].usedAt.None? && s.now <= s.resets[t].expiresAt && Usable(s.users, s.resets[t].userId)
  }

  lemma ResetsReachCommit(c: Config, s: Sys, q: nat, r: nat, e: Event, f: Event, t: nat)
    requires SysInv(s) && q < |s.procs| && r < |s.procs| && q != r
    requires s.procs[q] == Ready(e) && s.procs[r] == Ready(f) && Spendable(s.db, e, t) && Spendable(s.db, f, t)
    ensures var s' := Schedule(c, Schedule(c, Schedule(c, s, Turn(q, r)), Turn(q, r)), Turn(q, r));
      var u := s.db.resets[t].userId;
      && s'.db == s.db && |s'.procs| == |s.procs|
      && s'.procs[q] == ResetPassed(t, u, e.password) && s'.procs[r] == ResetPassed(t, u, f.password)
  {
    ReadTurn(c, s, q, r);
    var s1 := Schedule(c, s, Turn(q, r));
    ReadTurn(c, s1, q, r);
    var s2 := Schedule(c, s1, Turn(q, r));
    ReadTurn(c, s2, q, r);
  }

  /** Both reset transactions commit: one token, two successful resets, and the later password stays. */
  lemma CommitsSpendTwice(c: Config, s: Sys, q: nat, r: nat, t: nat, u: UserId, first: string, second: string)
    requires SysInv(s) && q < |s.procs| && r < |s.procs| && q != r
    requires s.procs[q] == ResetPassed(t, u, first) && s.procs[r] == ResetPassed(t, u, second)
    ensures var s' := Schedule(c, s, Turn(q, r));
      && |s'.procs| == |s.procs| && s'.procs[q] == Done(PasswordReset(u)) && s'.procs[r] == Done(PasswordReset(u))
      && u < |s'.db.users| && s'.db.users[u].password == Some(Bcrypt(second))
      && s'.db.users[u].failedLoginAttempts == 0 && AllRevoked(s'.db.tokens, u)
  {
    TwoActions(c, s, q, r, []);
  }

  /** Two resets presenting one unspent token and advancing in turn both succeed. */
  lemma ResetRaceSpendsTokenTwice(c: Config, s: Sys, q: nat, r: nat, e: Event, f: Event, t: nat)
    requires SysInv(s) && q < |s.procs| && r < |s.procs| && q != r
    requires s.procs[q] == Ready(e) && s.procs[r] == Ready(f) && Spendable(s.db, e, t) && Spendable(s.db, f, t)
    ensures var s', u := Schedule(c, s, Turn(q, r) + (Turn(q, r) + (Turn(q, r) + Turn(q, r)))), s.db.resets[t].userId;
      && |s'.procs| == |s.procs| && s'.procs[q] == Done(PasswordReset(u)) && s'.procs[r] == Done(PasswordReset(u))
  {
    var s1 := Schedule(c, s, Turn(q, r));
    var s2 := Schedule(c, s1, Turn(q, r));
    var s3 := Schedule(c, s2, Turn(q, r));
    ResetsReachCommit(c, s, q, r, e, f, t);
    CommitsSpendTwice(c, s3, q, r, t, s.db.resets[t].userId, e.password, f.password);
    TwoActions(c, s, q, r, Turn(q, r) + (Turn(q, r) + Turn(q, r)));
    TwoActions(c, s1, q, r, Turn(q, r) + Turn(q, r));
    TwoActions(c, s2, q, r, Turn(q, r));
  }

  /** How many reset transactions have committed with reset token `t`. */
  function Spends(log: seq<Entry>, t: nat): nat {
    if |log| == 0 then 0
    else
      var x := log[|log| - 1];
      Spends(log[..|log| - 1], t) + if x.before.ResetPassed? && x.before.r == t then 1 else 0
  }

  predicate Spent(s: Db, t: nat) { t < |s.resets| && s.resets[t].usedAt.Some? }

  lemma BeginSpent(c: Config, s: Db, e: Event, t: nat)
    ensures Spent(Begin(c, s, e).db, t) <==> Spent(s, t)
  {
  }

  lemma ExecSpent(c: Config, s: Db, p: Process, t: nat)
    requires Fits(s, p)
    ensures Spent(Exec(c, s, p).db, t) <==> Spent(s, t) || (p.ResetPassed? && p.r == t)
  {
    if p.Ready? {
      BeginSpent(c, s, p.e, t);
    }
  }

  /**
   * Under any interleaving a token is marked used exactly when a reset with it has
   * committed, so one more commit is the token's first exactly when it finds it unmarked.
   */
  lemma {:induction false} UsedMeansSpent(c: Config, s: Sys, acts: seq<Action>, t: nat)
    requires SysInv(s) && (Spent(s.db, t) <==> Spends(s.log, t) > 0)
    ensures var s' := Schedule(c, s, acts); Spent(s'.db, t) <==> Spends(s'.log, t) > 0
    decreases |acts|
  {
    if |acts| > 0 {
      var a, s1 := acts[0], Next(c, s, acts[0]);
      NextInv(c, s, a);
      if a.Advance? && a.q < |s.procs| {
        ExecSpent(c, s.db, s.procs[a.q], t);
        assert s1.log[..|s.log|] == s.log;
      }
      UsedMeansSpent(c, s1, acts[1..], t);
    }
  }

  lemma CommitSpends(c: Config, s: Sys, q: nat)
    requires SysInv(s) && q < |s.procs| && s.procs[q].ResetPassed?
    ensures Spends(Next(c, s, Advance(q)).log, s.procs[q].r) == Spends(s.log, s.procs[q].r) + 1
    ensures s.procs[q].r < |s.db.resets|
  {
    assert Next(c, s, Advance(q)).log[..|s.log|] == s.log;
  }

  lemma SpentOnceExactlyWhen(c: Config, s: Sys, acts: seq<Action>, q: nat)
    requires SysInv(s) && s.log == [] && var s' := Schedule(c, s, acts); q < |s'.procs| && s'.procs[q].ResetPassed?
    requires !Spent(s.db, Schedule(c, s, acts).procs[q].r)
    ensures var s' := Schedule(c, s, acts);
      var t := s'.procs[q].r;
      Spends(Next(c, s', Advance(q)).log, t) == 1 <==> s'.db.resets[t].usedAt.None?
  {
    var s' := Schedule(c, s, acts);
    CommitSpends(c, s', q);
    UsedMeansSpent(c, s, acts, s'.procs[q].r);
  }

  // ----- back to atomic requests -----

  lemma InvSound(c: Config, s: Db)
    requires Inv(c, s)
    ensures Sound(s)
  {
    forall j | 0 <= j < |s.tokens| ensures AnchoredAt(s, j) && (s.issues[j].parent.Some? ==> ForestAt(s, j)) {
      assert RootedAt(s.tokens, s.issues, j) && RootedAt(s.tokens, s.issues, s.issues[j].chain);
      if s.issues[j].parent.Some? {
        assert RootedAt(s.tokens, s.issues, s.issues[j].parent.value);
      }
    }
  }

  /** `n` statements of one request with nothing in between. */
  function Alone(c: Config, s: Db, p: Process, n: nat): Move
    requires Fits(s, p) && Sound(s)
    decreases n
  {
    if n == 0 then Move(s, p)
    else
      ExecFits(c, s, p);
      ExecSound(c, s, p);
      var m := Exec(c, s, p);
      Alone(c, m.db, m.next, n - 1)
  }

  lemma AloneStep(c: Config, s: Db, p: Process, n: nat)
    requires Fits(s, p) && Sound(s) && n > 0
    ensures Fits(Exec(c, s, p).db, Exec(c, s, p).next) && Sound(Exec(c, s, p).db)
    ensures Alone(c, s, p, n) == Alone(c, Exec(c, s, p).db, Exec(c, s, p).next, n - 1)
  {
    ExecFits(c, s, p);
    ExecSound(c, s, p);
  }

  lemma {:induction false} AloneDone(c: Config, s: Db, o: Outcome, n: nat)
    requires Sound(s)
    ensures Alone(c, s, Done(o), n) == Move(s, Done(o))
  {
    if n > 0 {
      AloneStep(c, s, Done(o), n);
      AloneDone(c, s, o, n - 1);
    }
  }

  predicate Agrees(m: Move, r: Result) { m == Move(r.db, Done(r.out)) }

  lemma LoginAlone(c: Config, s: Db, e: Event)
    requires Sound(s) && e.Login?
    ensures Agrees(Alone(c, s, Ready(e), 4), Step(c, s, e))
  {
    AloneStep(c, s, Ready(e), 4);
    var found := FindByEmail(s.users, ToLower(e.email));
    if found.None? {
      AloneDone(c, s, NoSuchUser, 3);
    } else {
      LoginReadAlone(c, s, LoginRead(found.value, s.users[found.value], e.password, e.device, e.nonce));
    }
  }

  lemma LoginReadAlone(c: Config, s: Db, p: Process)
    requires Sound(s) && p.LoginRead? && Fits(s, p) && p.user == s.users[p.u]
    ensures var m := Alone(c, s, p, 3);
      var user, u := p.user, p.u;
      if !user.isActive then m == Move(s, Done(Deactivated(u)))
      else if user.lockedUntil.Some? && user.lockedUntil.value > s.now then m == Move(s, Done(Locked(u)))
      else if user.password != Some(Bcrypt(p.password))
      then m == Move(RecordFailedAttempt(c, s, u), Done(WrongPassword(u)))
      else if TokenTaken(s.tokens, Sha256(p.nonce)) then m == Move(s, Done(UniqueViolation))
      else m == Move(StartChain(c, ClearFailures(s, u), u, p.device, p.nonce), Done(LoggedIn(u)))
  {
  }

  lemma RefreshAlone(c: Config, s: Db, e: Event)
    requires Sound(s) && e.Refresh?
    ensures Agrees(Alone(c, s, Ready(e), 4), Step(c, s, e))
  {
  }

  lemma GoogleAlone(c: Config, s: Db, e: Event)
    requires Sound(s) && e.GoogleLogin?
    ensures Agrees(Alone(c, s, Ready(e), 4), Step(c, s, e))
  {
    AloneStep(c, s, Ready(e), 4);
    if !e.enabled {
      AloneDone(c, s, GoogleDisabled, 3);
    } else {
      var p := Exec(c, s, Ready(e)).next;
      var account := GoogleAccount(s, e.googleId, e.email, e.name, e.hint);
      AloneStep(c, s, p, 3);
      GoogleWriteAgrees(s, e, p);
      if account.None? {
        AloneDone(c, s, UniqueViolation, 2);
      } else {
        var (s', u) := account.value;
        if s'.users[u].isActive {
          AloneStep(c, s', GooglePassed(u, e.device, e.nonce), 2);
          AloneDone(c, Step(c, s, e).db, Step(c, s, e).out, 1);
        } else {
          AloneDone(c, s', Deactivated(u), 2);
        }
      }
    }
  }

  lemma GoogleWriteAgrees(s: Db, e: Event, p: Process)
    requires e.GoogleLogin?
    requires p == GoogleRead(match FindForGoogle(s.users, e.googleId, ToLower(e.email), e.hint)
                             case None => None
                             case Some(u) => Some((u, s.users[u])), e.googleId, e.email, e.name, e.device, e.nonce)
    ensures Fits(s, p)
    ensures var account := GoogleAccount(s, e.googleId, e.email, e.name, e.hint);
      GoogleWrite(s, p) ==
      match account
      case None => Move(s, Done(UniqueViolation))
      case Some((s', u)) =>
        Move(s', if s'.users[u].isActive then GooglePassed(u, e.device, e.nonce) else Done(Deactivated(u)))
  {
  }

  lemma ForgotAlone(c: Config, s: Db, e: Event)
    requires Sound(s) && e.ForgotPassword?
    ensures Agrees(Alone(c, s, Ready(e), 4), Step(c, s, e))
  {
  }

  lemma ResetAlone(c: Config, s: Db, e: Event)
    requires Sound(s) && e.ResetPassword?
    ensures Agrees(Alone(c, s, Ready(e), 4), Step(c, s, e))
  {
  }

  /** A request whose statements run without interruption does exactly what its atomic step does. */
  lemma UninterruptedIsAtomic(c: Config, s: Db, e: Event)
    requires Sound(s)
    ensures Agrees(Alone(c, s, Ready(e), 4), Step(c, s, e))
  {
    match e
    case Login(_, _, _, _) => LoginAlone(c, s, e);
    case Refresh(_, _, _) => RefreshAlone(c, s, e);
    case GoogleLogin(_, _, _, _, _, _, _) => GoogleAlone(c, s, e);
    case ForgotPassword(_, _) => ForgotAlone(c, s, e);
    case ResetPassword(_, _) => ResetAlone(c, s, e);
    case _ =>
      AloneStep(c, s, Ready(e), 4);
      AloneDone(c, Exec(c, s, Ready(e)).db, Step(c, s, e).out, 3);
  }

  /** The schedule that admits one request at a time and runs it to its end. */
  function OneByOne(es: seq<Event>, q: nat): seq<Action> {
    if |es| == 0 then [] else [Spawn(es[0])] + Then(q, 4, OneByOne(es[1..], q + 1))
  }

  /** `n` statements of process `q`, then the rest of the schedule; no request has more than four. */
  function Then(q: nat, n: nat, rest: seq<Action>): seq<Action> {
    if n == 0 then rest else [Advance(q)] + Then(q, n - 1, rest)
  }

  lemma ScheduleFirst(c: Config, s: Sys, a: Action, rest: seq<Action>)
    requires SysInv(s)
    ensures SysInv(Next(c, s, a)) && Schedule(c, s, [a] + rest) == Schedule(c, Next(c, s, a), rest)
  {
    NextInv(c, s, a);
    assert ([a] + rest)[1..] == rest;
  }

  /** Process `q`, left alone for `n` statements, ends as `m`. */
  predicate Heading(c: Config, s: Sys, q: nat, n: nat, m: Move) {
    SysInv(s) && q < |s.procs| && Alone(c, s.db, s.procs[q], n) == m
  }

  lemma AdvanceAlone(c: Config, s: Sys, q: nat, n: nat, m: Move, rest: seq<Action>) returns (s': Sys)
    requires Heading(c, s, q, n, m) && n > 0
    ensures Heading(c, s', q, n - 1, m) && |s'.procs| == |s.procs|
    ensures Schedule(c, s, [Advance(q)] + rest) == Schedule(c, s', rest)
  {
    s' := Next(c, s, Advance(q));
    ScheduleFirst(c, s, Advance(q), rest);
    AloneStep(c, s.db, s.procs[q], n);
  }

  lemma {:induction false} ThenIsAlone(c: Config, s: Sys, q: nat, n: nat, m: Move, rest: seq<Action>) returns (s': Sys)
    requires Heading(c, s, q, n, m)
    ensures Heading(c, s', q, 0, m) && |s'.procs| == |s.procs|
    ensures Schedule(c, s, Then(q, n, rest)) == Schedule(c, s', rest)
    decreases n
  {
    if n == 0 {
      s' := s;
    } else {
      var s1 := AdvanceAlone(c, s, q, n, m, Then(q, n - 1, rest));
      s' := ThenIsAlone(c, s1, q, n - 1, m, rest);
    }
  }

  lemma RequestToItsEnd(c: Config, s: Sys, e: Event, rest: seq<Action>) returns (s': Sys)
    requires SysInv(s)
    ensures SysInv(s') && |s'.procs| == |s.procs| + 1
    ensures s'.db == Step(c, s.db, e).db && s'.procs[|s.procs|] == Done(Step(c, s.db, e).out)
    ensures Schedule(c, s, [Spawn(e)] + Then(|s.procs|, 4, rest)) == Schedule(c, s', rest)
  {
    ScheduleFirst(c, s, Spawn(e), Then(|s.procs|, 4, rest));
    UninterruptedIsAtomic(c, s.db, e);
    var r := Step(c, s.db, e);
    s' := ThenIsAlone(c, Next(c, s, Spawn(e)), |s.procs|, 4, Move(r.db, Done(r.out)), rest);
  }

  /** Requests scheduled one by one leave the tables a run of atomic steps leaves. */
  lemma {:induction false} OneByOneIsRun(c: Config, s: Sys, es: seq<Event>)
    requires SysInv(s)
    ensures Schedule(c, s, OneByOne(es, |s.procs|)).db == Run(c, s.db, es)
    decreases |es|
  {
    if |es| > 0 {
      var s' := RequestToItsEnd(c, s, es[0], OneByOne(es[1..], |s.procs| + 1));
      OneByOneIsRun(c, s', es[1..]);
    }
  }
}
