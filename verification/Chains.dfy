/**
 * Rotation chains when requests overlap: which schedules keep one live token per chain,
 * and when the revocation of all tokens of a user is final.
 */
module Chains {
  import opened Common
  import opened AuthTables
  import opened AuthSteps
  import opened AuthInvariants
  import opened Sessions
  import opened Interleaving
  import opened Races

  /** The state before action `k` of a schedule. */
  function Before(c: Config, s: Sys, acts: seq<Action>, k: nat): (r: Sys)
    requires SysInv(s) && k <= |acts|
    ensures SysInv(r)
  {
    Schedule(c, s, acts[..k])
  }

  lemma BeforeNext(c: Config, s: Sys, acts: seq<Action>, k: nat)
    requires SysInv(s) && k < |acts|
    ensures Before(c, s, acts, k + 1) == Next(c, Before(c, s, acts, k), acts[k])
  {
    assert acts[..k + 1] == acts[..k] + [acts[k]];
    ScheduleSnoc(c, s, acts[..k], acts[k]);
  }

  // ----- one live token per chain -----

  /** The action commits a rotation transaction. */
  predicate Rotates(s: Sys, a: Action) {
    && a.Advance? && a.q < |s.procs| && s.procs[a.q].RefreshPassed?
    && !TokenTaken(s.db.tokens, Sha256(s.procs[a.q].nonce))
  }

  /** The token is unrevoked, or its chain has no live token. */
  predicate TipOrDead(s: Db, i: TokenId)
    requires i < |s.tokens|
  {
    || s.tokens[i].revokedAt.None?
    || forall j | 0 <= j < |s.tokens| && s.issues[j].chain == s.issues[i].chain :: s.tokens[j].revokedAt.Some?
  }

  predicate Harmless(s: Sys, a: Action)
    requires SysInv(s)
  {
    Rotates(s, a) ==> Fits(s.db, s.procs[a.q]) && TipOrDead(s.db, s.procs[a.q].i)
  }

  /** No other statement can put a second live token into a chain. */
  lemma OthersKeepOneLive(c: Config, s: Db, p: Process)
    requires Fits(s, p) && Anchored(s) && OneLivePerChain(s)
    requires p.RefreshPassed? ==> TokenTaken(s.tokens, Sha256(p.nonce))
    ensures OneLivePerChain(Exec(c, s, p).db)
  {
    var s' := Exec(c, s, p).db;
    ExecLater(c, s, p);
    ExecGrows(c, s, p);
    ExecParent(c, s, p);
    forall i, j | 0 <= i < j < |s'.tokens| && s'.issues[i].chain == s'.issues[j].chain
      ensures s'.tokens[i].revokedAt.Some? || s'.tokens[j].revokedAt.Some?
    {
      OldRows(s, s', i);
      assert AnchoredAt(s, i);
      if j < |s.tokens| {
        OldRows(s, s', j);
      }
    }
  }

  /** Only a rotation adds a token with a parent, and only a login one without. */
  lemma ExecParent(c: Config, s: Db, p: Process)
    requires Fits(s, p)
    ensures var s' := Exec(c, s, p).db;
      |s'.tokens| > |s.tokens| ==>
        && s'.tokens[|s.tokens|].revokedAt.None?
        && if s'.issues[|s.tokens|].parent.Some?
           then p.RefreshPassed? && s'.issues[|s.tokens|].parent == Some(p.i)
                && !TokenTaken(s.tokens, Sha256(p.nonce))
           else (p.LoginPassed? || p.GooglePassed?) && s'.tokens[|s.tokens|].userId == p.u
                && !TokenTaken(s.tokens, Sha256(p.nonce))
  {
    if p.Ready? {
      assert |Begin(c, s, p.e).db.tokens| == |s.tokens|;
    }
  }

  lemma ActionForks(c: Config, s: Sys, a: Action)
    requires SysInv(s) && OneLivePerChain(s.db)
    ensures OneLivePerChain(Next(c, s, a).db) <==> Harmless(s, a)
  {
    if Rotates(s, a) {
      RotationForksExactlyWhen(c, s.db, s.procs[a.q]);
    } else if a.Advance? && a.q < |s.procs| {
      OthersKeepOneLive(c, s.db, s.procs[a.q]);
    }
  }

  /**
   * Exactly which schedules keep at most one live token per chain throughout: those in
   * which every committed rotation finds its token still unrevoked, or its chain dead.
   */
  lemma OneLiveTokenExactlyWhen(c: Config, s: Sys, acts: seq<Action>)
    requires SysInv(s) && OneLivePerChain(s.db)
    ensures (forall k | 0 <= k <= |acts| :: OneLivePerChain(Before(c, s, acts, k).db))
       <==> (forall k | 0 <= k < |acts| :: Harmless(Before(c, s, acts, k), acts[k]))
  {
    if forall k | 0 <= k <= |acts| :: OneLivePerChain(Before(c, s, acts, k).db) {
      forall k | 0 <= k < |acts| ensures Harmless(Before(c, s, acts, k), acts[k]) {
        BeforeNext(c, s, acts, k);
        assert OneLivePerChain(Before(c, s, acts, k).db) && OneLivePerChain(Before(c, s, acts, k + 1).db);
        ActionForks(c, Before(c, s, acts, k), acts[k]);
      }
    }
    if forall k | 0 <= k < |acts| :: Harmless(Before(c, s, acts, k), acts[k]) {
      forall k | 0 <= k <= |acts| ensures OneLivePerChain(Before(c, s, acts, k).db) {
        HarmlessKeepsOneLive(c, s, acts, k);
      }
    }
  }

  lemma {:induction false} HarmlessKeepsOneLive(c: Config, s: Sys, acts: seq<Action>, n: nat)
    requires SysInv(s) && OneLivePerChain(s.db) && n <= |acts|
    requires forall k | 0 <= k < n :: Harmless(Before(c, s, acts, k), acts[k])
    ensures OneLivePerChain(Before(c, s, acts, n).db)
  {
    if n > 0 {
      HarmlessKeepsOneLive(c, s, acts, n - 1);
      BeforeNext(c, s, acts, n - 1);
      ActionForks(c, Before(c, s, acts, n - 1), acts[n - 1]);
    }
  }

  // ----- finality of mass revocation -----

  predicate Deleted(s: Db, u: UserId) { u < |s.users| && s.users[u].deletedAt.Some? }

  /** A refresh of `u` past its lookup that can still commit its rotation under some schedule. */
  predicate CanRotate(s: Db, p: Process, u: UserId) {
    match p
    case RefreshRead(_, row, _, nonce) =>
      row.userId == u && s.now <= row.expiresAt && !Deleted(s, u) && !TokenTaken(s.tokens, Sha256(nonce))
    case RefreshLive(_, v, _, nonce) => v == u && !Deleted(s, u) && !TokenTaken(s.tokens, Sha256(nonce))
    case RefreshPassed(_, v, _, nonce) => v == u && !TokenTaken(s.tokens, Sha256(nonce))
    case _ => false
  }

  /** The three statements that revoke every token of a user. */
  predicate RevokesAll(s: Db, p: Process, u: UserId) {
    p == RefreshReplayed(u) || p == Ready(LogoutAll(u)) || (p.ResetPassed? && p.u == u)
  }

  lemma MassStatement(c: Config, s: Db, p: Process, u: UserId, other: Process)
    requires Fits(s, p) && RevokesAll(s, p, u)
    ensures var m := Exec(c, s, p);
      && AllRevoked(m.db.tokens, u) && |m.db.tokens| == |s.tokens| && !CanRotate(m.db, m.next, u)
      && (CanRotate(m.db, other, u) <==> CanRotate(s, other, u))
  {
    var s' := Exec(c, s, p).db;
    assert s'.now == s.now && (Deleted(s', u) <==> Deleted(s, u));
    assert s'.tokens == RevokeUser(s.tokens, u, s.now);
    forall h ensures TokenTaken(s'.tokens, h) <==> TokenTaken(s.tokens, h) {
      if TokenTaken(s.tokens, h) {
        var i :| 0 <= i < |s.tokens| && s.tokens[i].tokenHash == h;
        assert s'.tokens[i].tokenHash == h;
      }
    }
  }

  lemma ExecDeleted(c: Config, s: Db, p: Process, u: UserId)
    requires Fits(s, p)
    ensures Deleted(s, u) ==> Deleted(Exec(c, s, p).db, u)
  {
  }

  /** Past the lookup a refresh keeps its token, and what it can no longer do it never can again. */
  lemma ExecCanRotate(c: Config, s: Db, p: Process, u: UserId)
    requires Fits(s, p) && CanRotate(Exec(c, s, p).db, Exec(c, s, p).next, u)
    ensures if p.Ready? then Exec(c, s, p).next.i < |s.tokens| && s.tokens[Exec(c, s, p).next.i].revokedAt.None?
                             && s.tokens[Exec(c, s, p).next.i].userId == u
            else CanRotate(s, p, u) && p.i == Exec(c, s, p).next.i
  {
  }

  lemma CanRotateEarlier(s: Db, s': Db, p: Process, u: UserId)
    requires Later(s, s') && (Deleted(s, u) ==> Deleted(s', u)) && CanRotate(s', p, u)
    ensures CanRotate(s, p, u)
  {
    if TokenTaken(s.tokens, Sha256(p.nonce)) {
      var i :| 0 <= i < |s.tokens| && s.tokens[i].tokenHash == Sha256(p.nonce);
      OldRows(s, s', i);
    }
  }

  /** What is live of `u` hangs in chains from `n` on, and so does what can still be rotated. */
  predicate Barred(s: Sys, u: UserId, n: TokenId) {
    && n <= |s.db.tokens| && CutOff(s.db, u, n)
    && forall q | 0 <= q < |s.procs| && CanRotate(s.db, s.procs[q], u) :: n <= s.procs[q].i
  }

  lemma ExecCutOff(c: Config, s: Db, p: Process, u: UserId, n: TokenId)
    requires Fits(s, p) && Sound(s) && n <= |s.tokens| && CutOff(s, u, n)
    requires CanRotate(s, p, u) ==> n <= p.i
    ensures CutOff(Exec(c, s, p).db, u, n)
  {
    var s' := Exec(c, s, p).db;
    ExecLater(c, s, p);
    ExecGrows(c, s, p);
    ExecParent(c, s, p);
    forall i | 0 <= i < |s'.tokens| && s'.tokens[i].userId == u
      ensures if i < n then s'.tokens[i].revokedAt.Some? else n <= s'.issues[i].chain
    {
      if i < |s.tokens| {
        OldRows(s, s', i);
      }
    }
  }

  lemma NextBarred(c: Config, s: Sys, a: Action, u: UserId, n: TokenId)
    requires SysInv(s) && Barred(s, u, n)
    ensures Barred(Next(c, s, a), u, n)
  {
    if a.Advance? && a.q < |s.procs| {
      var s', p := Next(c, s, a), s.procs[a.q];
      ExecLater(c, s.db, p);
      ExecDeleted(c, s.db, p, u);
      ExecCutOff(c, s.db, p, u, n);
      forall q | 0 <= q < |s'.procs| && CanRotate(s'.db, s'.procs[q], u) ensures n <= s'.procs[q].i {
        if q == a.q {
          ExecCanRotate(c, s.db, p, u);
        } else {
          CanRotateEarlier(s.db, s'.db, s.procs[q], u);
        }
      }
    }
  }

  lemma {:induction false} ScheduleBarred(c: Config, s: Sys, acts: seq<Action>, u: UserId, n: TokenId)
    requires SysInv(s) && Barred(s, u, n)
    ensures Barred(Schedule(c, s, acts), u, n)
    decreases |acts|
  {
    if |acts| > 0 {
      NextInv(c, s, acts[0]);
      NextBarred(c, s, acts[0], u, n);
      ScheduleBarred(c, Next(c, s, acts[0]), acts[1..], u, n);
    }
  }

  /** A rotation that reaches its commit puts a live token into the old chain. */
  lemma PassedSpoils(c: Config, s: Sys, q: nat, u: UserId, n: TokenId) returns (acts: seq<Action>)
    requires SysInv(s) && q < |s.procs| && s.procs[q].RefreshPassed? && CanRotate(s.db, s.procs[q], u)
    requires s.procs[q].i < n <= |s.db.tokens|
    ensures !CutOff(Schedule(c, s, acts).db, u, n)
  {
    acts := [Advance(q)];
    ScheduleFirst(c, s, Advance(q), []);
    assert [Advance(q)] + [] == [Advance(q)];
    var s', i := Next(c, s, Advance(q)).db, s.procs[q].i;
    assert AnchoredAt(s.db, i);
    assert s'.tokens[|s.db.tokens|].userId == u && s'.issues[|s.db.tokens|].chain == s.db.issues[i].chain;
  }

  lemma ReadingSpoils(c: Config, s: Sys, q: nat, u: UserId, n: TokenId) returns (acts: seq<Action>)
    requires SysInv(s) && q < |s.procs| && CanRotate(s.db, s.procs[q], u) && Usable(s.db.users, u)
    requires s.procs[q].i < n <= |s.db.tokens|
    ensures !CutOff(Schedule(c, s, acts).db, u, n)
    decreases if s.procs[q].RefreshRead? then 2 else if s.procs[q].RefreshLive? then 1 else 0
  {
    if s.procs[q].RefreshPassed? {
      acts := PassedSpoils(c, s, q, u, n);
    } else {
      NextInv(c, s, Advance(q));
      var rest := ReadingSpoils(c, Next(c, s, Advance(q)), q, u, n);
      acts := [Advance(q)] + rest;
      ScheduleFirst(c, s, Advance(q), rest);
    }
  }

  /** An administrator may reactivate the account first. */
  lemma CanRotateSpoils(c: Config, s: Sys, q: nat, u: UserId, n: TokenId) returns (acts: seq<Action>)
    requires SysInv(s) && q < |s.procs| && CanRotate(s.db, s.procs[q], u)
    requires s.procs[q].i < n <= |s.db.tokens|
    ensures !CutOff(Schedule(c, s, acts).db, u, n)
  {
    if s.procs[q].RefreshPassed? {
      acts := PassedSpoils(c, s, q, u, n);
    } else {
      var e, r := SetActive(u, true), |s.procs|;
      NextInv(c, s, Spawn(e));
      var s1 := Next(c, s, Spawn(e));
      NextInv(c, s1, Advance(r));
      var s2 := Next(c, s1, Advance(r));
      assert s2.db == Environment(s.db, e) && s2.procs[q] == s.procs[q];
      var rest := ReadingSpoils(c, s2, q, u, n);
      ScheduleFirst(c, s1, Advance(r), rest);
      ScheduleFirst(c, s, Spawn(e), [Advance(r)] + rest);
      acts := [Spawn(e)] + ([Advance(r)] + rest);
    }
  }

  /**
   * Exactly when the revocation of all tokens of `u` is final: under every schedule the
   * old tokens stay revoked and later live tokens hang in later chains, iff no refresh of
   * `u` in flight can still commit its rotation.
   */
  lemma MassRevocationFinalExactlyWhen(c: Config, s: Sys, u: UserId)
    requires SysInv(s) && AllRevoked(s.db.tokens, u)
    ensures (forall acts :: CutOff(Schedule(c, s, acts).db, u, |s.db.tokens|))
       <==> (forall q | 0 <= q < |s.procs| :: !CanRotate(s.db, s.procs[q], u))
  {
    var n := |s.db.tokens|;
    if forall q | 0 <= q < |s.procs| :: !CanRotate(s.db, s.procs[q], u) {
      forall acts: seq<Action> ensures CutOff(Schedule(c, s, acts).db, u, n) {
        ScheduleBarred(c, s, acts, u, n);
      }
    } else {
      var q :| 0 <= q < |s.procs| && CanRotate(s.db, s.procs[q], u);
      assert Fits(s.db, s.procs[q]);
      var acts := CanRotateSpoils(c, s, q, u, n);
    }
  }

  /**
   * A replay, a logout-all or a reset ends the sessions of `u` for good, iff at that
   * moment no other process is a refresh of `u` that can still commit its rotation.
   */
  lemma MassStatementFinalExactlyWhen(c: Config, s: Sys, q: nat, u: UserId)
    requires SysInv(s) && q < |s.procs| && RevokesAll(s.db, s.procs[q], u)
    ensures SysInv(Next(c, s, Advance(q)))
    ensures (forall acts :: CutOff(Schedule(c, Next(c, s, Advance(q)), acts).db, u, |s.db.tokens|))
       <==> (forall r | 0 <= r < |s.procs| && r != q :: !CanRotate(s.db, s.procs[r], u))
  {
    var s' := Next(c, s, Advance(q));
    NextInv(c, s, Advance(q));
    MassStatement(c, s.db, s.procs[q], u, s.procs[q]);
    MassRevocationFinalExactlyWhen(c, s', u);
    forall r | 0 <= r < |s.procs| && r != q
      ensures CanRotate(s'.db, s'.procs[r], u) <==> CanRotate(s.db, s.procs[r], u)
    {
      MassStatement(c, s.db, s.procs[q], u, s.procs[r]);
    }
  }

  /** The action is the commit of a login of `u`. */
  predicate LogsIn(s: Sys, a: Action, u: UserId) {
    && a.Advance? && a.q < |s.procs|
    && var p := s.procs[a.q];
      (p.LoginPassed? || p.GooglePassed?) && p.u == u && !TokenTaken(s.db.tokens, Sha256(p.nonce))
  }

  lemma NewRootIsLogin(c: Config, s: Sys, a: Action, r: TokenId)
    requires SysInv(s) && |s.db.tokens| <= r < |Next(c, s, a).db.tokens|
    requires Next(c, s, a).db.issues[r].parent.None?
    ensures |s.db.tokens| == r && LogsIn(s, a, Next(c, s, a).db.tokens[r].userId)
  {
    ExecGrows(c, s.db, s.procs[a.q]);
    ExecParent(c, s.db, s.procs[a.q]);
  }

  /** The action that issued a token of a schedule, if the token heads a chain: a login of its owner. */
  lemma {:induction false} IssuingAction(c: Config, s: Sys, acts: seq<Action>, r: TokenId, n: nat) returns (k: nat)
    requires SysInv(s) && n <= |acts| && |s.db.tokens| <= r < |Before(c, s, acts, n).db.tokens|
    requires Before(c, s, acts, n).db.issues[r].parent.None?
    ensures k < n && |Before(c, s, acts, k).db.tokens| == r
    ensures LogsIn(Before(c, s, acts, k), acts[k], Before(c, s, acts, n).db.tokens[r].userId)
    decreases n
  {
    assert n > 0;
    var before, after := Before(c, s, acts, n - 1), Before(c, s, acts, n);
    BeforeNext(c, s, acts, n - 1);
    NextInv(c, before, acts[n - 1]);
    if r < |before.db.tokens| {
      OldRows(before.db, after.db, r);
      k := IssuingAction(c, s, acts, r, n - 1);
    } else {
      k := n - 1;
      NewRootIsLogin(c, before, acts[k], r);
    }
  }

  /**
   * After a mass revocation that is final, every live token of the user hangs in a chain
   * that a login of the user started by an action of the schedule.
   */
  lemma LiveTokensComeFromLaterLogins(c: Config, s: Sys, acts: seq<Action>, u: UserId, j: TokenId)
    returns (k: nat)
    requires SysInv(s) && AllRevoked(s.db.tokens, u)
    requires forall q | 0 <= q < |s.procs| :: !CanRotate(s.db, s.procs[q], u)
    requires var s' := Schedule(c, s, acts).db;
      j < |s'.tokens| && s'.tokens[j].userId == u && s'.tokens[j].revokedAt.None?
    ensures k < |acts| && LogsIn(Before(c, s, acts, k), acts[k], u)
    ensures |s.db.tokens| <= |Before(c, s, acts, k).db.tokens| == Schedule(c, s, acts).db.issues[j].chain
  {
    var s' := Schedule(c, s, acts);
    ScheduleBarred(c, s, acts, u, |s.db.tokens|);
    assert AnchoredAt(s'.db, j);
    assert acts[..|acts|] == acts;
    k := IssuingAction(c, s, acts, s'.db.issues[j].chain, |acts|);
  }
}
