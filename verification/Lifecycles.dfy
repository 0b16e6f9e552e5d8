/** What a legitimate user can count on: when logins succeed, how long sessions last, that resets work. */
module Lifecycles {
  import opened Common
  import opened AuthTables
  import opened AuthSteps
  import opened AuthInvariants
  import opened Sessions
  import opened Credentials
  import opened Requests

  // ----- passwords -----

  /**
   * Exactly when a password login succeeds for user `u`, and what it leaves: a zero
   * counter, no lock, the other rows as they were.
   */
  lemma LoginSucceedsExactlyWhen(c: Config, s: Db, e: Event, u: UserId)
    requires Inv(c, s) && e.Login?
    ensures Step(c, s, e).out == LoggedIn(u) <==>
      && Usable(s.users, u) && s.users[u].email == ToLower(e.email) && s.users[u].password == Some(Bcrypt(e.password))
      && Wait(s, u) == 0 && !TokenTaken(s.tokens, Sha256(e.nonce))
    ensures var s' := Step(c, s, e).db;
      Step(c, s, e).out == LoggedIn(u) ==>
        && Failures(s', u) == 0 && Wait(s', u) == 0 && |s'.users| == |s.users|
        && s'.users[u].password == s.users[u].password
        && forall v | 0 <= v < |s.users| && v != u :: s'.users[v] == s.users[v]
  {
    var found := FindByEmail(s.users, ToLower(e.email));
    if Usable(s.users, u) && s.users[u].email == ToLower(e.email) {
      assert found == Some(u);
    }
  }

  /** While registration is on, a new address can log in at once, however it is capitalised. */
  lemma RegisterThenLogin(c: Config, s: Db, e: Event, f: Event)
    requires Inv(c, s) && e.Register? && e.allowRegistration
    requires forall v | 0 <= v < |s.users| :: s.users[v].email != ToLower(e.email)
    requires f.Login? && ToLower(f.email) == ToLower(e.email) && f.password == e.password
    requires NewValue(s, f.nonce)
    ensures Step(c, Step(c, s, e).db, f).out == LoggedIn(|s.users|)
  {
    StepInv(c, s, e);
    RegisterCases(c, s, e);
    var s' := Step(c, s, e).db;
    forall i | 0 <= i < |s'.tokens| ensures !HoldsToken(s', i, f.nonce) {
      assert !HoldsToken(s, i, f.nonce);
    }
    LoginCases(c, s', f, |s.users|);
  }

  // ----- sessions -----

  /** The random value a successful issuing request hands to its caller. */
  function Issued(e: Event): Option<string> {
    match e
    case Login(_, _, _, nonce) => Some(nonce)
    case Refresh(_, _, nonce) => Some(nonce)
    case GoogleLogin(_, _, _, _, _, nonce, _) => Some(nonce)
    case _ => None
  }

  predicate Issues(o: Outcome, u: UserId) { o == LoggedIn(u) || o == GoogleLoggedIn(u) || o == Rotated(u) }

  predicate Presents(e: Event, raw: string) { (e.Refresh? && e.raw == raw) || (e.Logout? && e.raw == raw) }

  predicate HoldsLive(s: Db, i: TokenId, u: UserId, raw: string) {
    && i < |s.tokens| && s.tokens[i].userId == u && s.tokens[i].tokenHash == Sha256(raw) && s.tokens[i].revokedAt.None?
  }

  lemma StepKeepsLive(c: Config, s: Db, e: Event, i: TokenId, u: UserId, raw: string)
    requires HoldsLive(s, i, u, raw) && !Presents(e, raw) && !IsMassRevocation(Step(c, s, e).out, u)
    ensures HoldsLive(Step(c, s, e).db, i, u, raw)
  {
    var r := Step(c, s, e);
    StepTokens(c, s, e);
    TokenChangeKeepsLive(c, s, e, r, i, u, raw);
  }

  lemma TokenChangeKeepsLive(c: Config, s: Db, e: Event, r: Result, i: TokenId, u: UserId, raw: string)
    requires TokenChange(c, s, e, r) && HoldsLive(s, i, u, raw) && !Presents(e, raw) && !IsMassRevocation(r.out, u)
    ensures HoldsLive(r.db, i, u, raw)
  {
    if |r.db.tokens| > |s.tokens| {
      assert r.db.tokens[..|s.tokens|][i] == r.db.tokens[i];
    }
  }

  lemma {:induction false} RunKeepsLive(c: Config, s: Db, es: seq<Event>, i: TokenId, u: UserId, raw: string)
    requires HoldsLive(s, i, u, raw) && forall e | e in es :: !Presents(e, raw)
    requires CountOutcome(c, s, es, ReuseDetected(u)) == 0
    requires CountOutcome(c, s, es, LoggedOutAll(u)) == 0
    requires CountOutcome(c, s, es, PasswordReset(u)) == 0
    ensures HoldsLive(Run(c, s, es), i, u, raw)
    decreases |es|
  {
    if |es| > 0 {
      assert es[0] in es && forall e | e in es[1..] :: e in es;
      StepKeepsLive(c, s, es[0], i, u, raw);
      RunKeepsLive(c, Step(c, s, es[0]).db, es[1..], i, u, raw);
    }
  }

  /**
   * A session lasts: the token handed out by a login or a refresh is accepted any number of
   * steps later, as long as nobody presented it in between, its user's sessions were not
   * revoked as a whole, its lifetime has not passed and the account is still usable.
   */
  lemma SessionSurvives(c: Config, s: Db, e: Event, es: seq<Event>, f: Event, u: UserId)
    requires Inv(c, s) && Issues(Step(c, s, e).out, u) && f.Refresh? && Issued(e) == Some(f.raw)
    requires forall x | x in es :: !Presents(x, f.raw)
    requires var s1 := Step(c, s, e).db;
      && CountOutcome(c, s1, es, ReuseDetected(u)) == 0 && CountOutcome(c, s1, es, LoggedOutAll(u)) == 0
      && CountOutcome(c, s1, es, PasswordReset(u)) == 0
    requires var s2 := Run(c, Step(c, s, e).db, es);
      && s2.now <= s.now + c.refreshTtlMs && Usable(s2.users, u) && !TokenTaken(s2.tokens, Sha256(f.nonce))
    ensures Step(c, Run(c, Step(c, s, e).db, es), f).out == Rotated(u)
  {
    var s1, i := Step(c, s, e).db, |s.tokens|;
    var s2 := Run(c, s1, es);
    StepTokens(c, s, e);
    StepInv(c, s, e);
    RunInv(c, s1, es);
    OldRows(s1, s2, i);
    RunKeepsLive(c, s1, es, i, u, f.raw);
    FindUnique(s2.tokens, i);
  }

  /**
   * A logout ends its session: after a live token was logged out, whatever happens next, a
   * refresh that presents it issues nothing and is taken for a replay.
   */
  lemma LogoutEndsSession(c: Config, s: Db, e: Event, es: seq<Event>, f: Event, i: TokenId)
    requires Inv(c, s) && e.Logout? && HoldsToken(s, i, e.raw) && s.tokens[i].revokedAt.None?
    requires f.Refresh? && f.raw == e.raw
    ensures var s' := Run(c, Step(c, s, e).db, es);
      var r := Step(c, s', f);
      && r.out == ReuseDetected(s.tokens[i].userId) && |r.db.tokens| == |s'.tokens|
      && AllRevoked(r.db.tokens, s.tokens[i].userId)
  {
    var s1 := Step(c, s, e).db;
    LogoutEffect(c, s, e, i);
    StepInv(c, s, e);
    RunInv(c, s1, es);
    OldRows(s1, Run(c, s1, es), i);
    RefreshCases(c, Run(c, s1, es), f, i);
  }

  // ----- password reset -----

  predicate HoldsUnspent(s: Db, i: nat, raw: string) {
    i < |s.resets| && s.resets[i].tokenHash == Sha256(raw) && s.resets[i].usedAt.None?
  }

  lemma StepKeepsUnspent(c: Config, s: Db, e: Event, i: nat, raw: string)
    requires Owned(s) && HoldsUnspent(s, i, raw) && (e.ResetPassword? ==> e.raw != raw)
    ensures HoldsUnspent(Step(c, s, e).db, i, raw)
  {
  }

  lemma {:induction false} RunKeepsUnspent(c: Config, s: Db, es: seq<Event>, i: nat, raw: string)
    requires Inv(c, s) && HoldsUnspent(s, i, raw) && forall e | e in es :: e.ResetPassword? ==> e.raw != raw
    ensures HoldsUnspent(Run(c, s, es), i, raw)
    decreases |es|
  {
    if |es| > 0 {
      assert es[0] in es && forall e | e in es[1..] :: e in es;
      StepInv(c, s, es[0]);
      StepKeepsUnspent(c, s, es[0], i, raw);
      RunKeepsUnspent(c, Step(c, s, es[0]).db, es[1..], i, raw);
    }
  }

  /**
   * Forgot, reset, log in: the token an active account asked for, not presented in between,
   * works within its lifetime, and the new password then opens the account even if locked.
   */
  lemma ResetRoundTrip(c: Config, s: Db, e: Event, es: seq<Event>, f: Event, g: Event, u: UserId)
    requires Inv(c, s) && e.ForgotPassword? && MayRequest(s, u, e)
    requires f.ResetPassword? && f.raw == e.nonce && forall x | x in es :: x.ResetPassword? ==> x.raw != e.nonce
    requires var s2 := Run(c, Step(c, s, e).db, es); s2.now <= s.now + c.resetTtlMs && Usable(s2.users, u)
    requires g.Login? && g.password == f.password && ToLower(g.email) == ToLower(e.email)
    requires !TokenTaken(Run(c, Step(c, s, e).db, es).tokens, Sha256(g.nonce))
    ensures var r := Step(c, Run(c, Step(c, s, e).db, es), f);
      r.out == PasswordReset(u) && Step(c, r.db, g).out == LoggedIn(u)
  {
    var s1, i := Step(c, s, e).db, |s.resets|;
    var s2 := Run(c, s1, es);
    ForgotExactlyWhen(c, s, e, u);
    StepInv(c, s, e);
    RunInv(c, s1, es);
    RunKeepsUnspent(c, s1, es, i, e.nonce);
    var r := Step(c, s2, f);
    assert FindReset(s2.resets, Sha256(e.nonce)) == Some(i);
    assert r.out == PasswordReset(u);
    ResetOpensAccount(c, s2, f, g, u);
  }

  lemma ResetOpensAccount(c: Config, s: Db, f: Event, g: Event, u: UserId)
    requires Inv(c, s) && Step(c, s, f).out == PasswordReset(u) && Usable(s.users, u)
    requires f.ResetPassword? && g.Login? && g.password == f.password && ToLower(g.email) == s.users[u].email
    requires !TokenTaken(s.tokens, Sha256(g.nonce))
    ensures Step(c, Step(c, s, f).db, g).out == LoggedIn(u)
  {
    var s' := Step(c, s, f).db;
    StepInv(c, s, f);
    StepTokens(c, s, f);
    assert !TokenTaken(s'.tokens, Sha256(g.nonce));
    assert s'.users[u]
        == s.users[u].(password := Some(Bcrypt(f.password)), failedLoginAttempts := 0, lockedUntil := None);
    LoginSucceedsExactlyWhen(c, s', g, u);
  }
}
