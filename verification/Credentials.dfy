/** Theorems about password resets, Google accounts and the login lockout over whole runs. */
module Credentials {
  import opened Common
  import opened AuthTables
  import opened AuthSteps
  import opened AuthInvariants
  import opened Sessions

  // ----- password reset -----

  /**
   * A successful reset spends an unused token before its expiry and leaves the new
   * password, a zero counter, no lock and no live session; no other user's rows change.
   */
  lemma ResetEffect(c: Config, s: Db, e: Event)
    requires Inv(c, s) && Step(c, s, e).out.PasswordReset?
    ensures e.ResetPassword? && ResetTaken(s.resets, Sha256(e.raw))
    ensures var s' := Step(c, s, e).db;
      var u := Step(c, s, e).out.u;
      var i := FindReset(s.resets, Sha256(e.raw)).value;
      && s.resets[i].userId == u && s.resets[i].usedAt.None? && s.now <= s.resets[i].expiresAt
      && s'.resets == s.resets[i := s.resets[i].(usedAt := Some(s.now))]
      && u < |s'.users| == |s.users| && s'.users[u].password == Some(Bcrypt(e.password))
      && s'.users[u].failedLoginAttempts == 0 && s'.users[u].lockedUntil.None?
      && Live(s'.tokens, u) == 0 && |s'.tokens| == |s.tokens|
      && (forall v | 0 <= v < |s.users| && v != u :: s'.users[v] == s.users[v])
      && (forall j | 0 <= j < |s.tokens| && s.tokens[j].userId != u :: s'.tokens[j] == s.tokens[j])
  {
    MassRevocation(c, s, e, Step(c, s, e).out.u);
  }

  /** The forgot-password step that created reset token `i`. */
  lemma {:induction false} RequestingStep(c: Config, s: Db, es: seq<Event>, i: nat, n: nat) returns (k: nat)
    requires Inv(c, s) && n <= |es| && |s.resets| <= i < |At(c, s, es, n).resets|
    ensures k < n && es[k].ForgotPassword?
    ensures var t := At(c, s, es, n).resets[i];
      && OutcomeAt(c, s, es, k) == ResetRequested(t.userId) && t.tokenHash == Sha256(es[k].nonce)
      && t.expiresAt == At(c, s, es, k).now + c.resetTtlMs
    decreases n
  {
    AtStart(c, s, es);
    var before := At(c, s, es, n - 1);
    RunNext(c, s, es, n - 1);
    AtInv(c, s, es, n - 1, n);
    StepResets(c, before, es[n - 1]);
    if i < |before.resets| {
      k := RequestingStep(c, s, es, i, n - 1);
    } else {
      k := n - 1;
    }
  }

  /** A successful reset leaves the presented token marked used. */
  lemma ResetMarks(c: Config, s: Db, e: Event) returns (i: nat)
    requires Inv(c, s) && Step(c, s, e).out.PasswordReset?
    ensures e.ResetPassword?
    ensures var resets := Step(c, s, e).db.resets;
      i < |resets| && resets[i].tokenHash == Sha256(e.raw) && resets[i].usedAt.Some?
  {
    ResetEffect(c, s, e);
    i := FindReset(s.resets, Sha256(e.raw)).value;
  }

  /** A token that is marked used resets nothing. */
  lemma UsedTokenRefused(c: Config, s: Db, e: Event, i: nat)
    requires Inv(c, s) && i < |s.resets| && s.resets[i].usedAt.Some? && Step(c, s, e).out.PasswordReset?
    ensures e.ResetPassword? && Sha256(e.raw) != s.resets[i].tokenHash
  {
    ResetEffect(c, s, e);
  }

  /** Two successful resets of one run never present the same token. */
  lemma ResetTokenUsedOnce(c: Config, s: Db, es: seq<Event>, i: nat, j: nat)
    requires Inv(c, s) && i < j < |es|
    requires OutcomeAt(c, s, es, i).PasswordReset? && OutcomeAt(c, s, es, j).PasswordReset?
    ensures es[i].ResetPassword? && es[j].ResetPassword? && es[i].raw != es[j].raw
  {
    var a, b := At(c, s, es, i), At(c, s, es, j);
    AtInv(c, s, es, i, i + 1);
    AtInv(c, s, es, i + 1, j);
    RunNext(c, s, es, i);
    var r := ResetMarks(c, a, es[i]);
    UsedTokenRefused(c, b, es[j], r);
  }

  /**
   * Successful resets map one-to-one into forgot-password requests of the same user, each
   * made earlier and no longer than the token lifetime before.
   */
  lemma ResetsMapOneToOne(c: Config, s: Db, es: seq<Event>, i: nat, j: nat) returns (ki: nat, kj: nat)
    requires Inv(c, s) && s.resets == [] && i < j < |es|
    requires OutcomeAt(c, s, es, i).PasswordReset? && OutcomeAt(c, s, es, j).PasswordReset?
    ensures ki < i && kj < j && ki != kj
    ensures es[i].ResetPassword? && es[ki].ForgotPassword? && es[ki].nonce == es[i].raw
    ensures es[j].ResetPassword? && es[kj].ForgotPassword? && es[kj].nonce == es[j].raw
    ensures OutcomeAt(c, s, es, ki) == ResetRequested(OutcomeAt(c, s, es, i).u)
    ensures OutcomeAt(c, s, es, kj) == ResetRequested(OutcomeAt(c, s, es, j).u)
    ensures At(c, s, es, ki).now <= At(c, s, es, i).now <= At(c, s, es, ki).now + c.resetTtlMs
    ensures At(c, s, es, kj).now <= At(c, s, es, j).now <= At(c, s, es, kj).now + c.resetTtlMs
  {
    ResetTokenUsedOnce(c, s, es, i, j);
    ki := ResetOrigin(c, s, es, i);
    kj := ResetOrigin(c, s, es, j);
  }

  lemma ResetOrigin(c: Config, s: Db, es: seq<Event>, i: nat) returns (k: nat)
    requires Inv(c, s) && s.resets == [] && i < |es| && OutcomeAt(c, s, es, i).PasswordReset?
    ensures k < i && es[i].ResetPassword? && es[k].ForgotPassword? && es[k].nonce == es[i].raw
    ensures OutcomeAt(c, s, es, k) == ResetRequested(OutcomeAt(c, s, es, i).u)
    ensures At(c, s, es, k).now <= At(c, s, es, i).now <= At(c, s, es, k).now + c.resetTtlMs
  {
    var a := At(c, s, es, i);
    AtInv(c, s, es, i, i);
    ResetEffect(c, a, es[i]);
    k := RequestingStep(c, s, es, FindReset(a.resets, Sha256(es[i].raw)).value, i);
    AtInv(c, s, es, k, i);
  }

  // ----- Google accounts -----

  /** Stored emails stay lower-case and unique and google ids unique, over any run. */
  lemma AccountsOverRuns(c: Config, s: Db, es: seq<Event>, u: UserId, v: UserId)
    requires Inv(c, s) && u < v < |Run(c, s, es).users|
    ensures var users := Run(c, s, es).users;
      && ToLower(users[u].email) == users[u].email && users[u].email != users[v].email
      && (users[u].googleId.Some? ==> users[u].googleId != users[v].googleId)
      && (u < |s.users| ==> users[u].email == s.users[u].email)
  {
    RunInv(c, s, es);
    ToLowerIsLower(Run(c, s, es).users[u].email);
  }

  /** The step gives the existing row `a` another google id. */
  predicate Relinks(c: Config, s: Db, e: Event, a: UserId) {
    && a < |s.users| && a < |Step(c, s, e).db.users|
    && Step(c, s, e).db.users[a].googleId != s.users[a].googleId
  }

  /** Exactly which requests relink a row: a Google login that picks it under a google id nobody has. */
  lemma RelinksExactlyWhen(c: Config, s: Db, e: Event, a: UserId)
    requires Inv(c, s) && a < |s.users|
    ensures Relinks(c, s, e, a)
       <==> e.GoogleLogin? && e.enabled && FindForGoogle(s.users, e.googleId, ToLower(e.email), e.hint) == Some(a)
            && !GoogleIdTaken(s.users, e.googleId)
  {
    if e.GoogleLogin? {
      var account := GoogleAccount(s, e.googleId, e.email, e.name, e.hint);
      assert e.enabled && account.Some? ==> Step(c, s, e).db.users == account.value.0.users;
    } else if e.Register? {
      assert |Step(c, s, e).db.users| >= |s.users|;
    } else {
      StepIdentities(c, s, e);
    }
  }

  predicate NeverRelinked(c: Config, s: Db, es: seq<Event>, a: UserId)
    decreases |es|
  {
    |es| == 0 || (!Relinks(c, s, es[0], a) && NeverRelinked(c, Step(c, s, es[0]).db, es[1..], a))
  }

  lemma {:induction false} RunKeepsLink(c: Config, s: Db, es: seq<Event>, a: UserId)
    requires Inv(c, s) && a < |s.users| && NeverRelinked(c, s, es, a)
    ensures a < |Run(c, s, es).users| && Run(c, s, es).users[a].googleId == s.users[a].googleId
    decreases |es|
  {
    if |es| > 0 {
      StepInv(c, s, es[0]);
      StepLater(c, s, es[0]);
      RunKeepsLink(c, Step(c, s, es[0]).db, es[1..], a);
    }
  }

  lemma GoogleLoginLinks(c: Config, s: Db, e: Event)
    requires Inv(c, s) && e.GoogleLogin? && Step(c, s, e).out.GoogleLoggedIn?
    ensures var r := Step(c, s, e);
      && r.out.u < |r.db.users| && r.db.users[r.out.u].googleId == Some(e.googleId) && r.db.users[r.out.u].isActive
      && (GoogleIdTaken(s.users, e.googleId) ==> r.out.u < |s.users| && s.users[r.out.u].googleId == Some(e.googleId))
  {
  }

  /**
   * Whichever matching row the lookup picks, two successful Google logins with the same
   * google id return the same account unless that account was relinked in between.
   */
  lemma SameGoogleAccount(c: Config, s: Db, e: Event, es: seq<Event>, e': Event)
    requires Inv(c, s) && e.GoogleLogin? && e'.GoogleLogin? && e'.googleId == e.googleId
    requires Step(c, s, e).out.GoogleLoggedIn?
    requires NeverRelinked(c, Step(c, s, e).db, es, Step(c, s, e).out.u)
    requires Step(c, Run(c, Step(c, s, e).db, es), e').out.GoogleLoggedIn?
    ensures Step(c, Run(c, Step(c, s, e).db, es), e').out.u == Step(c, s, e).out.u
  {
    var s1, a := Step(c, s, e).db, Step(c, s, e).out.u;
    var s2 := Run(c, s1, es);
    StepInv(c, s, e);
    GoogleLoginLinks(c, s, e);
    RunKeepsLink(c, s1, es, a);
    RunInv(c, s1, es);
    GoogleLoginLinks(c, s2, e');
  }

  /**
   * Password login and refresh never issue a token for a deactivated or soft-deleted row.
   * A Google login never does for a deactivated one, and it issues one for a soft-deleted
   * row only when its lookup picked the row by google id.
   */
  lemma WhoGetsTokens(c: Config, s: Db, e: Event)
    requires Inv(c, s)
    ensures var r := Step(c, s, e);
      && (r.out.LoggedIn? || r.out.Rotated? ==> r.out.u < |s.users| && Usable(s.users, r.out.u))
      && (r.out.GoogleLoggedIn? ==>
            && r.out.u < |r.db.users| && r.db.users[r.out.u].isActive
            && (r.db.users[r.out.u].deletedAt.Some? <==>
                  && e.GoogleLogin? && FindForGoogle(s.users, e.googleId, ToLower(e.email), e.hint) == Some(r.out.u)
                  && s.users[r.out.u].deletedAt.Some? && s.users[r.out.u].googleId == Some(e.googleId)))
  {
  }

  /**
   * Exactly when a request issues a token for a row that was soft-deleted before it: an
   * enabled Google login whose lookup picks the row, the row being active.
   */
  lemma DeletedRowGetsTokenExactlyWhen(c: Config, s: Db, e: Event, u: UserId)
    requires Inv(c, s) && u < |s.users| && s.users[u].deletedAt.Some?
    ensures var out := Step(c, s, e).out;
      out == LoggedIn(u) || out == Rotated(u) || out == GoogleLoggedIn(u)
      <==> e.GoogleLogin? && e.enabled && FindForGoogle(s.users, e.googleId, ToLower(e.email), e.hint) == Some(u)
           && s.users[u].isActive && !TokenTaken(s.tokens, Sha256(e.nonce))
  {
    WhoGetsTokens(c, s, e);
  }

  /** It does happen: a Google account that is soft-deleted logs in again with the same google id. */
  lemma DeletedAccountLogsIn(c: Config, now: Time, first: Event, second: Event)
    requires first.GoogleLogin? && first.enabled && second.GoogleLogin? && second.enabled
    requires second.googleId == first.googleId && second.nonce != first.nonce
    ensures var s := Tables(now, [], [], [], []);
      var deleted := Run(c, s, [first, SoftDelete(0)]);
      && |deleted.users| == 1 && deleted.users[0].deletedAt == Some(now)
      && Step(c, deleted, second).out == GoogleLoggedIn(0)
  {
    var s := Tables(now, [], [], [], []);
    var es := [first, SoftDelete(0)];
    var s1 := Step(c, s, first).db;
    assert s1.users == [NewUser(ToLower(first.email), first.name, None, Some(first.googleId))];
    assert Run(c, s, es) == Run(c, s1, es[1..]) == Step(c, s1, SoftDelete(0)).db;
  }

  // ----- lockout -----

  function Failures(s: Db, u: UserId): nat {
    if u < |s.users| then s.users[u].failedLoginAttempts else 0
  }

  /** How long until a password for `u` is compared again. */
  function Wait(s: Db, u: UserId): nat {
    if u < |s.users| && s.users[u].lockedUntil.Some? && s.users[u].lockedUntil.value > s.now
    then s.users[u].lockedUntil.value - s.now else 0
  }

  /** How many wrong passwords the account still takes before the one that locks it. */
  function Free(c: Config, s: Db, u: UserId): nat {
    if Failures(s, u) + 1 < c.maxFailedAttempts then c.maxFailedAttempts - 1 - Failures(s, u) else 0
  }

  /** Only a compared wrong password, a login or a reset touches the user's counter and lock. */
  predicate LockoutChange(c: Config, s: Db, r: Result, u: UserId) {
    && s.now <= r.db.now
    && (r.out == WrongPassword(u) ==>
          && Wait(s, u) == 0 && r.db.now == s.now && Failures(r.db, u) == Failures(s, u) + 1
          && Wait(r.db, u) == if Failures(r.db, u) >= c.maxFailedAttempts then c.lockDurationMs else 0)
    && (r.out != WrongPassword(u) && r.out != LoggedIn(u) && r.out != PasswordReset(u) ==>
          Failures(r.db, u) == Failures(s, u) && Wait(s, u) <= Wait(r.db, u) + (r.db.now - s.now))
  }

  predicate SameLockout(s: Db, s': Db, u: UserId) {
    && s'.now == s.now && |s.users| <= |s'.users|
    && (u < |s.users| ==> s'.users[u].failedLoginAttempts == s.users[u].failedLoginAttempts
                          && s'.users[u].lockedUntil == s.users[u].lockedUntil)
    && (|s.users| <= u < |s'.users| ==> s'.users[u].failedLoginAttempts == 0 && s'.users[u].lockedUntil.None?)
  }

  lemma LoginLockout(c: Config, s: Db, e: Event, u: UserId)
    requires e.Login?
    ensures LockoutChange(c, s, Step(c, s, e), u)
  {
    var found := FindByEmail(s.users, ToLower(e.email));
    if found.Some? && found.value != u {
      assert SameLockout(s, Step(c, s, e).db, u);
    }
  }

  lemma GoogleLockout(c: Config, s: Db, e: Event, u: UserId)
    requires e.GoogleLogin?
    ensures SameLockout(s, Step(c, s, e).db, u)
  {
    var account := GoogleAccount(s, e.googleId, e.email, e.name, e.hint);
    assert account.Some? ==> SameLockout(s, account.value.0, u);
  }

  lemma OtherLockout(c: Config, s: Db, e: Event, u: UserId)
    requires Owned(s) && !e.Login? && !e.Tick?
    ensures Step(c, s, e).out != PasswordReset(u) ==> SameLockout(s, Step(c, s, e).db, u)
  {
    if e.GoogleLogin? {
      GoogleLockout(c, s, e, u);
    }
  }

  lemma StepLockout(c: Config, s: Db, e: Event, u: UserId)
    requires Owned(s)
    ensures LockoutChange(c, s, Step(c, s, e), u)
  {
    if e.Login? {
      LoginLockout(c, s, e, u);
    } else if !e.Tick? {
      OtherLockout(c, s, e, u);
      assert Step(c, s, e).db.now == s.now && Step(c, s, e).out != WrongPassword(u);
    }
  }

  /** `k` more comparisons for `u` cannot be over before `end`: those beyond the free ones cost a lock each. */
  predicate TakesUntil(c: Config, s: Db, u: UserId, k: nat, end: Time) {
    && s.now <= end
    && (k > 0 ==>
          && Wait(s, u) + Spans(k - 1 - Free(c, s, u), c.lockDurationMs) <= end - s.now
          && Wait(s, u) <= end - s.now)
  }

  lemma GuessStep(c: Config, s: Db, r: Result, u: UserId, rest: nat, end: Time)
    requires LockoutChange(c, s, r, u) && r.out != LoggedIn(u) && r.out != PasswordReset(u)
    requires TakesUntil(c, r.db, u, rest, end)
    ensures TakesUntil(c, s, u, (if r.out == WrongPassword(u) then 1 else 0) + rest, end)
  {
    if r.out == WrongPassword(u) {
      var l, n := c.lockDurationMs, rest - Free(c, s, u);
      if rest == 0 {
        SpansMonotone(n, 0, l);
      } else {
        assert Spans(n, l) == Spans(n - 1, l) + l;
      }
    }
  }

  lemma {:induction false} GuessesTakeTime(c: Config, s: Db, es: seq<Event>, u: UserId)
    requires Owned(s)
    requires CountOutcome(c, s, es, LoggedIn(u)) == 0 && CountOutcome(c, s, es, PasswordReset(u)) == 0
    ensures TakesUntil(c, s, u, CountOutcome(c, s, es, WrongPassword(u)), Run(c, s, es).now)
    decreases |es|
  {
    if |es| > 0 {
      var r := Step(c, s, es[0]);
      StepOwned(c, s, es[0]);
      StepLockout(c, s, es[0], u);
      GuessesTakeTime(c, r.db, es[1..], u);
      GuessStep(c, s, r, u, CountOutcome(c, r.db, es[1..], WrongPassword(u)), Run(c, s, es).now);
    }
  }

  lemma TakesUntilBound(c: Config, s: Db, u: UserId, k: nat, end: Time)
    requires TakesUntil(c, s, u, k, end)
    ensures (k - c.maxFailedAttempts) * c.lockDurationMs <= end - s.now
  {
    SpansIsProduct(k - c.maxFailedAttempts, c.lockDurationMs);
    SpansMonotone(k - c.maxFailedAttempts, if k == 0 then 0 else k - 1 - Free(c, s, u), c.lockDurationMs);
  }

  /**
   * In any stretch of a run without a successful login or reset of `u`, k compared wrong
   * passwords take at least (k - maxFailedAttempts) lock durations.
   */
  lemma GuessRateBound(c: Config, s: Db, es: seq<Event>, u: UserId, k: nat, elapsed: int)
    requires Owned(s)
    requires CountOutcome(c, s, es, LoggedIn(u)) == 0 && CountOutcome(c, s, es, PasswordReset(u)) == 0
    requires k == CountOutcome(c, s, es, WrongPassword(u)) && elapsed == Run(c, s, es).now - s.now
    ensures (k - c.maxFailedAttempts) * c.lockDurationMs <= elapsed
  {
    assert TakesUntil(c, s, u, k, s.now + elapsed) by {
      GuessesTakeTime(c, s, es, u);
    }
    TakesUntilBound(c, s, u, k, s.now + elapsed);
  }
}
