/** Theorems about refresh tokens over whole runs of atomic requests. */
module Sessions {
  import opened Common
  import opened AuthTables
  import opened AuthSteps
  import opened AuthInvariants

  // ----- runs -----

  lemma EmptyTables(c: Config, now: Time)
    ensures Inv(c, Tables(now, [], [], [], []))
  {
  }

  /** Every reachable state satisfies the invariant, and nothing is forgotten on the way. */
  lemma {:induction false} RunInv(c: Config, s: Db, es: seq<Event>)
    requires Inv(c, s)
    ensures Inv(c, Run(c, s, es)) && Later(s, Run(c, s, es))
    decreases |es|
  {
    if |es| == 0 {
      assert s.tokens[..|s.tokens|] == s.tokens;
    } else {
      var s' := Step(c, s, es[0]).db;
      StepInv(c, s, es[0]);
      StepLater(c, s, es[0]);
      RunInv(c, s', es[1..]);
      LaterTransitive(s, s', Run(c, s', es[1..]));
    }
  }

  lemma {:induction false} RunSplit(c: Config, s: Db, es: seq<Event>, k: nat)
    requires k <= |es|
    ensures Run(c, s, es) == Run(c, At(c, s, es, k), es[k..])
    decreases k
  {
    if k == 0 {
      assert es[0..] == es;
    } else {
      assert es[..k][1..] == es[1..][..k - 1] && es[1..][k - 1..] == es[k..];
      RunSplit(c, Step(c, s, es[0]).db, es[1..], k - 1);
    }
  }

  lemma AtStart(c: Config, s: Db, es: seq<Event>)
    ensures At(c, s, es, 0) == s
  {
  }

  /** State `k + 1` of a run is step `k` applied to state `k`. */
  lemma RunNext(c: Config, s: Db, es: seq<Event>, k: nat)
    requires k < |es|
    ensures At(c, s, es, k + 1) == Step(c, At(c, s, es, k), es[k]).db
  {
    var prefix := es[..k + 1];
    RunSplit(c, s, prefix, k);
    assert prefix[..k] == es[..k] && prefix[k..] == [es[k]];
    assert [es[k]][1..] == [];
    assert Run(c, Step(c, At(c, s, es, k), es[k]).db, []) == Step(c, At(c, s, es, k), es[k]).db;
  }

  lemma AtInv(c: Config, s: Db, es: seq<Event>, j: nat, k: nat)
    requires Inv(c, s) && j <= k <= |es|
    ensures Inv(c, At(c, s, es, j)) && Inv(c, At(c, s, es, k)) && Later(At(c, s, es, j), At(c, s, es, k))
  {
    RunInv(c, s, es[..j]);
    RunSplit(c, s, es[..k], j);
    assert es[..k][..j] == es[..j];
    RunInv(c, At(c, s, es, j), es[..k][j..]);
  }

  /** How many steps of a run take the branch `o`. */
  function CountOutcome(c: Config, s: Db, es: seq<Event>, o: Outcome): nat
    decreases |es|
  {
    if |es| == 0 then 0
    else
      var r := Step(c, s, es[0]);
      (if r.out == o then 1 else 0) + CountOutcome(c, r.db, es[1..], o)
  }

  // ----- rotation chains -----

  /** In every reachable state an unrevoked token is the newest and deepest of its chain. */
  lemma OneLiveTipPerChain(c: Config, s: Db, es: seq<Event>, i: TokenId, j: TokenId)
    requires Inv(c, s)
    requires var s' := Run(c, s, es);
      i < |s'.tokens| && j < |s'.tokens| && s'.issues[i].chain == s'.issues[j].chain && s'.tokens[i].revokedAt.None?
    ensures var s' := Run(c, s, es);
      j <= i && s'.issues[j].depth <= s'.issues[i].depth && (j != i ==> s'.tokens[j].revokedAt.Some?)
  {
    RunInv(c, s, es);
  }

  /** A login starts a chain of its own; a refresh extends the tip of the presented token's chain by one. */
  lemma ChainsGrowByOne(c: Config, s: Db, e: Event)
    requires Inv(c, s)
    ensures var r := Step(c, s, e);
      var n := |s.tokens|;
      && (r.out.LoggedIn? || r.out.GoogleLoggedIn? ==>
            && |r.db.tokens| == n + 1 && r.db.tokens[n].userId == r.out.u && r.db.tokens[n].revokedAt.None?
            && r.db.issues[n].chain == n && r.db.issues[n].depth == 0
            && forall j | 0 <= j < n :: r.db.issues[j].chain != n)
      && (r.out.Rotated? ==>
            && e.Refresh? && TokenTaken(s.tokens, Sha256(e.raw)) && |r.db.tokens| == n + 1
            && var i := FindToken(s.tokens, Sha256(e.raw)).value;
              && r.db.tokens[i].revokedAt.Some? && r.db.tokens[n].revokedAt.None?
              && r.db.tokens[n].userId == s.tokens[i].userId == r.out.u
              && r.db.issues[n].chain == s.issues[i].chain && r.db.issues[n].depth == s.issues[i].depth + 1
              && forall j | 0 <= j < n && s.issues[j].chain == s.issues[i].chain ::
                   s.issues[j].depth <= s.issues[i].depth)
      && (!r.out.LoggedIn? && !r.out.GoogleLoggedIn? && !r.out.Rotated? ==> |r.db.tokens| == n)
  {
    var r := Step(c, s, e);
    StepTokens(c, s, e);
    forall j | 0 <= j < |s.tokens| ensures s.issues[j].chain < |s.tokens| {
      assert RootedAt(s.tokens, s.issues, j);
    }
    if r.out.Rotated? {
      var i := FindToken(s.tokens, Sha256(e.raw)).value;
      assert r.db.tokens[..|s.tokens|][i] == r.db.tokens[i];
    }
  }

  /**
   * Consecutive accepted refreshes of a chain are at most one lifetime apart, so a refresh
   * accepted after n earlier rotations comes no later than the login plus n + 1 lifetimes.
   */
  lemma ChainTiming(c: Config, s: Db, es: seq<Event>, e: Event, i: TokenId, root: TokenId, n: nat)
    requires Inv(c, s) && e.Refresh?
    requires Step(c, Run(c, s, es), e).out.Rotated?
    requires FindToken(Run(c, s, es).tokens, Sha256(e.raw)) == Some(i)
    requires Run(c, s, es).issues[i].chain == root && Run(c, s, es).issues[i].depth == n
    ensures var s' := Run(c, s, es);
      && s'.now - s'.issues[i].at <= c.refreshTtlMs
      && root < |s'.issues| && s'.now <= s'.issues[root].at + (n + 1) * c.refreshTtlMs
  {
    var s' := Run(c, s, es);
    RunInv(c, s, es);
    assert s'.now <= s'.tokens[i].expiresAt by {
      StepTokens(c, s', e);
    }
    TipTiming(c, s', i, root, n);
  }

  lemma TipTiming(c: Config, s: Db, i: TokenId, root: TokenId, n: nat)
    requires Rooted(s.tokens, s.issues) && Timing(c, s)
    requires i < |s.tokens| && s.now <= s.tokens[i].expiresAt && s.issues[i].chain == root && s.issues[i].depth == n
    ensures s.now - s.issues[i].at <= c.refreshTtlMs
    ensures root < |s.issues| && s.now <= s.issues[root].at + (n + 1) * c.refreshTtlMs
  {
    assert RootedAt(s.tokens, s.issues, i) && TimingAt(c, s, i);
    SpansIsProduct(n + 1, c.refreshTtlMs);
  }

  // ----- replay and mass revocation -----

  predicate AllRevoked(ts: seq<RefreshToken>, u: UserId) {
    forall i | 0 <= i < |ts| && ts[i].userId == u :: ts[i].revokedAt.Some?
  }

  lemma FindUnique(ts: seq<RefreshToken>, i: TokenId)
    requires UniqueTokens(ts) && i < |ts|
    ensures FindToken(ts, ts[i].tokenHash) == Some(i)
  {
  }

  /**
   * Once a token value has been accepted by a refresh, presenting it again at any later
   * point of the run issues nothing and ends every session of that user and of no other.
   */
  lemma ReuseEndsEverySession(c: Config, s: Db, e: Event, es: seq<Event>, e': Event)
    requires Inv(c, s) && e.Refresh? && e'.Refresh? && e'.raw == e.raw
    requires Step(c, s, e).out.Rotated?
    ensures var u := Step(c, s, e).out.u;
      var s' := Run(c, Step(c, s, e).db, es);
      var r := Step(c, s', e');
      && r.out == ReuseDetected(u) && |r.db.tokens| == |s'.tokens|
      && AllRevoked(r.db.tokens, u)
      && forall i | 0 <= i < |s'.tokens| && s'.tokens[i].userId != u :: r.db.tokens[i] == s'.tokens[i]
  {
    var s1 := Step(c, s, e).db;
    var s' := Run(c, s1, es);
    StepTokens(c, s, e);
    StepInv(c, s, e);
    RunInv(c, s1, es);
    var i := FindToken(s.tokens, Sha256(e.raw)).value;
    assert s1.tokens[..|s.tokens|][i] == s1.tokens[i];
    OldRows(s1, s', i);
    FindUnique(s'.tokens, i);
  }

  predicate IsMassRevocation(o: Outcome, u: UserId) {
    o == ReuseDetected(u) || o == LoggedOutAll(u) || o == PasswordReset(u)
  }

  /** Every row of a user other than `u`, in all three tables, is as it was. */
  predicate OthersKeep(s: Db, s': Db, u: UserId) {
    && |s'.users| == |s.users| && |s'.tokens| == |s.tokens| && |s'.resets| == |s.resets|
    && (forall v | 0 <= v < |s.users| && v != u :: s'.users[v] == s.users[v])
    && (forall i | 0 <= i < |s.tokens| && s.tokens[i].userId != u :: s'.tokens[i] == s.tokens[i])
    && (forall i | 0 <= i < |s.resets| && s.resets[i].userId != u :: s'.resets[i] == s.resets[i])
  }

  lemma MassRevocationRows(c: Config, s: Db, e: Event, u: UserId)
    requires IsMassRevocation(Step(c, s, e).out, u)
    ensures OthersKeep(s, Step(c, s, e).db, u)
  {
    StepTokens(c, s, e);
  }

  /** A replay, a logout-all or a reset leaves the user without a live token and others' rows alone. */
  lemma MassRevocation(c: Config, s: Db, e: Event, u: UserId)
    requires IsMassRevocation(Step(c, s, e).out, u)
    ensures var s' := Step(c, s, e).db;
      && AllRevoked(s'.tokens, u) && Live(s'.tokens, u) == 0
      && |s'.tokens| == |s.tokens| && OthersKeep(s, s', u)
  {
    MassRevocationRows(c, s, e, u);
    StepTokens(c, s, e);
    LiveZero(Step(c, s, e).db.tokens, u);
  }

  /** No live token of `u` is older than token `n`, nor hangs in a chain older than `n`. */
  predicate CutOff(s: Db, u: UserId, n: TokenId) {
    forall i | 0 <= i < |s.tokens| && s.tokens[i].userId == u ::
      if i < n then s.tokens[i].revokedAt.Some? else n <= s.issues[i].chain
  }

  lemma StepKeepsCutOff(c: Config, s: Db, e: Event, u: UserId, n: TokenId)
    requires Inv(c, s) && CutOff(s, u, n) && n <= |s.tokens|
    ensures CutOff(Step(c, s, e).db, u, n)
  {
    var r := Step(c, s, e);
    StepTokens(c, s, e);
    TokenChangeRevokes(c, s, e, r);
    forall i | 0 <= i < |s.tokens|
      ensures r.db.tokens[i] == s.tokens[i].(revokedAt := r.db.tokens[i].revokedAt)
      ensures s.tokens[i].revokedAt.Some? ==> r.db.tokens[i].revokedAt.Some?
      ensures r.db.issues[i] == s.issues[i]
    {
      OldRows(s, r.db, i);
    }
  }

  lemma {:induction false} RunKeepsCutOff(c: Config, s: Db, es: seq<Event>, u: UserId, n: TokenId)
    requires Inv(c, s) && CutOff(s, u, n) && n <= |s.tokens|
    ensures CutOff(Run(c, s, es), u, n)
    decreases |es|
  {
    if |es| > 0 {
      StepInv(c, s, es[0]);
      StepLater(c, s, es[0]);
      StepKeepsCutOff(c, s, es[0], u, n);
      RunKeepsCutOff(c, Step(c, s, es[0]).db, es[1..], u, n);
    }
  }

  /** The step that issued token `i`: a login of its owner, or a refresh for its owner. */
  lemma {:induction false} IssuingStep(c: Config, s: Db, es: seq<Event>, i: TokenId, n: nat) returns (k: nat)
    requires Inv(c, s) && n <= |es| && |s.tokens| <= i < |At(c, s, es, n).tokens|
    ensures k < n && |At(c, s, es, k).tokens| == i
    ensures var s' := At(c, s, es, n);
      var o := OutcomeAt(c, s, es, k);
      if s'.issues[i].depth == 0 then o == LoggedIn(s'.tokens[i].userId) || o == GoogleLoggedIn(s'.tokens[i].userId)
      else o == Rotated(s'.tokens[i].userId)
    decreases n
  {
    AtStart(c, s, es);
    var before, after := At(c, s, es, n - 1), At(c, s, es, n);
    RunNext(c, s, es, n - 1);
    AtInv(c, s, es, n - 1, n);
    if i < |before.tokens| {
      k := IssuingStep(c, s, es, i, n - 1);
      OldRows(before, after, i);
    } else {
      k := n - 1;
      ChainsGrowByOne(c, before, es[k]);
    }
  }

  /**
   * Mass revocation is final: after all tokens of `u` were revoked, whatever happens next,
   * every token of `u` from before stays revoked, and a refresh for `u` is accepted only in
   * a chain that a later login of `u` started.
   */
  lemma MassRevocationIsFinal(c: Config, s: Db, es: seq<Event>, e: Event, u: UserId) returns (k: nat)
    requires Inv(c, s) && AllRevoked(s.tokens, u)
    requires Step(c, Run(c, s, es), e).out == Rotated(u)
    ensures var s' := Run(c, s, es);
      && |s.tokens| <= |s'.tokens|
      && (forall i | 0 <= i < |s.tokens| && s.tokens[i].userId == u :: s'.tokens[i].revokedAt.Some?)
      && e.Refresh? && TokenTaken(s'.tokens, Sha256(e.raw))
      && var root := s'.issues[FindToken(s'.tokens, Sha256(e.raw)).value].chain;
        && |s.tokens| <= root
        && k < |es| && |At(c, s, es, k).tokens| == root
        && (OutcomeAt(c, s, es, k) == LoggedIn(u) || OutcomeAt(c, s, es, k) == GoogleLoggedIn(u))
  {
    var s' := Run(c, s, es);
    RunInv(c, s, es);
    RunKeepsCutOff(c, s, es, u, |s.tokens|);
    StepTokens(c, s', e);
    forall i | 0 <= i < |s.tokens| ensures s'.tokens[i].userId == s.tokens[i].userId {
      OldRows(s, s', i);
    }
    var i := FindToken(s'.tokens, Sha256(e.raw)).value;
    var root := s'.issues[i].chain;
    assert RootedAt(s'.tokens, s'.issues, i);
    assert es[..|es|] == es;
    k := IssuingStep(c, s, es, root, |es|);
  }

  // ----- session conservation -----

  function LiveBit(t: RefreshToken, u: UserId): nat {
    if t.userId == u && t.revokedAt.None? then 1 else 0
  }

  /** The number of unrevoked tokens of `u`. */
  function Live(ts: seq<RefreshToken>, u: UserId): nat {
    if |ts| == 0 then 0 else Live(ts[..|ts| - 1], u) + LiveBit(ts[|ts| - 1], u)
  }

  lemma {:induction false} LiveUpdate(ts: seq<RefreshToken>, i: TokenId, t: RefreshToken, u: UserId)
    requires i < |ts|
    ensures Live(ts[i := t], u) + LiveBit(ts[i], u) == Live(ts, u) + LiveBit(t, u)
  {
    var n := |ts| - 1;
    var ts' := ts[i := t];
    if i == n {
      assert ts'[..n] == ts[..n];
    } else {
      assert ts'[..n] == ts[..n][i := t];
      LiveUpdate(ts[..n], i, t, u);
    }
  }

  lemma {:induction false} LiveZero(ts: seq<RefreshToken>, u: UserId)
    ensures AllRevoked(ts, u) <==> Live(ts, u) == 0
  {
    if |ts| > 0 {
      LiveZero(ts[..|ts| - 1], u);
      assert forall i | 0 <= i < |ts| - 1 :: ts[..|ts| - 1][i] == ts[i];
      assert AllRevoked(ts, u) <==> AllRevoked(ts[..|ts| - 1], u) && LiveBit(ts[|ts| - 1], u) == 0;
    }
  }

  lemma {:induction false} LiveOfOthers(ts: seq<RefreshToken>, v: UserId, now: Time, u: UserId)
    requires u != v
    ensures Live(RevokeUser(ts, v, now), u) == Live(ts, u)
  {
    if |ts| > 0 {
      LiveOfOthers(ts[..|ts| - 1], v, now, u);
      assert RevokeUser(ts, v, now)[..|ts| - 1] == RevokeUser(ts[..|ts| - 1], v, now);
    }
  }

  function Is(o: Outcome, o': Outcome): nat { if o == o' then 1 else 0 }

  /** What one step does to the number of a user's live sessions. */
  lemma StepConserves(c: Config, s: Db, e: Event, u: UserId)
    requires !IsMassRevocation(Step(c, s, e).out, u)
    ensures var r := Step(c, s, e);
      Live(r.db.tokens, u) + Is(r.out, LoggedOut(u)) + Is(r.out, Expired(u))
      == Live(s.tokens, u) + Is(r.out, LoggedIn(u)) + Is(r.out, GoogleLoggedIn(u))
  {
    StepTokens(c, s, e);
    ChangeConserves(c, s, e, Step(c, s, e), u);
  }

  lemma ChangeConserves(c: Config, s: Db, e: Event, r: Result, u: UserId)
    requires TokenChange(c, s, e, r) && !IsMassRevocation(r.out, u)
    ensures Live(r.db.tokens, u) + Is(r.out, LoggedOut(u)) + Is(r.out, Expired(u))
         == Live(s.tokens, u) + Is(r.out, LoggedIn(u)) + Is(r.out, GoogleLoggedIn(u))
  {
    match r.out
    case LoggedIn(v) => AddConserves(s.tokens, r.db.tokens, u);
    case GoogleLoggedIn(v) => AddConserves(s.tokens, r.db.tokens, u);
    case Rotated(v) =>
      DropConserves(s, Sha256(e.raw), u);
      AddConserves(Revoke(s.tokens, FindToken(s.tokens, Sha256(e.raw)).value, s.now), r.db.tokens, u);
    case LoggedOut(v) => DropConserves(s, Sha256(e.raw), u);
    case Expired(v) => DropConserves(s, Sha256(e.raw), u);
    case ReuseDetected(v) => LiveOfOthers(s.tokens, v, s.now, u);
    case LoggedOutAll(v) => LiveOfOthers(s.tokens, v, s.now, u);
    case PasswordReset(v) => LiveOfOthers(s.tokens, v, s.now, u);
    case _ =>
  }

  lemma AddConserves(ts: seq<RefreshToken>, ts': seq<RefreshToken>, u: UserId)
    requires |ts'| == |ts| + 1 && ts'[..|ts|] == ts
    ensures Live(ts', u) == Live(ts, u) + LiveBit(ts'[|ts|], u)
  {
  }

  lemma DropConserves(s: Db, h: Hash, u: UserId)
    requires TokenTaken(s.tokens, h)
    ensures var i := FindToken(s.tokens, h).value;
      Live(Revoke(s.tokens, i, s.now), u) + LiveBit(s.tokens[i], u) == Live(s.tokens, u)
  {
    var i := FindToken(s.tokens, h).value;
    LiveUpdate(s.tokens, i, s.tokens[i].(revokedAt := Some(s.now)), u);
  }

  /**
   * Between mass revocations, live sessions = starting sessions + logins + Google logins
   * - effective logouts - expired-token revocations. Refreshes do not appear.
   */
  lemma {:induction false} SessionConservation(c: Config, s: Db, es: seq<Event>, u: UserId)
    requires CountOutcome(c, s, es, ReuseDetected(u)) == 0
    requires CountOutcome(c, s, es, LoggedOutAll(u)) == 0
    requires CountOutcome(c, s, es, PasswordReset(u)) == 0
    ensures Live(Run(c, s, es).tokens, u)
         == Live(s.tokens, u) + CountOutcome(c, s, es, LoggedIn(u)) + CountOutcome(c, s, es, GoogleLoggedIn(u))
          - CountOutcome(c, s, es, LoggedOut(u)) - CountOutcome(c, s, es, Expired(u))
    decreases |es|
  {
    if |es| > 0 {
      StepConserves(c, s, es[0], u);
      SessionConservation(c, Step(c, s, es[0]).db, es[1..], u);
    }
  }
}
