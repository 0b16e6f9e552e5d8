/** What every AuthService step keeps, and how a step may change the token table. */
module AuthInvariants {
  import opened Common
  import opened AuthTables
  import opened AuthSteps

  // ----- invariants -----

  predicate UniqueTokens(ts: seq<RefreshToken>) {
    forall i, j | 0 <= i < j < |ts| :: ts[i].tokenHash != ts[j].tokenHash
  }

  predicate UniqueResets(rs: seq<ResetToken>) {
    forall i, j | 0 <= i < j < |rs| :: rs[i].tokenHash != rs[j].tokenHash
  }

  predicate Owned(s: Db) {
    && (forall i | 0 <= i < |s.tokens| :: s.tokens[i].userId < |s.users|)
    && (forall i | 0 <= i < |s.resets| :: s.resets[i].userId < |s.users|)
  }

  /** Stored emails are lower-case and unique, non-null google ids are unique. */
  predicate Accounts(users: seq<User>) {
    && (forall i | 0 <= i < |users| :: IsLower(users[i].email))
    && (forall i, j | 0 <= i < j < |users| :: users[i].email != users[j].email)
    && (forall i, j | 0 <= i < j < |users| :: users[i].googleId.Some? ==> users[i].googleId != users[j].googleId)
  }

  /** Every token hangs in a chain that starts with a login token of the same user. */
  predicate Rooted(ts: seq<RefreshToken>, log: seq<Issue>)
    requires |ts| == |log|
  {
    forall i | 0 <= i < |ts| :: RootedAt(ts, log, i)
  }

  predicate RootedAt(ts: seq<RefreshToken>, log: seq<Issue>, i: TokenId)
    requires i < |ts| == |log|
  {
    var n := log[i];
    && n.chain <= i && log[n.chain].chain == n.chain && log[n.chain].depth == 0
    && ts[n.chain].userId == ts[i].userId
    && (n.depth == 0 <==> n.chain == i) && (n.depth == 0 <==> n.parent.None?)
    && (n.parent.Some? ==>
          && n.parent.value < i && log[n.parent.value].chain == n.chain
          && n.depth == log[n.parent.value].depth + 1)
  }

  /** In a chain every token but the newest is revoked, and depth grows with age. */
  predicate SingleTip(ts: seq<RefreshToken>, log: seq<Issue>)
    requires |ts| == |log|
  {
    forall i, j | 0 <= i < j < |ts| && log[i].chain == log[j].chain ::
      ts[i].revokedAt.Some? && log[i].depth < log[j].depth
  }

  predicate Timing(c: Config, s: Db) {
    forall i | 0 <= i < |s.tokens| :: TimingAt(c, s, i)
  }

  predicate TimingAt(c: Config, s: Db, i: TokenId)
    requires i < |s.tokens|
  {
    var n := s.issues[i];
    && n.at <= s.now && s.tokens[i].expiresAt == n.at + c.refreshTtlMs
    && (n.parent.Some? && n.parent.value < |s.tokens| ==>
          s.issues[n.parent.value].at <= n.at <= s.issues[n.parent.value].at + c.refreshTtlMs)
    && (n.chain < |s.tokens| ==> n.at <= s.issues[n.chain].at + Spans(n.depth, c.refreshTtlMs))
  }

  ghost predicate Inv(c: Config, s: Db) {
    && UniqueTokens(s.tokens) && UniqueResets(s.resets) && Owned(s) && Accounts(s.users)
    && Rooted(s.tokens, s.issues) && SingleTip(s.tokens, s.issues) && Timing(c, s)
  }

  // ----- how a step changes the token table -----

  /** Only `revokedAt` changed, and no revocation was taken back. */
  predicate Revokes(ts: seq<RefreshToken>, ts': seq<RefreshToken>) {
    && |ts'| == |ts|
    && forall i | 0 <= i < |ts| ::
         && ts'[i] == ts[i].(revokedAt := ts'[i].revokedAt)
         && (ts[i].revokedAt.Some? ==> ts'[i].revokedAt.Some?)
  }

  /** One live token was added for user `u`, with a hash no other row has. */
  predicate Adds(c: Config, s: Db, s': Db, u: UserId, n: Issue) {
    && |s'.tokens| == |s.tokens| + 1
    && s'.issues == s.issues + [n]
    && u < |s'.users|
    && var t := s'.tokens[|s.tokens|];
      t.userId == u && t.expiresAt == s.now + c.refreshTtlMs && t.revokedAt.None? && !TokenTaken(s.tokens, t.tokenHash)
  }

  predicate Starts(c: Config, s: Db, s': Db, u: UserId) {
    && Adds(c, s, s', u, Issue(|s.tokens|, 0, None, s.now))
    && s'.tokens[..|s.tokens|] == s.tokens
  }

  predicate Extends(c: Config, s: Db, s': Db, i: TokenId) {
    && i < |s.tokens|
    && s.tokens[i].revokedAt.None? && s.now <= s.tokens[i].expiresAt
    && Adds(c, s, s', s.tokens[i].userId, Issue(s.issues[i].chain, s.issues[i].depth + 1, Some(i), s.now))
    && s'.tokens[..|s.tokens|] == Revoke(s.tokens, i, s.now)
  }

  /** The one live token with this hash, owned by `u`, was revoked. */
  predicate Drops(s: Db, s': Db, h: Hash, u: UserId) {
    var i := FindToken(s.tokens, h);
    && i.Some? && s.tokens[i.value].userId == u && s.tokens[i.value].revokedAt.None?
    && s'.tokens == Revoke(s.tokens, i.value, s.now) && s'.issues == s.issues
  }

  /** The change of the token table that goes with each branch. */
  predicate TokenChange(c: Config, s: Db, e: Event, r: Result) {
    match r.out
    case LoggedIn(u) => e.Login? && Starts(c, s, r.db, u) && r.db.tokens[|s.tokens|].tokenHash == Sha256(e.nonce)
    case GoogleLoggedIn(u) =>
      e.GoogleLogin? && Starts(c, s, r.db, u) && r.db.tokens[|s.tokens|].tokenHash == Sha256(e.nonce)
    case Rotated(u) =>
      && e.Refresh? && |s.tokens| < |r.db.tokens| && r.db.tokens[|s.tokens|].tokenHash == Sha256(e.nonce)
      && var i := FindToken(s.tokens, Sha256(e.raw));
        i.Some? && s.tokens[i.value].userId == u && Extends(c, s, r.db, i.value)
    case LoggedOut(u) => e.Logout? && Drops(s, r.db, Sha256(e.raw), u)
    case Expired(u) => e.Refresh? && Drops(s, r.db, Sha256(e.raw), u)
    case ReuseDetected(u) => r.db.tokens == RevokeUser(s.tokens, u, s.now) && r.db.issues == s.issues
    case LoggedOutAll(u) => r.db.tokens == RevokeUser(s.tokens, u, s.now) && r.db.issues == s.issues
    case PasswordReset(u) => r.db.tokens == RevokeUser(s.tokens, u, s.now) && r.db.issues == s.issues
    case _ => r.db.tokens == s.tokens && r.db.issues == s.issues
  }

  lemma LoginTokens(c: Config, s: Db, e: Event)
    requires e.Login?
    ensures TokenChange(c, s, e, Step(c, s, e))
  {
  }

  lemma RefreshTokens(c: Config, s: Db, e: Event)
    requires e.Refresh?
    ensures TokenChange(c, s, e, Step(c, s, e))
  {
  }

  lemma GoogleTokens(c: Config, s: Db, e: Event)
    requires e.GoogleLogin?
    ensures TokenChange(c, s, e, Step(c, s, e))
  {
  }

  lemma StepTokens(c: Config, s: Db, e: Event)
    ensures TokenChange(c, s, e, Step(c, s, e))
  {
    if e.Login? {
      LoginTokens(c, s, e);
    } else if e.Refresh? {
      RefreshTokens(c, s, e);
    } else if e.GoogleLogin? {
      GoogleTokens(c, s, e);
    }
  }

  // ----- monotonicity -----

  /** Nothing is forgotten: rows keep their identity, revocations and uses are never taken back. */
  predicate Later(s: Db, s': Db) {
    && s.now <= s'.now
    && UsersLater(s.users, s'.users)
    && |s.tokens| <= |s'.tokens| && s.issues <= s'.issues
    && Revokes(s.tokens, s'.tokens[..|s.tokens|])
    && ResetsLater(s.resets, s'.resets)
  }

  predicate UsersLater(users: seq<User>, users': seq<User>) {
    && |users| <= |users'|
    && forall u | 0 <= u < |users| :: users'[u].email == users[u].email
  }

  predicate ResetsLater(rs: seq<ResetToken>, rs': seq<ResetToken>) {
    && |rs| <= |rs'|
    && forall i | 0 <= i < |rs| ::
         && rs'[i] == rs[i].(usedAt := rs'[i].usedAt)
         && (rs[i].usedAt.Some? ==> rs'[i].usedAt.Some?)
  }

  lemma LaterTransitive(s: Db, s': Db, s'': Db)
    requires Later(s, s') && Later(s', s'')
    ensures Later(s, s'')
  {
  }

  lemma GoogleUsersLater(c: Config, s: Db, e: Event)
    requires e.GoogleLogin?
    ensures UsersLater(s.users, Step(c, s, e).db.users)
  {
    var account := GoogleAccount(s, e.googleId, e.email, e.name, e.hint);
    assert account.Some? ==> UsersLater(s.users, account.value.0.users);
  }

  lemma StepUsersLater(c: Config, s: Db, e: Event)
    requires Owned(s)
    ensures UsersLater(s.users, Step(c, s, e).db.users)
  {
    if e.GoogleLogin? {
      GoogleUsersLater(c, s, e);
    }
  }

  lemma StepResetsLater(c: Config, s: Db, e: Event)
    requires Owned(s)
    ensures ResetsLater(s.resets, Step(c, s, e).db.resets)
    ensures s.now <= Step(c, s, e).db.now
  {
  }

  lemma StepLater(c: Config, s: Db, e: Event)
    requires Owned(s)
    ensures Later(s, Step(c, s, e).db)
  {
    var r := Step(c, s, e);
    StepTokens(c, s, e);
    StepUsersLater(c, s, e);
    StepResetsLater(c, s, e);
    TokenChangeRevokes(c, s, e, r);
  }

  lemma TokenChangeRevokes(c: Config, s: Db, e: Event, r: Result)
    requires TokenChange(c, s, e, r)
    ensures |s.tokens| <= |r.db.tokens| && s.issues <= r.db.issues && Revokes(s.tokens, r.db.tokens[..|s.tokens|])
  {
  }

  // ----- preservation -----

  lemma RevokesKeeps(c: Config, s: Db, s': Db)
    requires Inv(c, s) && Revokes(s.tokens, s'.tokens) && s'.issues == s.issues && s.now <= s'.now
    ensures UniqueTokens(s'.tokens) && Rooted(s'.tokens, s'.issues) && SingleTip(s'.tokens, s'.issues) && Timing(c, s')
  {
    forall i | 0 <= i < |s.tokens| ensures RootedAt(s'.tokens, s'.issues, i) && TimingAt(c, s', i) {
      assert RootedAt(s.tokens, s.issues, i) && TimingAt(c, s, i);
    }
  }

  /** A permitted addition: a chain of its own, or the successor of a live, unexpired token now revoked. */
  predicate Successor(s: Db, s': Db, u: UserId, n: Issue)
    requires |s.tokens| <= |s'.tokens|
  {
    || n == Issue(|s.tokens|, 0, None, s.now)
    || (&& n.parent.Some? && n.parent.value < |s.tokens|
        && var i := n.parent.value;
          && s.tokens[i].revokedAt.None? && s.now <= s.tokens[i].expiresAt && s.tokens[i].userId == u
          && s'.tokens[i].revokedAt.Some?
          && n == Issue(s.issues[i].chain, s.issues[i].depth + 1, Some(i), s.now))
  }

  predicate AddsSuccessor(c: Config, s: Db, s': Db, u: UserId, n: Issue) {
    && Adds(c, s, s', u, n) && s.now <= s'.now
    && Revokes(s.tokens, s'.tokens[..|s.tokens|])
    && Successor(s, s', u, n)
  }

  lemma OldRows(s: Db, s': Db, i: TokenId)
    requires i < |s.tokens| <= |s'.tokens| && Revokes(s.tokens, s'.tokens[..|s.tokens|]) && s.issues <= s'.issues
    ensures s'.tokens[i] == s.tokens[i].(revokedAt := s'.tokens[i].revokedAt)
    ensures s.tokens[i].revokedAt.Some? ==> s'.tokens[i].revokedAt.Some?
    ensures s'.issues[i] == s.issues[i]
  {
  }

  lemma AddsKeepsUnique(c: Config, s: Db, s': Db, u: UserId, n: Issue)
    requires UniqueTokens(s.tokens) && AddsSuccessor(c, s, s', u, n)
    ensures UniqueTokens(s'.tokens)
  {
  }

  lemma AddsKeepsRoots(c: Config, s: Db, s': Db, u: UserId, n: Issue)
    requires Rooted(s.tokens, s.issues) && AddsSuccessor(c, s, s', u, n)
    ensures Rooted(s'.tokens, s'.issues)
  {
    forall i | 0 <= i < |s'.tokens| ensures RootedAt(s'.tokens, s'.issues, i) {
      var j := if i < |s.tokens| then i else if n.parent.Some? then n.parent.value else 0;
      if j < |s.tokens| {
        assert RootedAt(s.tokens, s.issues, j);
        OldRows(s, s', j);
        OldRows(s, s', s.issues[j].chain);
      }
    }
  }

  lemma AddsKeepsTiming(c: Config, s: Db, s': Db, u: UserId, n: Issue)
    requires Rooted(s.tokens, s.issues) && Timing(c, s) && AddsSuccessor(c, s, s', u, n)
    ensures Timing(c, s')
  {
    forall i | 0 <= i < |s'.tokens| ensures TimingAt(c, s', i) {
      var j := if i < |s.tokens| then i else if n.parent.Some? then n.parent.value else 0;
      if j < |s.tokens| {
        assert RootedAt(s.tokens, s.issues, j) && TimingAt(c, s, j);
        OldRows(s, s', j);
        var ttl := c.refreshTtlMs;
        assert Spans(s.issues[j].depth + 1, ttl) == Spans(s.issues[j].depth, ttl) + ttl;
      }
    }
  }

  lemma AddsKeepsSingleTip(c: Config, s: Db, s': Db, u: UserId, n: Issue)
    requires Rooted(s.tokens, s.issues) && SingleTip(s.tokens, s.issues) && AddsSuccessor(c, s, s', u, n)
    ensures SingleTip(s'.tokens, s'.issues)
  {
    forall i, j | 0 <= i < j < |s'.tokens| && s'.issues[i].chain == s'.issues[j].chain
      ensures s'.tokens[i].revokedAt.Some? && s'.issues[i].depth < s'.issues[j].depth
    {
      OldRows(s, s', i);
      assert RootedAt(s.tokens, s.issues, i);
      if j < |s.tokens| {
        OldRows(s, s', j);
      } else {
        assert n.parent.Some?;
      }
    }
  }

  /** A new chain or a rotation of a live token keeps the chains single-tipped and on time. */
  lemma AddsKeeps(c: Config, s: Db, s': Db, u: UserId, n: Issue)
    requires Inv(c, s) && AddsSuccessor(c, s, s', u, n)
    ensures UniqueTokens(s'.tokens) && Rooted(s'.tokens, s'.issues) && SingleTip(s'.tokens, s'.issues) && Timing(c, s')
  {
    AddsKeepsUnique(c, s, s', u, n);
    AddsKeepsRoots(c, s, s', u, n);
    AddsKeepsTiming(c, s, s', u, n);
    AddsKeepsSingleTip(c, s, s', u, n);
  }

  /** Any table change of a permitted shape keeps the chains. */
  lemma ChangeKeeps(c: Config, s: Db, e: Event, r: Result)
    requires Inv(c, s) && TokenChange(c, s, e, r) && s.now <= r.db.now
    ensures UniqueTokens(r.db.tokens) && Rooted(r.db.tokens, r.db.issues)
    ensures SingleTip(r.db.tokens, r.db.issues) && Timing(c, r.db)
  {
    TokenChangeRevokes(c, s, e, r);
    match r.out
    case LoggedIn(u) => AddsKeeps(c, s, r.db, u, Issue(|s.tokens|, 0, None, s.now));
    case GoogleLoggedIn(u) => AddsKeeps(c, s, r.db, u, Issue(|s.tokens|, 0, None, s.now));
    case Rotated(u) => ExtendsKeeps(c, s, r.db, FindToken(s.tokens, Sha256(e.raw)).value);
    case _ => RevokesKeeps(c, s, r.db);
  }

  lemma ExtendsKeeps(c: Config, s: Db, s': Db, i: TokenId)
    requires Inv(c, s) && Extends(c, s, s', i) && s.now <= s'.now
    ensures UniqueTokens(s'.tokens) && Rooted(s'.tokens, s'.issues) && SingleTip(s'.tokens, s'.issues) && Timing(c, s')
  {
    assert s'.tokens[..|s.tokens|][i] == s'.tokens[i];
    AddsKeeps(c, s, s', s.tokens[i].userId, Issue(s.issues[i].chain, s.issues[i].depth + 1, Some(i), s.now));
  }

  predicate SameIdentities(users: seq<User>, users': seq<User>) {
    && |users'| == |users|
    && forall u | 0 <= u < |users| :: users'[u].email == users[u].email && users'[u].googleId == users[u].googleId
  }

  lemma GoogleAccounts(s: Db, googleId: string, email: string, name: Option<string>, hint: UserId)
    requires Accounts(s.users)
    ensures var account := GoogleAccount(s, googleId, email, name, hint);
      account.Some? ==>
        Accounts(account.value.0.users) && account.value.0.users[account.value.1].googleId == Some(googleId)
  {
  }

  lemma StepIdentities(c: Config, s: Db, e: Event)
    requires Owned(s) && !e.Register? && !e.GoogleLogin?
    ensures SameIdentities(s.users, Step(c, s, e).db.users)
  {
  }

  lemma AppendKeepsAccounts(users: seq<User>, user: User)
    requires Accounts(users) && IsLower(user.email) && !EmailTaken(users, user.email)
    requires user.googleId.Some? ==> !GoogleIdTaken(users, user.googleId.value)
    ensures Accounts(users + [user])
  {
  }

  lemma StepAccounts(c: Config, s: Db, e: Event)
    requires Owned(s) && Accounts(s.users)
    ensures Accounts(Step(c, s, e).db.users)
  {
    if e.Register? {
      ToLowerIsLower(e.email);
      if !EmailTaken(s.users, ToLower(e.email)) {
        AppendKeepsAccounts(s.users, NewUser(ToLower(e.email), e.name, Some(Bcrypt(e.password)), None));
      }
    } else if e.GoogleLogin? {
      GoogleAccounts(s, e.googleId, e.email, e.name, e.hint);
    } else {
      StepIdentities(c, s, e);
    }
  }

  lemma StepOwned(c: Config, s: Db, e: Event)
    requires Owned(s)
    ensures Owned(Step(c, s, e).db)
  {
    var s' := Step(c, s, e).db;
    StepLater(c, s, e);
    StepTokens(c, s, e);
    forall i | 0 <= i < |s.tokens| ensures s'.tokens[i].userId == s.tokens[i].userId {
      assert s'.tokens[..|s.tokens|][i] == s'.tokens[i];
    }
    StepResets(c, s, e);
  }

  /** The reset table grows by one unspent token of a known user, or not at all. */
  lemma StepResets(c: Config, s: Db, e: Event)
    requires Owned(s)
    ensures var r := Step(c, s, e);
      if r.out.ResetRequested? then
        && e.ForgotPassword? && r.out.u < |s.users|
        && !ResetTaken(s.resets, Sha256(e.nonce))
        && r.db.resets == s.resets + [ResetToken(Sha256(e.nonce), r.out.u, s.now + c.resetTtlMs, None)]
      else |r.db.resets| == |s.resets|
  {
  }

  lemma StepUniqueResets(c: Config, s: Db, e: Event)
    requires Owned(s) && UniqueResets(s.resets)
    ensures UniqueResets(Step(c, s, e).db.resets)
  {
  }

  /** Every step of every request keeps the whole invariant. */
  lemma StepInv(c: Config, s: Db, e: Event)
    requires Inv(c, s)
    ensures Inv(c, Step(c, s, e).db)
  {
    StepTokens(c, s, e);
    StepResetsLater(c, s, e);
    ChangeKeeps(c, s, e, Step(c, s, e));
    StepUniqueResets(c, s, e);
    StepOwned(c, s, e);
    StepAccounts(c, s, e);
  }
}
