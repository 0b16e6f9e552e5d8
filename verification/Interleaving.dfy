/**
 * AuthService requests in flight together: each request is a process that advances one
 * database statement at a time (a `$transaction` is one statement), acting on rows it
 * read earlier and that may have changed since.
 */
module Interleaving {
  import opened Common
  import opened AuthTables
  import opened AuthSteps
  import opened AuthInvariants

  /** Where a request stands: its next statement and what it has read so far. */
  datatype Process =
    | Ready(e: Event)
    | LoginRead(u: UserId, user: User, password: string, device: string, nonce: string)
    | LoginFailed(u: UserId)                      // before the atomic increment
    | LoginLocking(u: UserId)                     // between the increment and the lock
    | LoginPassed(u: UserId, device: string, nonce: string)
    | RefreshRead(i: TokenId, row: RefreshToken, device: string, nonce: string)
    | RefreshReplayed(u: UserId)                  // before the mass revocation
    | RefreshStale(i: TokenId, u: UserId)         // before revoking the expired token
    | RefreshLive(i: TokenId, u: UserId, device: string, nonce: string)
    | RefreshPassed(i: TokenId, u: UserId, device: string, nonce: string)
    | GoogleRead(found: Option<(UserId, User)>, googleId: string, email: string, name: Option<string>,
                 device: string, nonce: string)
    | GooglePassed(u: UserId, device: string, nonce: string)
    | ForgotPassed(u: UserId, nonce: string)
    | ResetRead(r: nat, reset: ResetToken, password: string)
    | ResetLive(r: nat, u: UserId, password: string)
    | ResetPassed(r: nat, u: UserId, password: string)
    | Done(out: Outcome)

  datatype Move = Move(db: Db, next: Process)

  /** The rows a process refers to exist and belong to the user it thinks they do. */
  predicate Fits(s: Db, p: Process) {
    match p
    case LoginRead(u, _, _, _, _) => u < |s.users|
    case LoginFailed(u) => u < |s.users|
    case LoginLocking(u) => u < |s.users|
    case LoginPassed(u, _, _) => u < |s.users|
    case RefreshRead(i, row, _, _) => i < |s.tokens| && s.tokens[i].userId == row.userId && row.userId < |s.users|
    case RefreshStale(i, u) => i < |s.tokens| && s.tokens[i].userId == u
    case RefreshLive(i, u, _, _) => i < |s.tokens| && s.tokens[i].userId == u < |s.users|
    case RefreshPassed(i, u, _, _) => i < |s.tokens| && s.tokens[i].userId == u < |s.users|
    case GoogleRead(found, _, _, _, _, _) => found.Some? ==> found.value.0 < |s.users|
    case GooglePassed(u, _, _) => u < |s.users|
    case ForgotPassed(u, _) => u < |s.users|
    case ResetRead(r, row, _) => r < |s.resets| && s.resets[r].userId == row.userId < |s.users|
    case ResetLive(r, u, _) => r < |s.resets| && s.resets[r].userId == u < |s.users|
    case ResetPassed(r, u, _) => r < |s.resets| && s.resets[r].userId == u < |s.users|
    case _ => true
  }

  /** The first statement of a request. */
  function Begin(c: Config, s: Db, e: Event): Move {
    match e
    case Register(email, name, password, allow) =>
      var r := RegisterStep(s, email, name, password, allow);
      Move(r.db, Done(r.out))
    case Login(email, password, device, nonce) =>
      Move(s, match FindByEmail(s.users, ToLower(email))
              case None => Done(NoSuchUser)
              case Some(u) => LoginRead(u, s.users[u], password, device, nonce))
    case Refresh(raw, device, nonce) =>
      Move(s, match FindToken(s.tokens, Sha256(raw))
              case None => Done(UnknownToken)
              case Some(i) =>
                if s.tokens[i].revokedAt.Some? then RefreshReplayed(s.tokens[i].userId)
                else RefreshRead(i, s.tokens[i], device, nonce))
    case Logout(raw) =>
      var r := LogoutStep(s, raw);
      Move(r.db, Done(r.out))
    case LogoutAll(u) => Move(s.(tokens := RevokeUser(s.tokens, u, s.now)), Done(LoggedOutAll(u)))
    case GoogleLogin(googleId, email, name, enabled, device, nonce, hint) =>
      if !enabled then Move(s, Done(GoogleDisabled))
      else
        Move(s, GoogleRead(match FindForGoogle(s.users, googleId, ToLower(email), hint)
                           case None => None
                           case Some(u) => Some((u, s.users[u])), googleId, email, name, device, nonce))
    case ForgotPassword(email, nonce) =>
      Move(s, match FindByEmail(s.users, ToLower(email))
              case None => Done(NoResetSent)
              case Some(u) => if s.users[u].isActive then ForgotPassed(u, nonce) else Done(NoResetSent))
    case ResetPassword(raw, password) =>
      Move(s, match FindReset(s.resets, Sha256(raw))
              case None => Done(ResetRefused)
              case Some(r) => ResetRead(r, s.resets[r], password))
    case _ => Move(Environment(s, e), Done(Happened))
  }

  predicate LinkedElsewhere(users: seq<User>, googleId: string, u: UserId) {
    exists v | 0 <= v < |users| :: v != u && users[v].googleId == Some(googleId)
  }

  /** Create the account, link it, or keep it as it was when read. */
  function GoogleWrite(s: Db, p: Process): Move
    requires p.GoogleRead? && Fits(s, p)
  {
    match p.found
    case None =>
      if EmailTaken(s.users, ToLower(p.email)) || GoogleIdTaken(s.users, p.googleId)
      then Move(s, Done(UniqueViolation))
      else Move(s.(users := s.users + [NewUser(ToLower(p.email), p.name, None, Some(p.googleId))]),
                GooglePassed(|s.users|, p.device, p.nonce))
    case Some((u, user)) =>
      var next := if user.isActive then GooglePassed(u, p.device, p.nonce) else Done(Deactivated(u));
      if user.googleId == Some(p.googleId) then Move(s, next)
      else if LinkedElsewhere(s.users, p.googleId, u) then Move(s, Done(UniqueViolation))
      else Move(s.(users := s.users[u := s.users[u].(googleId := Some(p.googleId))]), next)
  }

  /** One statement of a request, together with the checks that follow it. */
  function Exec(c: Config, s: Db, p: Process): Move
    requires Fits(s, p)
  {
    match p
    case Ready(e) => Begin(c, s, e)
    case LoginRead(u, user, password, device, nonce) =>
      Move(s, if !user.isActive then Done(Deactivated(u))
              else if user.lockedUntil.Some? && user.lockedUntil.value > s.now then Done(Locked(u))
              else if user.password != Some(Bcrypt(password)) then LoginFailed(u)
              else LoginPassed(u, device, nonce))
    case LoginFailed(u) =>
      var n := s.users[u].failedLoginAttempts + 1;
      Move(s.(users := s.users[u := s.users[u].(failedLoginAttempts := n)]),
           if n >= c.maxFailedAttempts then LoginLocking(u) else Done(WrongPassword(u)))
    case LoginLocking(u) =>
      Move(s.(users := s.users[u := s.users[u].(lockedUntil := Some(s.now + c.lockDurationMs))]),
           Done(WrongPassword(u)))
    case LoginPassed(u, device, nonce) =>
      if TokenTaken(s.tokens, Sha256(nonce)) then Move(s, Done(UniqueViolation))
      else Move(StartChain(c, ClearFailures(s, u), u, device, nonce), Done(LoggedIn(u)))
    case RefreshRead(i, row, device, nonce) =>
      Move(s, if row.expiresAt < s.now then RefreshStale(i, row.userId) else RefreshLive(i, row.userId, device, nonce))
    case RefreshReplayed(u) => Move(s.(tokens := RevokeUser(s.tokens, u, s.now)), Done(ReuseDetected(u)))
    case RefreshStale(i, u) => Move(s.(tokens := Revoke(s.tokens, i, s.now)), Done(Expired(u)))
    case RefreshLive(i, u, device, nonce) =>
      Move(s, if Usable(s.users, u) then RefreshPassed(i, u, device, nonce) else Done(UserInvalid(u)))
    case RefreshPassed(i, u, device, nonce) =>
      if TokenTaken(s.tokens, Sha256(nonce)) then Move(s, Done(UniqueViolation))
      else Move(Rotate(c, s, i, u, device, nonce), Done(Rotated(u)))
    case GoogleRead(_, _, _, _, _, _) => GoogleWrite(s, p)
    case GooglePassed(u, device, nonce) =>
      if TokenTaken(s.tokens, Sha256(nonce)) then Move(s, Done(UniqueViolation))
      else Move(StartChain(c, s, u, device, nonce), Done(GoogleLoggedIn(u)))
    case ForgotPassed(u, nonce) =>
      if ResetTaken(s.resets, Sha256(nonce)) then Move(s, Done(UniqueViolation))
      else Move(s.(resets := s.resets + [ResetToken(Sha256(nonce), u, s.now + c.resetTtlMs, None)]),
                Done(ResetRequested(u)))
    case ResetRead(r, row, password) =>
      Move(s, if row.usedAt.Some? || row.expiresAt < s.now then Done(ResetRefused)
              else ResetLive(r, row.userId, password))
    case ResetLive(r, u, password) =>
      Move(s, if Usable(s.users, u) then ResetPassed(r, u, password) else Done(ResetRefused))
    case ResetPassed(r, u, password) => Move(ApplyReset(s, r, password), Done(PasswordReset(u)))
    case Done(_) => Move(s, p)
  }

  // ----- the system of all requests in flight -----

  /** A history of executed statements: who, from which point, to which point. */
  datatype Entry = Entry(q: nat, before: Process, after: Process)

  datatype Sys = Sys(db: Db, procs: seq<Process>, log: seq<Entry>)

  datatype Action = Spawn(e: Event) | Advance(q: nat)

  /** Every token with a parent is younger than it, of the same user, and the parent is revoked. */
  predicate Forest(s: Db) {
    forall j | 0 <= j < |s.tokens| && s.issues[j].parent.Some? :: ForestAt(s, j)
  }

  predicate ForestAt(s: Db, j: TokenId)
    requires j < |s.tokens| && s.issues[j].parent.Some?
  {
    var i := s.issues[j].parent.value;
    i < j && s.tokens[i].userId == s.tokens[j].userId && s.tokens[i].revokedAt.Some?
  }

  /** Every chain is named after its first token, which has no parent and belongs to the same user. */
  predicate Anchored(s: Db) { forall j | 0 <= j < |s.tokens| :: AnchoredAt(s, j) }

  predicate AnchoredAt(s: Db, j: TokenId)
    requires j < |s.tokens|
  {
    var r := s.issues[j].chain;
    && r <= j && s.issues[r].chain == r && s.issues[r].parent.None? && s.tokens[r].userId == s.tokens[j].userId
    && (s.issues[j].parent.None? <==> r == j)
  }

  predicate Sound(s: Db) {
    && Owned(s) && UniqueTokens(s.tokens) && UniqueResets(s.resets) && Accounts(s.users)
    && Forest(s) && Anchored(s)
  }

  predicate SysInv(s: Sys) {
    Sound(s.db) && forall q | 0 <= q < |s.procs| :: Fits(s.db, s.procs[q])
  }

  function Next(c: Config, s: Sys, a: Action): Sys
    requires SysInv(s)
  {
    match a
    case Spawn(e) => s.(procs := s.procs + [Ready(e)])
    case Advance(q) =>
      if q < |s.procs| then
        var m := Exec(c, s.db, s.procs[q]);
        Sys(m.db, s.procs[q := m.next], s.log + [Entry(q, s.procs[q], m.next)])
      else s
  }

  // ----- what every statement keeps -----

  /** A statement revokes tokens, or adds one live token: a root, or the child of a token now revoked. */
  predicate Grows(s: Db, s': Db) {
    || (Revokes(s.tokens, s'.tokens) && s'.issues == s.issues)
    || (&& |s'.tokens| == |s.tokens| + 1 && s'.issues[..|s.tokens|] == s.issues
        && Revokes(s.tokens, s'.tokens[..|s.tokens|])
        && var t, n := s'.tokens[|s.tokens|], s'.issues[|s.tokens|];
          && !TokenTaken(s.tokens, t.tokenHash) && t.userId < |s'.users|
          && (n.parent.None? ==> n.chain == |s.tokens|)
          && (n.parent.Some? ==>
                && n.parent.value < |s.tokens| && s'.tokens[n.parent.value].revokedAt.Some?
                && s.tokens[n.parent.value].userId == t.userId && n.chain == s.issues[n.parent.value].chain))
  }

  lemma BeginGrows(c: Config, s: Db, e: Event)
    ensures Grows(s, Begin(c, s, e).db)
  {
  }

  lemma StartGrows(c: Config, s: Db, u: UserId, device: string, nonce: string)
    requires u < |s.users| && !TokenTaken(s.tokens, Sha256(nonce))
    ensures Grows(s, StartChain(c, s, u, device, nonce))
  {
  }

  lemma RotateGrows(c: Config, s: Db, i: TokenId, u: UserId, device: string, nonce: string)
    requires i < |s.tokens| && s.tokens[i].userId == u < |s.users| && !TokenTaken(s.tokens, Sha256(nonce))
    ensures Grows(s, Rotate(c, s, i, u, device, nonce))
  {
  }

  lemma ExecGrows(c: Config, s: Db, p: Process)
    requires Fits(s, p)
    ensures Grows(s, Exec(c, s, p).db)
  {
    match p
    case Ready(e) => BeginGrows(c, s, e);
    case LoginPassed(u, device, nonce) =>
      if !TokenTaken(s.tokens, Sha256(nonce)) {
        StartGrows(c, ClearFailures(s, u), u, device, nonce);
      }
    case GooglePassed(u, device, nonce) =>
      if !TokenTaken(s.tokens, Sha256(nonce)) {
        StartGrows(c, s, u, device, nonce);
      }
    case RefreshPassed(i, u, device, nonce) =>
      if !TokenTaken(s.tokens, Sha256(nonce)) {
        RotateGrows(c, s, i, u, device, nonce);
      }
    case _ =>
  }

  lemma ExecRowsLater(c: Config, s: Db, p: Process)
    requires Fits(s, p)
    ensures UsersLater(s.users, Exec(c, s, p).db.users) && ResetsLater(s.resets, Exec(c, s, p).db.resets)
    ensures s.now <= Exec(c, s, p).db.now
  {
  }

  /** No statement forgets anything: in particular a revocation is never taken back. */
  lemma ExecLater(c: Config, s: Db, p: Process)
    requires Fits(s, p)
    ensures Later(s, Exec(c, s, p).db)
  {
    var s' := Exec(c, s, p).db;
    ExecGrows(c, s, p);
    ExecRowsLater(c, s, p);
    assert |s'.tokens| == |s.tokens| ==> s'.tokens[..|s.tokens|] == s'.tokens;
    assert |s'.tokens| == |s.tokens| + 1 ==> s'.issues == s'.issues[..|s.tokens|] + [s'.issues[|s.tokens|]];
  }

  lemma GrowsKeepsForest(s: Db, s': Db)
    requires Sound(s) && Grows(s, s') && |s.users| <= |s'.users|
    ensures UniqueTokens(s'.tokens) && Forest(s')
    ensures forall i | 0 <= i < |s'.tokens| :: s'.tokens[i].userId < |s'.users|
  {
  }

  lemma GrowsKeepsAnchors(s: Db, s': Db)
    requires Anchored(s) && Grows(s, s')
    ensures Anchored(s')
  {
    forall j | 0 <= j < |s'.tokens| ensures AnchoredAt(s', j) {
      var i := if j < |s.tokens| then j else if s'.issues[j].parent.Some? then s'.issues[j].parent.value else 0;
      if i < |s.tokens| {
        assert AnchoredAt(s, i);
        var r := s.issues[i].chain;
        assert s'.issues[..|s.tokens|][i] == s'.issues[i] && s'.issues[..|s.tokens|][r] == s'.issues[r];
        assert s'.tokens[..|s.tokens|][i] == s'.tokens[i] && s'.tokens[..|s.tokens|][r] == s'.tokens[r];
      }
    }
  }

  lemma ExecResets(c: Config, s: Db, p: Process)
    requires Fits(s, p) && Owned(s)
    ensures var s' := Exec(c, s, p).db;
      forall i | 0 <= i < |s'.resets| :: s'.resets[i].userId < |s'.users|
  {
  }

  lemma ExecUniqueResets(c: Config, s: Db, p: Process)
    requires Fits(s, p) && UniqueResets(s.resets)
    ensures UniqueResets(Exec(c, s, p).db.resets)
  {
  }

  lemma GoogleWriteAccounts(s: Db, p: Process)
    requires p.GoogleRead? && Fits(s, p) && Accounts(s.users)
    ensures Accounts(GoogleWrite(s, p).db.users)
  {
    if p.found.None? {
      ToLowerIsLower(p.email);
      if !EmailTaken(s.users, ToLower(p.email)) && !GoogleIdTaken(s.users, p.googleId) {
        AppendKeepsAccounts(s.users, NewUser(ToLower(p.email), p.name, None, Some(p.googleId)));
      }
    }
  }

  /** Each statement checks the unique columns it writes, so they hold however statements interleave. */
  lemma ExecAccounts(c: Config, s: Db, p: Process)
    requires Fits(s, p) && Owned(s) && Accounts(s.users)
    ensures Accounts(Exec(c, s, p).db.users)
  {
    if p.GoogleRead? {
      GoogleWriteAccounts(s, p);
    } else if p.Ready? && p.e.Register? {
      StepAccounts(c, s, p.e);
    } else {
      ExecIdentities(c, s, p);
    }
  }

  lemma ExecIdentities(c: Config, s: Db, p: Process)
    requires Fits(s, p) && !p.GoogleRead? && !(p.Ready? && p.e.Register?)
    ensures SameIdentities(s.users, Exec(c, s, p).db.users)
  {
  }

  lemma ExecSound(c: Config, s: Db, p: Process)
    requires Fits(s, p) && Sound(s)
    ensures Sound(Exec(c, s, p).db)
  {
    ExecGrows(c, s, p);
    ExecRowsLater(c, s, p);
    GrowsKeepsForest(s, Exec(c, s, p).db);
    GrowsKeepsAnchors(s, Exec(c, s, p).db);
    ExecResets(c, s, p);
    ExecUniqueResets(c, s, p);
    ExecAccounts(c, s, p);
  }

  lemma BeginFits(c: Config, s: Db, e: Event)
    requires Owned(s)
    ensures Fits(Begin(c, s, e).db, Begin(c, s, e).next)
  {
  }

  lemma ExecFits(c: Config, s: Db, p: Process)
    requires Fits(s, p) && Owned(s)
    ensures Fits(Exec(c, s, p).db, Exec(c, s, p).next)
  {
    match p
    case Ready(e) => BeginFits(c, s, e);
    case GoogleRead(_, _, _, _, _, _) => GoogleWriteFits(s, p);
    case _ =>
  }

  lemma GoogleWriteFits(s: Db, p: Process)
    requires p.GoogleRead? && Fits(s, p)
    ensures Fits(GoogleWrite(s, p).db, GoogleWrite(s, p).next)
  {
  }

  lemma FitsLater(s: Db, s': Db, p: Process)
    requires Fits(s, p) && Later(s, s')
    ensures Fits(s', p)
  {
  }

  lemma NextInv(c: Config, s: Sys, a: Action)
    requires SysInv(s)
    ensures SysInv(Next(c, s, a)) && Later(s.db, Next(c, s, a).db)
  {
    var s' := Next(c, s, a);
    if a.Advance? && a.q < |s.procs| {
      ExecSound(c, s.db, s.procs[a.q]);
      ExecFits(c, s.db, s.procs[a.q]);
      ExecLater(c, s.db, s.procs[a.q]);
      forall q | 0 <= q < |s'.procs| ensures Fits(s'.db, s'.procs[q]) {
        if q != a.q {
          FitsLater(s.db, s'.db, s.procs[q]);
        }
      }
    } else {
      assert s.db.tokens[..|s.db.tokens|] == s.db.tokens;
    }
  }

  /** The system after a schedule of actions. */
  function Schedule(c: Config, s: Sys, acts: seq<Action>): (r: Sys)
    requires SysInv(s)
    ensures SysInv(r)
    decreases |acts|
  {
    if |acts| == 0 then s
    else
      NextInv(c, s, acts[0]);
      Schedule(c, Next(c, s, acts[0]), acts[1..])
  }
}
