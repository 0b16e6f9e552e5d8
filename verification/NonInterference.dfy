/**
 * What happens to one user's rows in a mixed run is what would have happened had the
 * steps of the other users been left out.
 */
module NonInterference {
  import opened Common
  import opened AuthTables
  import opened AuthSteps
  import opened AuthInvariants
  import opened Sessions

  // ----- a user's rows -----

  function TokenRows(ts: seq<RefreshToken>, v: UserId): set<RefreshToken> {
    set t | t in ts && t.userId == v
  }

  function ResetRows(rs: seq<ResetToken>, v: UserId): set<ResetToken> {
    set t | t in rs && t.userId == v
  }

  /** The rows of user `v`, surrogate ids aside. */
  datatype View = View(user: Option<User>, tokens: set<RefreshToken>, resets: set<ResetToken>)

  function ViewOf(s: Db, v: UserId): View {
    View(if v < |s.users| then Some(s.users[v]) else None, TokenRows(s.tokens, v), ResetRows(s.resets, v))
  }

  /** The user whose rows a request works on; a request that resolves to nobody has none. */
  function Owner(s: Db, e: Event): Option<UserId> {
    match e
    case Login(email, _, _, _) => FindByEmail(s.users, ToLower(email))
    case ForgotPassword(email, _) => FindByEmail(s.users, ToLower(email))
    case Refresh(raw, _, _) => TokenOwner(s.tokens, raw)
    case Logout(raw) => TokenOwner(s.tokens, raw)
    case ResetPassword(raw, _) =>
      (match FindReset(s.resets, Sha256(raw)) case None => None case Some(i) => Some(s.resets[i].userId))
    case LogoutAll(u) => Some(u)
    case SetActive(u, _) => Some(u)
    case SoftDelete(u) => Some(u)
    case SetRole(u, _) => Some(u)
    case _ => None
  }

  function TokenOwner(ts: seq<RefreshToken>, raw: string): Option<UserId> {
    match FindToken(ts, Sha256(raw)) case None => None case Some(i) => Some(ts[i].userId)
  }

  predicate Concerns(s: Db, e: Event, v: UserId) { e.Tick? || Owner(s, e) == Some(v) }

  /** The random value of the request is not yet the value of a stored token. */
  predicate Unused(s: Db, e: Event) {
    match e
    case Login(_, _, _, nonce) => !TokenTaken(s.tokens, Sha256(nonce))
    case Refresh(_, _, nonce) => !TokenTaken(s.tokens, Sha256(nonce))
    case ForgotPassword(_, nonce) => !ResetTaken(s.resets, Sha256(nonce))
    case _ => true
  }

  /** A run of requests other than account creation and linking, with unused random values. */
  predicate Mixed(c: Config, s: Db, es: seq<Event>)
    decreases |es|
  {
    || |es| == 0
    || (!es[0].Register? && !es[0].GoogleLogin? && Unused(s, es[0]) && Mixed(c, Step(c, s, es[0]).db, es[1..]))
  }

  /** The steps of the run that concern `v`, each judged in the state it was taken in. */
  function Project(c: Config, s: Db, es: seq<Event>, v: UserId): seq<Event>
    decreases |es|
  {
    if |es| == 0 then []
    else (if Concerns(s, es[0], v) then [es[0]] else []) + Project(c, Step(c, s, es[0]).db, es[1..], v)
  }

  // ----- how the table operations change a user's rows -----

  lemma RowsAppend(ts: seq<RefreshToken>, t: RefreshToken, v: UserId)
    ensures TokenRows(ts + [t], v) == TokenRows(ts, v) + if t.userId == v then {t} else {}
  {
  }

  lemma RowsRevoke(ts: seq<RefreshToken>, i: TokenId, now: Time, v: UserId)
    requires UniqueTokens(ts) && i < |ts|
    ensures TokenRows(Revoke(ts, i, now), v)
          == if ts[i].userId == v then TokenRows(ts, v) - {ts[i]} + {ts[i].(revokedAt := Some(now))}
            else TokenRows(ts, v)
  {
    var t' := ts[i].(revokedAt := Some(now));
    var ts' := Revoke(ts, i, now);
    forall t: RefreshToken ensures t in ts' <==> t == t' || (t in ts && t != ts[i]) {
      if t in ts && t != ts[i] {
        var j :| 0 <= j < |ts| && ts[j] == t;
        assert ts'[j] == t;
      }
      assert ts'[i] == t';
    }
  }

  function Revoked(t: RefreshToken, now: Time): RefreshToken {
    if t.revokedAt.None? then t.(revokedAt := Some(now)) else t
  }

  lemma RowsRevokeUser(ts: seq<RefreshToken>, u: UserId, now: Time, v: UserId)
    ensures TokenRows(RevokeUser(ts, u, now), v)
         == if u == v then set t | t in TokenRows(ts, v) :: Revoked(t, now) else TokenRows(ts, v)
  {
    var ts' := RevokeUser(ts, u, now);
    forall t: RefreshToken | t in ts && t.userId == v ensures (if u == v then Revoked(t, now) else t) in ts' {
      var j :| 0 <= j < |ts| && ts[j] == t;
      assert ts'[j] == if u == v then Revoked(t, now) else t;
    }
  }

  lemma ResetRowsAppend(rs: seq<ResetToken>, t: ResetToken, v: UserId)
    ensures ResetRows(rs + [t], v) == ResetRows(rs, v) + if t.userId == v then {t} else {}
  {
  }

  lemma ResetRowsUse(rs: seq<ResetToken>, i: nat, now: Time, v: UserId)
    requires UniqueResets(rs) && i < |rs|
    ensures ResetRows(rs[i := rs[i].(usedAt := Some(now))], v)
         == if rs[i].userId == v then ResetRows(rs, v) - {rs[i]} + {rs[i].(usedAt := Some(now))} else ResetRows(rs, v)
  {
    var t' := rs[i].(usedAt := Some(now));
    var rs' := rs[i := t'];
    forall t: ResetToken ensures t in rs' <==> t == t' || (t in rs && t != rs[i]) {
      if t in rs && t != rs[i] {
        var j :| 0 <= j < |rs| && rs[j] == t;
        assert rs'[j] == t;
      }
      assert rs'[i] == t';
    }
  }

  // ----- two databases that agree on one user -----

  /** `b` agrees with `a` on `v`'s rows, and every hash `b` stores is one `a` stores. */
  ghost predicate Alike(a: Db, b: Db, v: UserId) {
    && a.now == b.now && ViewOf(a, v) == ViewOf(b, v)
    && (forall h :: TokenTaken(b.tokens, h) ==> TokenTaken(a.tokens, h))
    && (forall h :: ResetTaken(b.resets, h) ==> ResetTaken(a.resets, h))
  }

  lemma SameRow(a: seq<RefreshToken>, b: seq<RefreshToken>, i: TokenId, v: UserId)
    requires UniqueTokens(b) && i < |a| && a[i].userId == v && TokenRows(a, v) == TokenRows(b, v)
    ensures TokenTaken(b, a[i].tokenHash)
    ensures b[FindToken(b, a[i].tokenHash).value] == a[i]
  {
    assert a[i] in TokenRows(a, v);
    assert a[i] in b;
    var j :| 0 <= j < |b| && b[j] == a[i];
    FindUnique(b, j);
  }

  lemma SameResetRow(a: seq<ResetToken>, b: seq<ResetToken>, i: nat, v: UserId)
    requires UniqueResets(b) && i < |a| && a[i].userId == v && ResetRows(a, v) == ResetRows(b, v)
    ensures ResetTaken(b, a[i].tokenHash)
    ensures b[FindReset(b, a[i].tokenHash).value] == a[i]
  {
    assert a[i] in ResetRows(a, v);
    assert a[i] in b;
    var j :| 0 <= j < |b| && b[j] == a[i];
  }

  lemma SameEmail(a: Db, b: Db, email: string, v: UserId)
    requires Accounts(b.users) && ViewOf(a, v) == ViewOf(b, v) && FindByEmail(a.users, email) == Some(v)
    ensures FindByEmail(b.users, email) == Some(v)
  {
  }

  /** Both requests take the same branch and leave `v`'s rows the same. */
  ghost predicate InStep(c: Config, a: Db, b: Db, e: Event, v: UserId) {
    var ra, rb := Step(c, a, e), Step(c, b, e);
    ra.out == rb.out && Alike(ra.db, rb.db, v)
  }

  lemma LoginInStep(c: Config, a: Db, b: Db, e: Event, v: UserId)
    requires Inv(c, a) && Inv(c, b) && Alike(a, b, v) && Unused(a, e) && e.Login? && Owner(a, e) == Some(v)
    ensures InStep(c, a, b, e, v)
  {
    SameEmail(a, b, ToLower(e.email), v);
    assert b.users[v] == a.users[v];
    AppendAlike(a.tokens, b.tokens, NewToken(c, a.now, v, e.device, e.nonce), v);
  }

  lemma HashesAppend(ts: seq<RefreshToken>, t: RefreshToken)
    ensures forall h :: TokenTaken(ts + [t], h) <==> TokenTaken(ts, h) || h == t.tokenHash
  {
    forall h | TokenTaken(ts, h) || h == t.tokenHash ensures TokenTaken(ts + [t], h) {
      if TokenTaken(ts, h) {
        var i :| 0 <= i < |ts| && ts[i].tokenHash == h;
        assert (ts + [t])[i].tokenHash == h;
      } else {
        assert (ts + [t])[|ts|].tokenHash == h;
      }
    }
  }

  lemma HashesRevokes(ts: seq<RefreshToken>, ts': seq<RefreshToken>)
    requires Revokes(ts, ts')
    ensures forall h :: TokenTaken(ts', h) <==> TokenTaken(ts, h)
  {
  }

  lemma RefreshInStep(c: Config, a: Db, b: Db, e: Event, v: UserId)
    requires Inv(c, a) && Inv(c, b) && Alike(a, b, v) && Unused(a, e) && e.Refresh? && Owner(a, e) == Some(v)
    ensures InStep(c, a, b, e, v)
  {
    var i := FindToken(a.tokens, Sha256(e.raw)).value;
    SameRow(a.tokens, b.tokens, i, v);
    var j := FindToken(b.tokens, Sha256(e.raw)).value;
    assert v < |a.users| && b.users[v] == a.users[v];
    if a.tokens[i].revokedAt.Some? {
      RowsRevokeUser(a.tokens, v, a.now, v);
      RowsRevokeUser(b.tokens, v, a.now, v);
      HashesRevokes(a.tokens, RevokeUser(a.tokens, v, a.now));
      HashesRevokes(b.tokens, RevokeUser(b.tokens, v, a.now));
    } else {
      RevokeAlike(a, b, i, j, v);
      if a.tokens[i].expiresAt >= a.now {
        var t := NewToken(c, a.now, v, e.device, e.nonce);
        AppendAlike(Revoke(a.tokens, i, a.now), Revoke(b.tokens, j, a.now), t, v);
      }
    }
  }

  lemma RevokeAlike(a: Db, b: Db, i: TokenId, j: TokenId, v: UserId)
    requires UniqueTokens(a.tokens) && UniqueTokens(b.tokens) && Alike(a, b, v)
    requires i < |a.tokens| && j < |b.tokens| && a.tokens[i] == b.tokens[j] && a.tokens[i].userId == v
    ensures TokenRows(Revoke(a.tokens, i, a.now), v) == TokenRows(Revoke(b.tokens, j, a.now), v)
    ensures forall h :: TokenTaken(Revoke(a.tokens, i, a.now), h) <==> TokenTaken(a.tokens, h)
    ensures forall h :: TokenTaken(Revoke(b.tokens, j, a.now), h) <==> TokenTaken(b.tokens, h)
  {
    RowsRevoke(a.tokens, i, a.now, v);
    RowsRevoke(b.tokens, j, a.now, v);
    HashesRevokes(a.tokens, Revoke(a.tokens, i, a.now));
    HashesRevokes(b.tokens, Revoke(b.tokens, j, a.now));
  }

  lemma AppendAlike(a: seq<RefreshToken>, b: seq<RefreshToken>, t: RefreshToken, v: UserId)
    requires TokenRows(a, v) == TokenRows(b, v) && forall h :: TokenTaken(b, h) ==> TokenTaken(a, h)
    ensures TokenRows(a + [t], v) == TokenRows(b + [t], v)
    ensures forall h :: TokenTaken(b + [t], h) ==> TokenTaken(a + [t], h)
  {
    RowsAppend(a, t, v);
    RowsAppend(b, t, v);
    HashesAppend(a, t);
    HashesAppend(b, t);
  }

  lemma LogoutInStep(c: Config, a: Db, b: Db, e: Event, v: UserId)
    requires Inv(c, a) && Inv(c, b) && Alike(a, b, v) && (e.Logout? || e.LogoutAll?) && Owner(a, e) == Some(v)
    ensures InStep(c, a, b, e, v)
  {
    if e.Logout? {
      var i := FindToken(a.tokens, Sha256(e.raw)).value;
      SameRow(a.tokens, b.tokens, i, v);
      RevokeAlike(a, b, i, FindToken(b.tokens, Sha256(e.raw)).value, v);
    } else {
      RowsRevokeUser(a.tokens, v, a.now, v);
      RowsRevokeUser(b.tokens, v, a.now, v);
      HashesRevokes(a.tokens, RevokeUser(a.tokens, v, a.now));
      HashesRevokes(b.tokens, RevokeUser(b.tokens, v, a.now));
    }
  }

  lemma ForgotInStep(c: Config, a: Db, b: Db, e: Event, v: UserId)
    requires Inv(c, a) && Inv(c, b) && Alike(a, b, v) && Unused(a, e) && e.ForgotPassword? && Owner(a, e) == Some(v)
    ensures InStep(c, a, b, e, v)
  {
    SameEmail(a, b, ToLower(e.email), v);
    assert b.users[v] == a.users[v];
    var t := ResetToken(Sha256(e.nonce), v, a.now + c.resetTtlMs, None);
    ResetRowsAppend(a.resets, t, v);
    ResetRowsAppend(b.resets, t, v);
    forall h | ResetTaken(b.resets + [t], h) ensures ResetTaken(a.resets + [t], h) {
      if h == t.tokenHash {
        assert (a.resets + [t])[|a.resets|].tokenHash == h;
      } else {
        assert ResetTaken(a.resets, h);
        var i :| 0 <= i < |a.resets| && a.resets[i].tokenHash == h;
        assert (a.resets + [t])[i].tokenHash == h;
      }
    }
  }

  lemma ResetInStep(c: Config, a: Db, b: Db, e: Event, v: UserId)
    requires Inv(c, a) && Inv(c, b) && Alike(a, b, v) && e.ResetPassword? && Owner(a, e) == Some(v)
    ensures InStep(c, a, b, e, v)
  {
    var i := FindReset(a.resets, Sha256(e.raw)).value;
    SameResetRow(a.resets, b.resets, i, v);
    var j := FindReset(b.resets, Sha256(e.raw)).value;
    assert v < |a.users| && b.users[v] == a.users[v];
    ResetRowsUse(a.resets, i, a.now, v);
    ResetRowsUse(b.resets, j, a.now, v);
    RowsRevokeUser(a.tokens, v, a.now, v);
    RowsRevokeUser(b.tokens, v, a.now, v);
    HashesRevokes(a.tokens, RevokeUser(a.tokens, v, a.now));
    HashesRevokes(b.tokens, RevokeUser(b.tokens, v, a.now));
    ResetHashesUse(a.resets, i, a.now);
    ResetHashesUse(b.resets, j, a.now);
    var ra, rb := Step(c, a, e), Step(c, b, e);
    forall h | ResetTaken(rb.db.resets, h) ensures ResetTaken(ra.db.resets, h) {
      assert ResetTaken(b.resets, h) ==> ResetTaken(a.resets, h);
    }
  }

  lemma ResetHashesUse(rs: seq<ResetToken>, i: nat, now: Time)
    requires i < |rs|
    ensures forall h :: ResetTaken(rs[i := rs[i].(usedAt := Some(now))], h) <==> ResetTaken(rs, h)
  {
    var rs' := rs[i := rs[i].(usedAt := Some(now))];
    forall h | ResetTaken(rs, h) ensures ResetTaken(rs', h) {
      var j :| 0 <= j < |rs| && rs[j].tokenHash == h;
      assert rs'[j].tokenHash == h;
    }
  }

  lemma EnvironmentInStep(c: Config, a: Db, b: Db, e: Event, v: UserId)
    requires Alike(a, b, v) && Concerns(a, e, v) && (e.Tick? || e.SetActive? || e.SoftDelete? || e.SetRole?)
    ensures InStep(c, a, b, e, v)
  {
  }

  /** A step that concerns `v` does to `v` the same in both databases. */
  lemma OwnStep(c: Config, a: Db, b: Db, e: Event, v: UserId)
    requires Inv(c, a) && Inv(c, b) && Alike(a, b, v) && Unused(a, e) && Concerns(a, e, v)
    requires !e.Register? && !e.GoogleLogin?
    ensures InStep(c, a, b, e, v)
  {
    match e
    case Login(_, _, _, _) => LoginInStep(c, a, b, e, v);
    case Refresh(_, _, _) => RefreshInStep(c, a, b, e, v);
    case Logout(_) => LogoutInStep(c, a, b, e, v);
    case LogoutAll(_) => LogoutInStep(c, a, b, e, v);
    case ForgotPassword(_, _) => ForgotInStep(c, a, b, e, v);
    case ResetPassword(_, _) => ResetInStep(c, a, b, e, v);
    case _ => EnvironmentInStep(c, a, b, e, v);
  }

  /** A step that concerns somebody else leaves `v`'s rows alone. */
  lemma OtherStep(c: Config, s: Db, e: Event, v: UserId)
    requires Inv(c, s) && !Concerns(s, e, v) && !e.Register? && !e.GoogleLogin?
    ensures var s' := Step(c, s, e).db;
      && s'.now == s.now && ViewOf(s', v) == ViewOf(s, v)
      && (forall h :: TokenTaken(s.tokens, h) ==> TokenTaken(s'.tokens, h))
      && (forall h :: ResetTaken(s.resets, h) ==> ResetTaken(s'.resets, h))
  {
    var s' := Step(c, s, e).db;
    OtherUsers(c, s, e, v);
    OtherTokens(c, s, e, v);
    OtherResets(c, s, e, v);
  }

  lemma OtherUsers(c: Config, s: Db, e: Event, v: UserId)
    requires Inv(c, s) && !Concerns(s, e, v) && !e.Register? && !e.GoogleLogin?
    ensures var s' := Step(c, s, e).db;
      s'.now == s.now && |s'.users| == |s.users| && (v < |s.users| ==> s'.users[v] == s.users[v])
  {
  }

  lemma OtherTokens(c: Config, s: Db, e: Event, v: UserId)
    requires Inv(c, s) && !Concerns(s, e, v) && !e.Register? && !e.GoogleLogin?
    ensures var s' := Step(c, s, e).db;
      && TokenRows(s'.tokens, v) == TokenRows(s.tokens, v)
      && (forall h :: TokenTaken(s.tokens, h) ==> TokenTaken(s'.tokens, h))
  {
    var r := Step(c, s, e);
    StepTokens(c, s, e);
    OutcomeOwner(c, s, e);
    ChangeRows(c, s, e, r, v);
  }

  predicate TouchesTokens(o: Outcome) {
    o.LoggedIn? || o.Rotated? || o.LoggedOut? || o.Expired? || o.ReuseDetected? || o.LoggedOutAll? || o.PasswordReset?
  }

  lemma OutcomeOwner(c: Config, s: Db, e: Event)
    requires !e.Register? && !e.GoogleLogin?
    ensures var o := Step(c, s, e).out;
      !o.GoogleLoggedIn? && (TouchesTokens(o) ==> Owner(s, e) == Some(o.u))
  {
  }

  lemma ChangeRows(c: Config, s: Db, e: Event, r: Result, v: UserId)
    requires UniqueTokens(s.tokens) && TokenChange(c, s, e, r)
    requires !r.out.GoogleLoggedIn? && (TouchesTokens(r.out) ==> r.out.u != v)
    ensures TokenRows(r.db.tokens, v) == TokenRows(s.tokens, v)
    ensures forall h :: TokenTaken(s.tokens, h) ==> TokenTaken(r.db.tokens, h)
  {
    var n := |s.tokens|;
    match r.out
    case LoggedIn(u) =>
      assert r.db.tokens == s.tokens + [r.db.tokens[n]];
      RowsAppend(s.tokens, r.db.tokens[n], v);
      HashesAppend(s.tokens, r.db.tokens[n]);
    case Rotated(u) =>
      var i := FindToken(s.tokens, Sha256(e.raw)).value;
      var ts := Revoke(s.tokens, i, s.now);
      assert r.db.tokens == ts + [r.db.tokens[n]];
      RowsRevoke(s.tokens, i, s.now, v);
      HashesRevokes(s.tokens, ts);
      RowsAppend(ts, r.db.tokens[n], v);
      HashesAppend(ts, r.db.tokens[n]);
    case LoggedOut(u) =>
      RowsRevoke(s.tokens, FindToken(s.tokens, Sha256(e.raw)).value, s.now, v);
      HashesRevokes(s.tokens, r.db.tokens);
    case Expired(u) =>
      RowsRevoke(s.tokens, FindToken(s.tokens, Sha256(e.raw)).value, s.now, v);
      HashesRevokes(s.tokens, r.db.tokens);
    case ReuseDetected(u) =>
      RowsRevokeUser(s.tokens, u, s.now, v);
      HashesRevokes(s.tokens, r.db.tokens);
    case LoggedOutAll(u) =>
      RowsRevokeUser(s.tokens, u, s.now, v);
      HashesRevokes(s.tokens, r.db.tokens);
    case PasswordReset(u) =>
      RowsRevokeUser(s.tokens, u, s.now, v);
      HashesRevokes(s.tokens, r.db.tokens);
    case _ =>
  }

  lemma OtherResets(c: Config, s: Db, e: Event, v: UserId)
    requires Inv(c, s) && !Concerns(s, e, v) && !e.Register? && !e.GoogleLogin?
    ensures var s' := Step(c, s, e).db;
      && ResetRows(s'.resets, v) == ResetRows(s.resets, v)
      && (forall h :: ResetTaken(s.resets, h) ==> ResetTaken(s'.resets, h))
  {
    var s' := Step(c, s, e).db;
    if e.ForgotPassword? && Owner(s, e).Some? {
      var u := Owner(s, e).value;
      ResetRowsAppend(s.resets, ResetToken(Sha256(e.nonce), u, s.now + c.resetTtlMs, None), v);
      forall h | ResetTaken(s.resets, h) ensures ResetTaken(s'.resets, h) {
        var i :| 0 <= i < |s.resets| && s.resets[i].tokenHash == h;
        assert s'.resets[i].tokenHash == h;
      }
    } else if e.ResetPassword? && Owner(s, e).Some? {
      var i := FindReset(s.resets, Sha256(e.raw)).value;
      ResetRowsUse(s.resets, i, s.now, v);
      ResetHashesUse(s.resets, i, s.now);
    }
  }

  // ----- whole runs -----

  /** The outcomes of the steps of a run that concern `v`, and of all its steps. */
  function Answers(c: Config, s: Db, es: seq<Event>, v: UserId): seq<Outcome>
    decreases |es|
  {
    if |es| == 0 then []
    else
      var r := Step(c, s, es[0]);
      (if Concerns(s, es[0], v) then [r.out] else []) + Answers(c, r.db, es[1..], v)
  }

  function AllAnswers(c: Config, s: Db, es: seq<Event>): seq<Outcome>
    decreases |es|
  {
    if |es| == 0 then []
    else
      var r := Step(c, s, es[0]);
      [r.out] + AllAnswers(c, r.db, es[1..])
  }

  lemma {:induction false} RunsStayAlike(c: Config, a: Db, b: Db, es: seq<Event>, v: UserId)
    requires Inv(c, a) && Inv(c, b) && Alike(a, b, v) && Mixed(c, a, es)
    ensures Alike(Run(c, a, es), Run(c, b, Project(c, a, es, v)), v)
    ensures Answers(c, a, es, v) == AllAnswers(c, b, Project(c, a, es, v))
    decreases |es|
  {
    if |es| > 0 {
      var a' := Step(c, a, es[0]).db;
      var rest := Project(c, a', es[1..], v);
      StepInv(c, a, es[0]);
      if Concerns(a, es[0], v) {
        StepInv(c, b, es[0]);
        OwnStep(c, a, b, es[0], v);
        RunsStayAlike(c, a', Step(c, b, es[0]).db, es[1..], v);
        assert ([es[0]] + rest)[1..] == rest;
      } else {
        OtherStep(c, a, es[0], v);
        RunsStayAlike(c, a', b, es[1..], v);
        assert [] + rest == rest;
      }
    }
  }

  /**
   * `v`'s rows after a mixed run, and every answer given to `v` on the way, are those of
   * the same run without the others' steps.
   */
  lemma NonInterference(c: Config, s: Db, es: seq<Event>, v: UserId)
    requires Inv(c, s) && Mixed(c, s, es)
    ensures ViewOf(Run(c, s, es), v) == ViewOf(Run(c, s, Project(c, s, es, v)), v)
    ensures Run(c, s, es).now == Run(c, s, Project(c, s, es, v)).now
    ensures Answers(c, s, es, v) == AllAnswers(c, s, Project(c, s, es, v))
  {
    RunsStayAlike(c, s, s, es, v);
  }

  /** Whom a request resolves to depends on that user's rows only. */
  lemma OwnerStable(c: Config, a: Db, b: Db, e: Event, v: UserId)
    requires Inv(c, b) && ViewOf(a, v) == ViewOf(b, v) && Owner(a, e) == Some(v)
    ensures Owner(b, e) == Some(v)
  {
    match e
    case Login(email, _, _, _) => SameEmail(a, b, ToLower(email), v);
    case ForgotPassword(email, _) => SameEmail(a, b, ToLower(email), v);
    case Refresh(raw, _, _) => SameRow(a.tokens, b.tokens, FindToken(a.tokens, Sha256(raw)).value, v);
    case Logout(raw) => SameRow(a.tokens, b.tokens, FindToken(a.tokens, Sha256(raw)).value, v);
    case ResetPassword(raw, _) => SameResetRow(a.resets, b.resets, FindReset(a.resets, Sha256(raw)).value, v);
    case _ =>
  }

  /** Steps of different users commute: in either order every user's rows end up the same. */
  lemma StepsCommute(c: Config, s: Db, e: Event, f: Event, v: UserId)
    requires Inv(c, s) && Mixed(c, s, [e, f]) && Mixed(c, s, [f, e])
    requires Owner(s, e).Some? && Owner(s, f).Some? && Owner(s, e) != Owner(s, f)
    ensures ViewOf(Run(c, s, [e, f]), v) == ViewOf(Run(c, s, [f, e]), v)
  {
    NonInterference(c, s, [e, f], v);
    NonInterference(c, s, [f, e], v);
    ProjectPair(c, s, e, f, v);
    ProjectPair(c, s, f, e, v);
    KeepsOwner(c, s, e, f);
    KeepsOwner(c, s, f, e);
  }

  lemma KeepsOwner(c: Config, s: Db, e: Event, f: Event)
    requires Inv(c, s) && !e.Register? && !e.GoogleLogin?
    requires Owner(s, e).Some? && Owner(s, f).Some? && Owner(s, e) != Owner(s, f)
    ensures Owner(Step(c, s, e).db, f) == Owner(s, f)
  {
    var w := Owner(s, f).value;
    OtherStep(c, s, e, w);
    StepInv(c, s, e);
    OwnerStable(c, s, Step(c, s, e).db, f, w);
  }

  lemma ProjectPair(c: Config, s: Db, e: Event, f: Event, v: UserId)
    ensures Project(c, s, [e, f], v)
         == (if Concerns(s, e, v) then [e] else []) + if Concerns(Step(c, s, e).db, f, v) then [f] else []
  {
    var s' := Step(c, s, e).db;
    assert [e, f][1..] == [f] && [f][1..] == [];
    assert Project(c, s', [f], v) == (if Concerns(s', f, v) then [f] else []) + Project(c, Step(c, s', f).db, [], v);
  }
}
