/**
 * SettingsService: a read-through, write-through cache with a time to live over one
 * settings row that may be absent. Any Redis call may fail: a failed read looks like a
 * miss, a failed write may or may not have taken effect, and neither is reported.
 */
module Settings {
  import opened Common

  type Time = int    // milliseconds

  datatype AppSettings = AppSettings(allowRegistration: bool, enableGoogleLogin: bool)
  datatype UpdateDto = UpdateDto(allowRegistration: Option<bool>, enableGoogleLogin: Option<bool>)
  datatype Cached = Cached(value: AppSettings, expiresAt: Time)

  const FALLBACK_SETTINGS := AppSettings(true, true)
  const SETTINGS_CACHE_TTL_MS: int := 300 * 1_000

  function Or(b: Option<bool>, otherwise: bool): bool { if b.Some? then b.value else otherwise }

  /** `{ ...settings, ...dto }`. */
  function Overlay(settings: AppSettings, dto: UpdateDto): AppSettings {
    AppSettings(Or(dto.allowRegistration, settings.allowRegistration),
                Or(dto.enableGoogleLogin, settings.enableGoogleLogin))
  }

  function Effective(row: Option<AppSettings>): AppSettings {
    if row.Some? then row.value else FALLBACK_SETTINGS
  }

  // ----- atomic requests -----

  datatype Store = Store(now: Time, row: Option<AppSettings>, cache: Option<Cached>)

  datatype Op =
    | Get(readOk: bool, written: bool)
    | Update(dto: UpdateDto, written: bool)
    | Tick(ms: nat)
    | Edit(row: Option<AppSettings>)

  predicate Hits(s: Store, readOk: bool) { readOk && s.cache.Some? && s.now <= s.cache.value.expiresAt }

  function Put(s: Store, value: AppSettings, written: bool): Store {
    if written then s.(cache := Some(Cached(value, s.now + SETTINGS_CACHE_TTL_MS))) else s
  }

  /** The store after one operation. */
  function Do(s: Store, op: Op): Store {
    match op
    case Get(readOk, written) => if Hits(s, readOk) then s else Put(s, Effective(s.row), written)
    case Update(dto, written) =>
      var s' := s.(row := Some(Overlay(Effective(s.row), dto)));
      Put(s', s'.row.value, written)
    case Tick(ms) => s.(now := s.now + ms)
    case Edit(row) => s.(row := row)
  }

  /** What a request returns to its caller. */
  function Answer(s: Store, op: Op): AppSettings {
    match op
    case Get(readOk, _) => if Hits(s, readOk) then s.cache.value.value else Effective(s.row)
    case Update(dto, _) => Overlay(Effective(s.row), dto)
    case _ => Effective(s.row)
  }

  function Run(s: Store, ops: seq<Op>): Store {
    if |ops| == 0 then s else Do(Run(s, ops[..|ops| - 1]), ops[|ops| - 1])
  }

  /** The pure overlay: the partial updates of a run folded over the starting settings. */
  function Fold(start: AppSettings, ops: seq<Op>): AppSettings {
    if |ops| == 0 then start
    else
      var before := Fold(start, ops[..|ops| - 1]);
      var op := ops[|ops| - 1];
      if op.Update? then Overlay(before, op.dto) else before
  }

  predicate Coherent(s: Store) { s.cache.Some? ==> s.cache.value.value == Effective(s.row) }

  /** SettingsService with the row and the Redis entry it works on. */
  class SettingsService {
    var now: Time
    var row: Option<AppSettings>
    var cache: Option<Cached>

    constructor (now: Time, row: Option<AppSettings>)
      ensures State() == Store(now, row, None)
    {
      this.now, this.row, this.cache := now, row, None;
    }

    ghost function State(): Store
      reads this
    {
      Store(now, row, cache)
    }

    method ReadCache(readOk: bool) returns (cached: Option<AppSettings>)
      ensures cached == if Hits(State(), readOk) then Some(cache.value.value) else None
    {
      if readOk && cache.Some? && now <= cache.value.expiresAt {
        cached := Some(cache.value.value);
      } else {
        cached := None;
      }
    }

    method WriteCache(settings: AppSettings, written: bool)
      modifies this`cache
      ensures State() == Put(old(State()), settings, written)
    {
      if written {
        cache := Some(Cached(settings, now + SETTINGS_CACHE_TTL_MS));
      }
    }

    method GetSettings(readOk: bool, written: bool) returns (settings: AppSettings)
      modifies this`cache
      ensures State() == Do(old(State()), Get(readOk, written))
      ensures settings == Answer(old(State()), Get(readOk, written))
    {
      var cached := ReadCache(readOk);
      if cached.Some? {
        return cached.value;
      }
      settings := if row.Some? then row.value else FALLBACK_SETTINGS;
      WriteCache(settings, written);
    }

    method UpdateSettings(dto: UpdateDto, written: bool) returns (settings: AppSettings)
      modifies this`row, this`cache
      ensures State() == Do(old(State()), Update(dto, written))
      ensures settings == Answer(old(State()), Update(dto, written)) && row == Some(settings)
      ensures settings.allowRegistration
           == match dto.allowRegistration
              case Some(b) => b
              case None => if old(row).Some? then old(row).value.allowRegistration else true
      ensures settings.enableGoogleLogin
           == match dto.enableGoogleLogin
              case Some(b) => b
              case None => if old(row).Some? then old(row).value.enableGoogleLogin else true
    {
      if row.None? {
        row := Some(Overlay(FALLBACK_SETTINGS, dto));
      } else {
        row := Some(Overlay(row.value, dto));
      }
      settings := row.value;
      WriteCache(settings, written);
    }
  }

  /** Whatever fails, without direct edits the row is the fold of the updates so far. */
  lemma {:induction false} RowIsFold(s: Store, ops: seq<Op>)
    requires forall op | op in ops :: !op.Edit?
    ensures Effective(Run(s, ops).row) == Fold(Effective(s.row), ops)
  {
    if |ops| > 0 {
      RowIsFold(s, ops[..|ops| - 1]);
      assert ops[|ops| - 1] in ops;
    }
  }

  /** What one update answers and stores, field by field: the given value, or the one before, on by default. */
  lemma UpdateFields(s: Store, dto: UpdateDto, written: bool)
    ensures var answer := Answer(s, Update(dto, written));
      && Do(s, Update(dto, written)).row == Some(answer)
      && answer.allowRegistration
           == (match dto.allowRegistration
               case Some(b) => b
               case None => if s.row.Some? then s.row.value.allowRegistration else true)
      && answer.enableGoogleLogin
           == (match dto.enableGoogleLogin
               case Some(b) => b
               case None => if s.row.Some? then s.row.value.enableGoogleLogin else true)
  {
  }

  /** No update of the run from position `k` on names the field. */
  predicate LeavesRegistration(ops: seq<Op>, k: nat) {
    forall j | k <= j < |ops| && ops[j].Update? :: ops[j].dto.allowRegistration.None?
  }

  predicate LeavesGoogleLogin(ops: seq<Op>, k: nat) {
    forall j | k <= j < |ops| && ops[j].Update? :: ops[j].dto.enableGoogleLogin.None?
  }

  /** Last writer wins: `allowRegistration` is what the last update naming it gave, whatever Redis does. */
  lemma {:induction false} RegistrationIsLastGiven(s: Store, ops: seq<Op>, k: nat, b: bool)
    requires forall op | op in ops :: !op.Edit?
    requires k < |ops| && ops[k].Update? && ops[k].dto.allowRegistration == Some(b) && LeavesRegistration(ops, k + 1)
    ensures Run(s, ops).row.Some? && Run(s, ops).row.value.allowRegistration == b
  {
    var n := |ops| - 1;
    assert ops[n] in ops;
    if k < n {
      RegistrationIsLastGiven(s, ops[..n], k, b);
    }
  }

  /** A field no update names keeps its starting value; without a row that is `true`. */
  lemma {:induction false} RegistrationIsKept(s: Store, ops: seq<Op>)
    requires (forall op | op in ops :: !op.Edit?) && LeavesRegistration(ops, 0)
    ensures var row := Run(s, ops).row;
      if row.Some? then row.value.allowRegistration == if s.row.Some? then s.row.value.allowRegistration else true
      else s.row.None?
  {
    if |ops| > 0 {
      assert ops[|ops| - 1] in ops;
      RegistrationIsKept(s, ops[..|ops| - 1]);
    }
  }

  /** Last writer wins for `enableGoogleLogin` too. */
  lemma {:induction false} GoogleLoginIsLastGiven(s: Store, ops: seq<Op>, k: nat, b: bool)
    requires forall op | op in ops :: !op.Edit?
    requires k < |ops| && ops[k].Update? && ops[k].dto.enableGoogleLogin == Some(b) && LeavesGoogleLogin(ops, k + 1)
    ensures Run(s, ops).row.Some? && Run(s, ops).row.value.enableGoogleLogin == b
  {
    var n := |ops| - 1;
    assert ops[n] in ops;
    if k < n {
      GoogleLoginIsLastGiven(s, ops[..n], k, b);
    }
  }

  lemma {:induction false} GoogleLoginIsKept(s: Store, ops: seq<Op>)
    requires (forall op | op in ops :: !op.Edit?) && LeavesGoogleLogin(ops, 0)
    ensures var row := Run(s, ops).row;
      if row.Some? then row.value.enableGoogleLogin == if s.row.Some? then s.row.value.enableGoogleLogin else true
      else s.row.None?
  {
    if |ops| > 0 {
      assert ops[|ops| - 1] in ops;
      GoogleLoginIsKept(s, ops[..|ops| - 1]);
    }
  }

  /** A read answers the row when it misses, both fields on when there is no row. */
  lemma MissAnswersRow(s: Store, written: bool)
    ensures var answer := Answer(s, Get(false, written));
      && Do(s, Get(false, written)).row == s.row
      && (if s.row.Some? then answer == s.row.value else answer.allowRegistration && answer.enableGoogleLogin)
  {
  }

  // ----- how long an answer stays in the cache -----

  /** The operation writes its answer to the cache. */
  predicate Fills(s: Store, op: Op) {
    || (op.Update? && op.written)
    || (op.Get? && op.written && !(op.readOk && s.cache.Some? && s.now <= s.cache.value.expiresAt))
  }

  /** Only successful reads, edits and the clock. */
  predicate OnlyReads(ops: seq<Op>) {
    forall op | op in ops :: !op.Update? && (op.Get? ==> op.readOk)
  }

  lemma {:induction false} EntryLasts(s: Store, ops: seq<Op>)
    requires OnlyReads(ops) && s.cache.Some? && Run(s, ops).now <= s.cache.value.expiresAt
    ensures s.now <= Run(s, ops).now && Run(s, ops).cache == s.cache
  {
    if |ops| > 0 {
      var init, op := ops[..|ops| - 1], ops[|ops| - 1];
      assert op in ops && forall x | x in init :: x in ops;
      assert Run(s, init).now <= Run(s, ops).now;
      EntryLasts(s, init);
    }
  }

  /**
   * An answer written to the cache is what every read answers for the next 300 seconds,
   * whatever the row becomes; after that a read answers the row, if none came in between.
   */
  lemma AnswersForFiveMinutes(s: Store, op: Op, ops: seq<Op>, written: bool)
    requires Fills(s, op) && OnlyReads(ops)
    ensures var s' := Run(Do(s, op), ops);
      && (s'.now <= s.now + 300_000 ==> Answer(s', Get(true, written)) == Answer(s, op))
      && (s'.now > s.now + 300_000 && (forall x | x in ops :: !x.Get?) ==>
            Answer(s', Get(true, written)) == Effective(s'.row))
  {
    var s1 := Do(s, op);
    if Run(s1, ops).now <= s.now + 300_000 {
      EntryLasts(s1, ops);
    } else if forall x | x in ops :: !x.Get? {
      CacheUntouched(s1, ops);
    }
  }

  lemma {:induction false} CacheUntouched(s: Store, ops: seq<Op>)
    requires forall op | op in ops :: !op.Update? && !op.Get?
    ensures Run(s, ops).cache == s.cache
  {
    if |ops| > 0 {
      assert ops[|ops| - 1] in ops;
      CacheUntouched(s, ops[..|ops| - 1]);
    }
  }

  // ----- coherence -----

  predicate WritesThrough(op: Op) {
    match op
    case Get(_, written) => written
    case Update(_, written) => written
    case Tick(_) => true
    case Edit(_) => false
  }

  lemma {:induction false} StaysCoherent(s: Store, ops: seq<Op>)
    requires Coherent(s) && forall op | op in ops :: WritesThrough(op)
    ensures Coherent(Run(s, ops))
  {
    if |ops| > 0 {
      StaysCoherent(s, ops[..|ops| - 1]);
      assert ops[|ops| - 1] in ops;
    }
  }

  /**
   * With no failed cache write and no direct edit, every read and every update of a run
   * answers exactly the fold of the updates up to it, whether or not the cache hits.
   */
  lemma EveryAnswerIsFold(s: Store, ops: seq<Op>, k: nat)
    requires Coherent(s) && k < |ops| && forall op | op in ops :: WritesThrough(op)
    ensures Answer(Run(s, ops[..k]), ops[k]) == Fold(Effective(s.row), ops[..k + 1])
  {
    assert forall op | op in ops[..k] :: op in ops;
    assert ops[..k + 1][..k] == ops[..k] && ops[k] in ops;
    RowIsFold(s, ops[..k]);
    StaysCoherent(s, ops[..k]);
  }

  /** Exactly when an update leaves no stale cache entry behind. */
  lemma UpdateCoherentExactlyWhen(s: Store, dto: UpdateDto, written: bool)
    ensures Coherent(Do(s, Update(dto, written)))
       <==> written || s.cache.None? || s.cache.value.value == Overlay(Effective(s.row), dto)
  {
  }

  /** A failed cache write does let the next read serve the value from before the update. */
  lemma FailedWriteServesStale(s: Store, dto: UpdateDto)
    requires Hits(s, true) && Coherent(s) && Overlay(Effective(s.row), dto) != Effective(s.row)
    ensures var s' := Do(s, Update(dto, false));
      Answer(s', Get(true, true)) == Effective(s.row) && Answer(s', Get(true, true)) != Effective(s'.row)
  {
  }

  // ----- several processes, one statement at a time -----

  /** A value of the effective row and the moment it became so. */
  datatype Version = Version(value: AppSettings, since: Time)

  /** A request in flight; `seenAt` is the moment its answer was read from the row. */
  datatype Flight =
    | NeedsRow
    | Holding(value: AppSettings, seenAt: Time)
    | Returned(value: AppSettings, at: Time, seenAt: Time)

  /** The shared row and cache, the requests of all processes, and the history of the row. */
  datatype Shared = Shared(store: Store, cachedSeenAt: Time, flights: seq<Flight>, versions: seq<Version>)

  datatype Move =
    | StartGet(readOk: bool)           // the cache read
    | ReadRow(q: nat)                  // the database read after a miss
    | Upsert(dto: UpdateDto)           // the database write of an update
    | WriteBack(q: nat, written: bool) // the cache write, after which the request returns
    | Pass(ms: nat)
    | EditRow(row: Option<AppSettings>)

  function SetRow(s: Shared, row: Option<AppSettings>): Shared {
    s.(store := s.store.(row := row), versions := s.versions + [Version(Effective(row), s.store.now)])
  }

  function Next(s: Shared, m: Move): Shared {
    var now := s.store.now;
    match m
    case StartGet(readOk) =>
      var f := if Hits(s.store, readOk) then Returned(s.store.cache.value.value, now, s.cachedSeenAt) else NeedsRow;
      s.(flights := s.flights + [f])
    case ReadRow(q) =>
      if q < |s.flights| && s.flights[q].NeedsRow?
      then s.(flights := s.flights[q := Holding(Effective(s.store.row), now)]) else s
    case Upsert(dto) =>
      var s' := SetRow(s, Some(Overlay(Effective(s.store.row), dto)));
      s'.(flights := s.flights + [Holding(Effective(s'.store.row), now)])
    case WriteBack(q, written) =>
      if q < |s.flights| && s.flights[q].Holding? then
        var f := s.flights[q];
        s.(store := Put(s.store, f.value, written),
           cachedSeenAt := if written then f.seenAt else s.cachedSeenAt,
           flights := s.flights[q := Returned(f.value, now, f.seenAt)])
      else s
    case Pass(ms) => s.(store := s.store.(now := now + ms))
    case EditRow(row) => SetRow(s, row)
  }

  /** A read whose statements run without interruption is the atomic read. */
  lemma UninterruptedGet(s: Shared, readOk: bool, written: bool)
    ensures var n := |s.flights|;
      var s' := Next(Next(Next(s, StartGet(readOk)), ReadRow(n)), WriteBack(n, written));
      && s'.store == Do(s.store, Get(readOk, written))
      && |s'.flights| == n + 1 && s'.flights[n].Returned?
      && s'.flights[n].value == Answer(s.store, Get(readOk, written)) && s'.flights[n].at == s.store.now
  {
  }

  /** An update whose statements run without interruption is the atomic update. */
  lemma UninterruptedUpdate(s: Shared, dto: UpdateDto, written: bool)
    ensures var n := |s.flights|;
      var s' := Next(Next(s, Upsert(dto)), WriteBack(n, written));
      && s'.store == Do(s.store, Update(dto, written))
      && |s'.flights| == n + 1 && s'.flights[n].Returned?
      && s'.flights[n].value == Answer(s.store, Update(dto, written)) && s'.flights[n].at == s.store.now
  {
  }

  /** The cache write of a request comes at most `d` after its database statement. */
  predicate Prompt(s: Shared, m: Move, d: nat) {
    m.WriteBack? && m.q < |s.flights| && s.flights[m.q].Holding? ==> s.store.now - s.flights[m.q].seenAt <= d
  }

  function Schedule(s: Shared, ms: seq<Move>): Shared
    decreases |ms|
  {
    if |ms| == 0 then s else Schedule(Next(s, ms[0]), ms[1..])
  }

  predicate AllPrompt(s: Shared, ms: seq<Move>, d: nat)
    decreases |ms|
  {
    |ms| == 0 || (Prompt(s, ms[0], d) && AllPrompt(Next(s, ms[0]), ms[1..], d))
  }

  /** `value` was the effective row at moment `t`. */
  predicate WasEffective(vs: seq<Version>, value: AppSettings, t: Time) {
    exists i | 0 <= i < |vs| :: vs[i].value == value && vs[i].since <= t && (i + 1 < |vs| ==> t <= vs[i + 1].since)
  }

  predicate FlightOk(s: Shared, f: Flight, d: nat) {
    match f
    case NeedsRow => true
    case Holding(value, seenAt) => WasEffective(s.versions, value, seenAt) && seenAt <= s.store.now
    case Returned(value, at, seenAt) =>
      WasEffective(s.versions, value, seenAt) && at - SETTINGS_CACHE_TTL_MS - d <= seenAt <= at <= s.store.now
  }

  predicate CacheOk(s: Shared, d: nat) {
    s.store.cache.Some? ==>
      && WasEffective(s.versions, s.store.cache.value.value, s.cachedSeenAt)
      && s.store.cache.value.expiresAt - SETTINGS_CACHE_TTL_MS - d <= s.cachedSeenAt <= s.store.now
  }

  predicate SharedInv(s: Shared, d: nat) {
    && |s.versions| > 0 && s.versions[|s.versions| - 1].value == Effective(s.store.row)
    && (forall i | 0 <= i < |s.versions| :: s.versions[i].since <= s.store.now)
    && (forall q | 0 <= q < |s.flights| :: FlightOk(s, s.flights[q], d))
    && CacheOk(s, d)
  }

  lemma StaysEffective(vs: seq<Version>, v: Version, value: AppSettings, t: Time)
    requires WasEffective(vs, value, t) && t <= v.since
    ensures WasEffective(vs + [v], value, t)
  {
    var i :| 0 <= i < |vs| && vs[i].value == value && vs[i].since <= t && (i + 1 < |vs| ==> t <= vs[i + 1].since);
    var vs' := vs + [v];
    assert vs'[i] == vs[i] && (if i + 1 < |vs| then vs'[i + 1] == vs[i + 1] else vs'[i + 1] == v);
  }

  lemma NowEffective(s: Shared, d: nat)
    requires SharedInv(s, d)
    ensures WasEffective(s.versions, Effective(s.store.row), s.store.now)
  {
  }

  lemma SetRowKeeps(s: Shared, row: Option<AppSettings>, d: nat)
    requires SharedInv(s, d)
    ensures SharedInv(SetRow(s, row), d)
  {
    var s', v := SetRow(s, row), Version(Effective(row), s.store.now);
    forall q | 0 <= q < |s.flights| ensures FlightOk(s', s.flights[q], d) {
      assert FlightOk(s, s.flights[q], d);
      if !s.flights[q].NeedsRow? {
        StaysEffective(s.versions, v, s.flights[q].value, s.flights[q].seenAt);
      }
    }
    if s.store.cache.Some? {
      StaysEffective(s.versions, v, s.store.cache.value.value, s.cachedSeenAt);
    }
  }

  lemma NextKeeps(s: Shared, m: Move, d: nat)
    requires SharedInv(s, d) && Prompt(s, m, d)
    ensures SharedInv(Next(s, m), d)
  {
    var s' := Next(s, m);
    NowEffective(s, d);
    match m
    case Upsert(dto) =>
      var s1 := SetRow(s, Some(Overlay(Effective(s.store.row), dto)));
      SetRowKeeps(s, s1.store.row, d);
      NowEffective(s1, d);
      AddFlightKeeps(s1, s'.flights[|s.flights|], d);
    case EditRow(row) => SetRowKeeps(s, row, d);
    case StartGet(readOk) => AddFlightKeeps(s, s'.flights[|s.flights|], d);
    case _ =>
      forall q | 0 <= q < |s'.flights| ensures FlightOk(s', s'.flights[q], d) {
        assert FlightOk(s, s.flights[q], d);
      }
  }

  lemma AddFlightKeeps(s: Shared, f: Flight, d: nat)
    requires SharedInv(s, d) && FlightOk(s, f, d)
    ensures SharedInv(s.(flights := s.flights + [f]), d)
  {
  }

  /**
   * Bounded staleness: under any interleaving of processes, Redis failures and direct row
   * edits, if cache writes come at most `d` after their database statement, the answer a
   * request returned at time t was the effective row at some moment from t - 300 s - d to t.
   */
  lemma {:induction false} BoundedStaleness(s: Shared, ms: seq<Move>, d: nat, q: nat)
    requires SharedInv(s, d) && AllPrompt(s, ms, d)
    requires q < |Schedule(s, ms).flights| && Schedule(s, ms).flights[q].Returned?
    ensures var s' := Schedule(s, ms);
      var f := s'.flights[q];
      exists t: Time :: WasEffective(s'.versions, f.value, t) && f.at - 300_000 - d <= t <= f.at
    decreases |ms|
  {
    if |ms| == 0 {
      assert FlightOk(s, s.flights[q], d);
    } else {
      NextKeeps(s, ms[0], d);
      BoundedStaleness(Next(s, ms[0]), ms[1..], d, q);
    }
  }

  /** A deployment with nothing cached and nobody in flight. */
  function Deployed(now: Time, row: Option<AppSettings>): Shared {
    Shared(Store(now, row, None), now, [], [Version(Effective(row), now)])
  }

  /** The bound holds of every answer given since the deployment. */
  lemma BoundedStalenessFromDeployment(now: Time, row: Option<AppSettings>, ms: seq<Move>, d: nat, q: nat)
    requires AllPrompt(Deployed(now, row), ms, d)
    requires var s' := Schedule(Deployed(now, row), ms); q < |s'.flights| && s'.flights[q].Returned?
    ensures var s' := Schedule(Deployed(now, row), ms);
      var f := s'.flights[q];
      exists t: Time :: WasEffective(s'.versions, f.value, t) && f.at - 300_000 - d <= t <= f.at
  {
    var s := Deployed(now, row);
    assert WasEffective(s.versions, Effective(row), now);
    BoundedStaleness(s, ms, d, q);
  }

  /**
   * Even when every Redis call succeeds, a reader that took the row before an update and
   * writes it back after that update's own cache write leaves the old value cached.
   */
  lemma SlowReaderCachesStale(s: Shared, dto: UpdateDto)
    requires s.store.cache.None? && Overlay(Effective(s.store.row), dto) != Effective(s.store.row)
    ensures var n := |s.flights|;
      var s' := Schedule(s, [StartGet(true), ReadRow(n), Upsert(dto), WriteBack(n + 1, true), WriteBack(n, true)]);
      s'.store.cache.Some? && s'.store.cache.value.value == Effective(s.store.row) != Effective(s'.store.row)
  {
    var n := |s.flights|;
    var s1 := Next(s, StartGet(true));
    var s2 := Next(s1, ReadRow(n));
    var s3 := Next(s2, Upsert(dto));
    var s4 := Next(s3, WriteBack(n + 1, true));
    var s5 := Next(s4, WriteBack(n, true));
    Unfold(s, StartGet(true), [ReadRow(n), Upsert(dto), WriteBack(n + 1, true), WriteBack(n, true)]);
    Unfold(s1, ReadRow(n), [Upsert(dto), WriteBack(n + 1, true), WriteBack(n, true)]);
    Unfold(s2, Upsert(dto), [WriteBack(n + 1, true), WriteBack(n, true)]);
    Unfold(s3, WriteBack(n + 1, true), [WriteBack(n, true)]);
    Unfold(s4, WriteBack(n, true), []);
  }

  lemma Unfold(s: Shared, m: Move, rest: seq<Move>)
    ensures Schedule(s, [m] + rest) == Schedule(Next(s, m), rest)
  {
  }

  // ----- when updates are fresh under interleaving -----

  /** No update and no edit. */
  predicate Quiet(ms: seq<Move>) { forall m | m in ms :: !m.Upsert? && !m.EditRow? }

  /** The request `own` does not write to the cache. */
  predicate Waits(ms: seq<Move>, own: nat) { forall m | m in ms && m.WriteBack? :: m.q != own }

  /** A read that starts now, hit or miss, answers `value`. */
  predicate ReadsNow(s: Shared, value: AppSettings) {
    && Effective(s.store.row) == value
    && (Hits(s.store, true) ==> s.store.cache.value.value == value)
  }

  predicate AllHold(s: Shared, value: AppSettings) {
    && Effective(s.store.row) == value
    && forall q | 0 <= q < |s.flights| && s.flights[q].Holding? :: s.flights[q].value == value
  }

  predicate CachesOnly(s: Shared, value: AppSettings) {
    s.store.cache.Some? ==> s.store.cache.value.value == value
  }

  function Updated(s: Shared, dto: UpdateDto): AppSettings { Overlay(Effective(s.store.row), dto) }

  /**
   * The update followed by other requests' statements, its own successful cache write, and
   * more statements of any request: however they are chosen, the next read answers the new
   * value.
   */
  ghost predicate AlwaysFresh(s: Shared, dto: UpdateDto) {
    forall before, later | Quiet(before) && Waits(before, |s.flights|) && Quiet(later) ::
      ReadsNow(Schedule(s, Around(s, dto, before, later)), Updated(s, dto))
  }

  function Around(s: Shared, dto: UpdateDto, before: seq<Move>, later: seq<Move>): seq<Move> {
    [Upsert(dto)] + (before + ([WriteBack(|s.flights|, true)] + later))
  }

  lemma {:induction false} ScheduleConcat(s: Shared, a: seq<Move>, b: seq<Move>)
    ensures Schedule(s, a + b) == Schedule(Schedule(s, a), b)
    decreases |a|
  {
    if |a| == 0 {
      assert a + b == b;
    } else {
      assert (a + b)[1..] == a[1..] + b;
      ScheduleConcat(Next(s, a[0]), a[1..], b);
    }
  }

  lemma QuietMove(s: Shared, m: Move, value: AppSettings)
    requires AllHold(s, value) && !m.Upsert? && !m.EditRow?
    ensures AllHold(Next(s, m), value) && (CachesOnly(s, value) ==> CachesOnly(Next(s, m), value))
  {
  }

  lemma {:induction false} QuietSchedule(s: Shared, ms: seq<Move>, own: nat, value: AppSettings)
    requires AllHold(s, value) && Quiet(ms) && own < |s.flights|
    ensures var s' := Schedule(s, ms);
      && AllHold(s', value) && (CachesOnly(s, value) ==> CachesOnly(s', value))
      && own < |s'.flights| && (Waits(ms, own) && s.flights[own].Holding? ==> s'.flights[own] == s.flights[own])
    decreases |ms|
  {
    if |ms| > 0 {
      assert ms[0] in ms && forall m | m in ms[1..] :: m in ms;
      QuietMove(s, ms[0], value);
      QuietSchedule(Next(s, ms[0]), ms[1..], own, value);
    }
  }

  lemma HoldersMakeFresh(s: Shared, dto: UpdateDto, before: seq<Move>, later: seq<Move>)
    requires forall q | 0 <= q < |s.flights| && s.flights[q].Holding? :: s.flights[q].value == Updated(s, dto)
    requires Quiet(before) && Waits(before, |s.flights|) && Quiet(later)
    ensures ReadsNow(Schedule(s, Around(s, dto, before, later)), Updated(s, dto))
  {
    var n, value := |s.flights|, Updated(s, dto);
    var s1 := Next(s, Upsert(dto));
    Unfold(s, Upsert(dto), before + ([WriteBack(n, true)] + later));
    ScheduleConcat(s1, before, [WriteBack(n, true)] + later);
    QuietSchedule(s1, before, n, value);
    var s2 := Schedule(s1, before);
    Unfold(s2, WriteBack(n, true), later);
    var s3 := Next(s2, WriteBack(n, true));
    QuietMove(s2, WriteBack(n, true), value);
    QuietSchedule(s3, later, n, value);
  }

  /** A holder of another value writes it back right after the update's own cache write. */
  lemma HolderSpoils(s: Shared, dto: UpdateDto, q: nat)
    requires q < |s.flights| && s.flights[q].Holding? && s.flights[q].value != Updated(s, dto)
    ensures !ReadsNow(Schedule(s, Around(s, dto, [], [WriteBack(q, true)])), Updated(s, dto))
  {
    ThreeMoves(s, Upsert(dto), WriteBack(|s.flights|, true), WriteBack(q, true));
  }

  lemma ThreeMoves(s: Shared, first: Move, second: Move, third: Move)
    ensures Schedule(s, [first] + ([] + ([second] + [third]))) == Next(Next(Next(s, first), second), third)
  {
    var s1 := Next(s, first);
    var s2 := Next(s1, second);
    Unfold(s, first, [] + ([second] + [third]));
    assert [] + ([second] + [third]) == [second] + [third];
    Unfold(s1, second, [third]);
    assert [third] + [] == [third];
    Unfold(s2, third, []);
  }

  /**
   * Exactly when the update is fresh for good: from its own successful cache write to the
   * next update or edit, every read answers the new value under every schedule iff no
   * request holds another value, read earlier, at the moment of the update.
   */
  lemma FreshForGoodExactlyWhen(s: Shared, dto: UpdateDto)
    ensures AlwaysFresh(s, dto)
       <==> forall q | 0 <= q < |s.flights| && s.flights[q].Holding? :: s.flights[q].value == Updated(s, dto)
  {
    if forall q | 0 <= q < |s.flights| && s.flights[q].Holding? :: s.flights[q].value == Updated(s, dto) {
      forall before, later | Quiet(before) && Waits(before, |s.flights|) && Quiet(later)
        ensures ReadsNow(Schedule(s, Around(s, dto, before, later)), Updated(s, dto))
      {
        HoldersMakeFresh(s, dto, before, later);
      }
    } else {
      var q :| 0 <= q < |s.flights| && s.flights[q].Holding? && s.flights[q].value != Updated(s, dto);
      HolderSpoils(s, dto, q);
      assert Quiet([]) && Waits([], |s.flights|) && Quiet([WriteBack(q, true)]);
    }
  }
}
