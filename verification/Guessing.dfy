/**
 * How fast passwords can be guessed when logins overlap: a burst of logins compares one
 * password each on a lock state read earlier, and the number of logins in flight together
 * is exactly what the lockout then fails to bound.
 */
module Guessing {
  import opened Common
  import opened AuthTables
  import opened AuthSteps
  import opened Credentials
  import opened Interleaving
  import opened Races

  // ----- counting processes -----

  function Bit(b: bool): nat { if b then 1 else 0 }

  /** How many processes satisfy `f`. */
  function Tally(ps: seq<Process>, f: Process -> bool): nat {
    if |ps| == 0 then 0 else Tally(ps[..|ps| - 1], f) + Bit(f(ps[|ps| - 1]))
  }

  lemma {:induction false} TallyUpdate(ps: seq<Process>, q: nat, p: Process, f: Process -> bool)
    requires q < |ps|
    ensures Tally(ps[q := p], f) + Bit(f(ps[q])) == Tally(ps, f) + Bit(f(p))
  {
    var n := |ps| - 1;
    if q == n {
      assert ps[q := p][..n] == ps[..n];
    } else {
      assert ps[q := p][..n] == ps[..n][q := p];
      TallyUpdate(ps[..n], q, p, f);
    }
  }

  lemma TallyAppend(ps: seq<Process>, p: Process, f: Process -> bool)
    ensures Tally(ps + [p], f) == Tally(ps, f) + Bit(f(p))
  {
    assert (ps + [p])[..|ps|] == ps;
  }

  lemma {:induction false} TallyMonotone(ps: seq<Process>, f: Process -> bool, g: Process -> bool)
    requires forall p | f(p) :: g(p)
    ensures Tally(ps, f) <= Tally(ps, g)
  {
    if |ps| > 0 {
      TallyMonotone(ps[..|ps| - 1], f, g);
    }
  }

  /** A login of `u` that has read the user row and not compared the password yet. */
  function Reading(u: UserId): Process -> bool { (p: Process) => p.LoginRead? && p.u == u }

  /** A login of `u` that has compared a wrong password and not recorded it completely. */
  function Failing(u: UserId): Process -> bool { (p: Process) => p == LoginFailed(u) || p == LoginLocking(u) }

  /** A login of `u` whose copy of the row shows no lock until `bound`. */
  function Stale(u: UserId, bound: Time): Process -> bool {
    (p: Process) => p.LoginRead? && p.u == u && !(p.user.lockedUntil.Some? && p.user.lockedUntil.value >= bound)
  }

  function InFlight(ps: seq<Process>, u: UserId): nat { Tally(ps, Reading(u)) + Tally(ps, Failing(u)) }

  // ----- schedules without a success -----

  /** The action compares a wrong password for `u`. */
  predicate Compares(c: Config, s: Sys, a: Action, u: UserId)
    requires SysInv(s)
  {
    a.Advance? && a.q < |s.procs| && s.procs[a.q].LoginRead? && Exec(c, s.db, s.procs[a.q]).next == LoginFailed(u)
  }

  function Comparisons(c: Config, s: Sys, acts: seq<Action>, u: UserId): nat
    requires SysInv(s)
    decreases |acts|
  {
    if |acts| == 0 then 0
    else
      NextInv(c, s, acts[0]);
      Bit(Compares(c, s, acts[0], u)) + Comparisons(c, Next(c, s, acts[0]), acts[1..], u)
  }

  predicate Zeroes(c: Config, s: Sys, a: Action, u: UserId)
    requires SysInv(s)
  {
    a.Advance? && a.q < |s.procs| && Clears(Entry(a.q, s.procs[a.q], Exec(c, s.db, s.procs[a.q]).next), u)
  }

  /** No login or reset of `u` succeeds, and at most `m` logins of `u` are in flight at any moment. */
  predicate Calm(c: Config, s: Sys, acts: seq<Action>, u: UserId, m: nat)
    requires SysInv(s)
    decreases |acts|
  {
    && InFlight(s.procs, u) <= m
    && (|acts| > 0 ==>
          && !Zeroes(c, s, acts[0], u)
          && (NextInv(c, s, acts[0]); Calm(c, Next(c, s, acts[0]), acts[1..], u, m)))
  }

  // ----- the bound -----

  /**
   * The books after `k` comparisons since `t0`: `free` of them were recorded without a
   * lock, and `w` windows of one lock duration each were opened by lock writes, the last
   * at `openedAt`. Inside a window only logins with a stale copy can still compare.
   */
  predicate Booked(c: Config, s: Sys, u: UserId, m: nat, t0: Time, k: nat, free: nat, w: nat, openedAt: Time) {
    && free <= Failures(s.db, u) && free < c.maxFailedAttempts
    && k <= free + Spans(w, m) + Tally(s.procs, Failing(u))
    && t0 <= s.db.now
    && (w > 0 ==>
          && t0 + Spans(w - 1, c.lockDurationMs) <= openedAt <= s.db.now
          && LockOf(s.db, u).Some? && LockOf(s.db, u).value >= openedAt + c.lockDurationMs
          && (s.db.now < openedAt + c.lockDurationMs ==>
                k + Tally(s.procs, Stale(u, openedAt + c.lockDurationMs)) <= free + Spans(w, m)))
  }

  lemma BeginLock(c: Config, s: Db, e: Event, u: UserId)
    ensures var m := Begin(c, s, e);
      && LockOf(m.db, u) == LockOf(s, u) && Failures(m.db, u) == Failures(s, u) && s.now <= m.db.now
      && !Failing(u)(m.next) && (Reading(u)(m.next) ==> m.next.user.lockedUntil == LockOf(s, u))
  {
  }

  /** What one statement does to the lock of `u` and to the logins of `u` in flight. */
  lemma ExecLock(c: Config, s: Db, p: Process, u: UserId)
    requires Fits(s, p) && !p.Ready? && !Clears(Entry(0, p, Exec(c, s, p).next), u)
    ensures var m := Exec(c, s, p);
      && LockOf(m.db, u) == (if p == LoginLocking(u) then Some(s.now + c.lockDurationMs) else LockOf(s, u))
      && m.db.now == s.now && !Reading(u)(m.next)
      && (m.next == LoginFailed(u) ==>
            Reading(u)(p) && (p.user.lockedUntil.None? || p.user.lockedUntil.value <= s.now))
  {
  }

  lemma AdvanceTallies(c: Config, s: Sys, q: nat, f: Process -> bool)
    requires SysInv(s) && q < |s.procs|
    ensures Tally(Next(c, s, Advance(q)).procs, f) + Bit(f(s.procs[q]))
         == Tally(s.procs, f) + Bit(f(Exec(c, s.db, s.procs[q]).next))
  {
    TallyUpdate(s.procs, q, Exec(c, s.db, s.procs[q]).next, f);
  }

  lemma BeginBooked(c: Config, s: Sys, q: nat, u: UserId, m: nat, t0: Time, k: nat, free: nat, w: nat, openedAt: Time)
    requires SysInv(s) && q < |s.procs| && s.procs[q].Ready? && Booked(c, s, u, m, t0, k, free, w, openedAt)
    ensures Booked(c, Next(c, s, Advance(q)), u, m, t0, k, free, w, openedAt)
  {
    BeginLock(c, s.db, s.procs[q].e, u);
    AdvanceTallies(c, s, q, Failing(u));
    AdvanceTallies(c, s, q, Stale(u, openedAt + c.lockDurationMs));
  }

  /** A lock write outside the last window opens a new one. */
  lemma LockBooked(c: Config, s: Sys, q: nat, u: UserId, m: nat, t0: Time, k: nat, free: nat, w: nat, openedAt: Time)
    returns (w': nat, openedAt': Time)
    requires SysInv(s) && q < |s.procs| && s.procs[q] == LoginLocking(u) && InFlight(s.procs, u) <= m
    requires Booked(c, s, u, m, t0, k, free, w, openedAt)
    ensures Booked(c, Next(c, s, Advance(q)), u, m, t0, k, free, w', openedAt')
  {
    var s' := Next(c, s, Advance(q));
    ExecLock(c, s.db, s.procs[q], u);
    ExecCounter(c, s.db, s.procs[q], u);
    AdvanceTallies(c, s, q, Failing(u));
    AdvanceTallies(c, s, q, Reading(u));
    if w > 0 && s.db.now < openedAt + c.lockDurationMs {
      w', openedAt' := w, openedAt;
      AdvanceTallies(c, s, q, Stale(u, openedAt + c.lockDurationMs));
    } else {
      w', openedAt' := w + 1, s.db.now;
      TallyMonotone(s'.procs, Stale(u, openedAt' + c.lockDurationMs), Reading(u));
      assert Spans(w + 1, m) == Spans(w, m) + m;
      assert w > 0 ==> Spans(w, c.lockDurationMs) == Spans(w - 1, c.lockDurationMs) + c.lockDurationMs;
    }
  }

  lemma FailBooked(c: Config, s: Sys, q: nat, u: UserId, m: nat, t0: Time, k: nat, free: nat, w: nat, openedAt: Time)
    returns (free': nat)
    requires SysInv(s) && q < |s.procs| && s.procs[q] == LoginFailed(u) && Booked(c, s, u, m, t0, k, free, w, openedAt)
    ensures Booked(c, Next(c, s, Advance(q)), u, m, t0, k, free', w, openedAt)
  {
    ExecLock(c, s.db, s.procs[q], u);
    ExecCounter(c, s.db, s.procs[q], u);
    AdvanceTallies(c, s, q, Failing(u));
    AdvanceTallies(c, s, q, Stale(u, openedAt + c.lockDurationMs));
    free' := if Failures(s.db, u) + 1 < c.maxFailedAttempts then free + 1 else free;
  }

  lemma OtherBooked(c: Config, s: Sys, q: nat, u: UserId, m: nat, t0: Time, k: nat, free: nat, w: nat, openedAt: Time)
    requires SysInv(s) && q < |s.procs| && !s.procs[q].Ready? && !Failing(u)(s.procs[q])
    requires !Zeroes(c, s, Advance(q), u) && Booked(c, s, u, m, t0, k, free, w, openedAt)
    ensures Booked(c, Next(c, s, Advance(q)), u, m, t0, k + Bit(Compares(c, s, Advance(q), u)), free, w, openedAt)
  {
    ExecLock(c, s.db, s.procs[q], u);
    ExecCounter(c, s.db, s.procs[q], u);
    AdvanceTallies(c, s, q, Failing(u));
    AdvanceTallies(c, s, q, Stale(u, openedAt + c.lockDurationMs));
  }

  lemma SpawnBooked(c: Config, s: Sys, e: Event, u: UserId, m: nat, t0: Time, k: nat, free: nat, w: nat, openedAt: Time)
    requires SysInv(s) && Booked(c, s, u, m, t0, k, free, w, openedAt)
    ensures Booked(c, Next(c, s, Spawn(e)), u, m, t0, k, free, w, openedAt)
  {
    TallyAppend(s.procs, Ready(e), Failing(u));
    TallyAppend(s.procs, Ready(e), Stale(u, openedAt + c.lockDurationMs));
  }

  lemma NextBooked(c: Config, s: Sys, a: Action, u: UserId, m: nat, t0: Time, k: nat, free: nat, w: nat, openedAt: Time)
    returns (free': nat, w': nat, openedAt': Time)
    requires SysInv(s) && InFlight(s.procs, u) <= m && !Zeroes(c, s, a, u)
    requires Booked(c, s, u, m, t0, k, free, w, openedAt)
    ensures Booked(c, Next(c, s, a), u, m, t0, k + Bit(Compares(c, s, a, u)), free', w', openedAt')
  {
    free', w', openedAt' := free, w, openedAt;
    if a.Spawn? {
      SpawnBooked(c, s, a.e, u, m, t0, k, free, w, openedAt);
    } else if a.q < |s.procs| {
      if s.procs[a.q].Ready? {
        BeginBooked(c, s, a.q, u, m, t0, k, free, w, openedAt);
      } else if s.procs[a.q] == LoginFailed(u) {
        free' := FailBooked(c, s, a.q, u, m, t0, k, free, w, openedAt);
      } else if s.procs[a.q] == LoginLocking(u) {
        w', openedAt' := LockBooked(c, s, a.q, u, m, t0, k, free, w, openedAt);
      } else {
        OtherBooked(c, s, a.q, u, m, t0, k, free, w, openedAt);
      }
    }
  }

  lemma {:induction false} ScheduleBooked(c: Config, s: Sys, acts: seq<Action>, u: UserId, m: nat,
                                          t0: Time, k: nat, free: nat, w: nat, openedAt: Time)
    returns (free': nat, w': nat, openedAt': Time)
    requires SysInv(s) && Calm(c, s, acts, u, m) && Booked(c, s, u, m, t0, k, free, w, openedAt)
    ensures Booked(c, Schedule(c, s, acts), u, m, t0, k + Comparisons(c, s, acts, u), free', w', openedAt')
    ensures InFlight(Schedule(c, s, acts).procs, u) <= m
    decreases |acts|
  {
    if |acts| == 0 {
      free', w', openedAt' := free, w, openedAt;
    } else {
      var s' := Next(c, s, acts[0]);
      NextInv(c, s, acts[0]);
      free', w', openedAt' := NextBooked(c, s, acts[0], u, m, t0, k, free, w, openedAt);
      var k' := k + Bit(Compares(c, s, acts[0], u));
      free', w', openedAt' := ScheduleBooked(c, s', acts[1..], u, m, t0, k', free', w', openedAt');
    }
  }

  /** What closed books say: beyond the free attempts and one burst, `m` comparisons cost a lock duration. */
  lemma BookedBound(c: Config, s: Sys, u: UserId, m: nat, t0: Time, k: nat, free: nat, w: nat, openedAt: Time)
    returns (n: nat)
    requires Booked(c, s, u, m, t0, k, free, w, openedAt) && InFlight(s.procs, u) <= m
    ensures k - c.maxFailedAttempts + 1 - m <= n * m && n * c.lockDurationMs <= s.db.now - t0
  {
    SpansIsProduct(w, m);
    if w == 0 {
      n := 0;
    } else if s.db.now < openedAt + c.lockDurationMs {
      n := w - 1;
      SpansIsProduct(w - 1, c.lockDurationMs);
      SpansIsProduct(w - 1, m);
      assert Spans(w, m) == Spans(w - 1, m) + m;
    } else {
      n := w;
      SpansIsProduct(w, c.lockDurationMs);
      assert Spans(w, c.lockDurationMs) == Spans(w - 1, c.lockDurationMs) + c.lockDurationMs;
    }
  }

  /** The lock durations a calm stretch spans, and the comparisons they allow. */
  lemma CalmSpans(c: Config, s: Sys, acts: seq<Action>, u: UserId, m: nat, k: nat, elapsed: int) returns (n: nat)
    requires SysInv(s) && Calm(c, s, acts, u, m)
    requires k == Comparisons(c, s, acts, u) && elapsed == Schedule(c, s, acts).db.now - s.db.now
    ensures k - c.maxFailedAttempts + 1 - m <= n * m && n * c.lockDurationMs <= elapsed
  {
    var free, w, openedAt := ScheduleBooked(c, s, acts, u, m, s.db.now, 0, 0, 0, 0);
    n := BookedBound(c, Schedule(c, s, acts), u, m, s.db.now, k, free, w, openedAt);
  }

  lemma ScaleBound(x: int, n: nat, m: nat, l: nat, t: int)
    requires x <= n * m && n * l <= t
    ensures x * l <= m * t
  {
    assert x * l <= n * m * l == m * (n * l) <= m * t;
  }

  /**
   * The guess rate under interleaving. In any stretch of any schedule in which no login or
   * reset of `u` succeeds and at most m logins of `u` are in flight at once, k compared
   * wrong passwords take time t with (k - maximum + 1 - m) * lock duration <= m * t.
   */
  lemma OverlappingGuessRate(c: Config, s: Sys, acts: seq<Action>, u: UserId, m: nat, k: nat, elapsed: int)
    requires SysInv(s) && Calm(c, s, acts, u, m)
    requires k == Comparisons(c, s, acts, u) && elapsed == Schedule(c, s, acts).db.now - s.db.now
    ensures (k - c.maxFailedAttempts + 1 - m) * c.lockDurationMs <= m * elapsed
  {
    var n := CalmSpans(c, s, acts, u, m, k, elapsed);
    ScaleBound(k - c.maxFailedAttempts + 1 - m, n, m, c.lockDurationMs, elapsed);
  }

  // ----- the burst that attains the bound -----

  /** The process is a login that has not started and that offers a wrong password for the unlocked account `u`. */
  predicate Guess(s: Db, p: Process, u: UserId) {
    && p.Ready? && p.e.Login? && u < |s.users| && FindByEmail(s.users, ToLower(p.e.email)) == Some(u)
    && s.users[u].isActive && !(s.users[u].lockedUntil.Some? && s.users[u].lockedUntil.value > s.now)
    && s.users[u].password != Some(Bcrypt(p.e.password))
  }

  predicate Guesses(s: Sys, base: nat, n: nat, u: UserId) {
    base + n <= |s.procs| && forall q | base <= q < base + n :: Guess(s.db, s.procs[q], u)
  }

  /** A schedule so far, the state it leads to, and the comparisons it made. */
  predicate Leads(c: Config, s: Sys, acts: seq<Action>, u: UserId, m: nat, k: nat, s': Sys) {
    && SysInv(s) && SysInv(s')
    && Schedule(c, s, acts) == s' && Comparisons(c, s, acts, u) == k && Calm(c, s, acts, u, m)
  }

  lemma {:induction false} LeadsOn(c: Config, s: Sys, acts: seq<Action>, a: Action, u: UserId, m: nat, k: nat, s': Sys)
    requires Leads(c, s, acts, u, m, k, s')
    requires !Zeroes(c, s', a, u) && InFlight(Next(c, s', a).procs, u) <= m
    ensures Leads(c, s, acts + [a], u, m, k + Bit(Compares(c, s', a, u)), Next(c, s', a))
    decreases |acts|
  {
    NextInv(c, s', a);
    if |acts| == 0 {
      assert [] + [a] == [a] && [a][1..] == [];
    } else {
      var s1 := Next(c, s, acts[0]);
      NextInv(c, s, acts[0]);
      assert (acts + [a])[1..] == acts[1..] + [a];
      LeadsOn(c, s1, acts[1..], a, u, m, k - Bit(Compares(c, s, acts[0], u)), s');
    }
  }

  /** A guess reads the row, then compares; the tables stay as they are. */
  lemma GuessCompares(c: Config, s: Sys, acts: seq<Action>, q: nat, u: UserId, m: nat, k: nat, s': Sys)
    returns (acts': seq<Action>, s'': Sys)
    requires Leads(c, s, acts, u, m, k, s') && q < |s'.procs| && Guess(s'.db, s'.procs[q], u)
    requires InFlight(s'.procs, u) < m
    ensures Leads(c, s, acts', u, m, k + 1, s'')
    ensures s''.db == s'.db && s''.procs == s'.procs[q := LoginFailed(u)]
    ensures InFlight(s''.procs, u) == InFlight(s'.procs, u) + 1
  {
    var s1 := Next(c, s', Advance(q));
    AdvanceTallies(c, s', q, Reading(u));
    AdvanceTallies(c, s', q, Failing(u));
    LeadsOn(c, s, acts, Advance(q), u, m, k, s');
    s'' := Next(c, s1, Advance(q));
    AdvanceTallies(c, s1, q, Reading(u));
    AdvanceTallies(c, s1, q, Failing(u));
    LeadsOn(c, s, acts + [Advance(q)], Advance(q), u, m, k, s1);
    acts' := acts + [Advance(q)] + [Advance(q)];
    assert s''.procs == s'.procs[q := LoginFailed(u)];
  }

  /** The processes with numbers from `base` on, `n` of them, have compared; the others are where they were. */
  predicate Compared(s: Sys, s': Sys, base: nat, n: nat, u: UserId) {
    && s'.db == s.db && |s'.procs| == |s.procs|
    && forall q | 0 <= q < |s.procs| ::
         s'.procs[q] == if base <= q < base + n then LoginFailed(u) else s.procs[q]
  }

  /** Each of `n` logins reads the user row and compares its password before any records its failure. */
  lemma {:induction false} BurstCompares(c: Config, s: Sys, acts: seq<Action>, base: nat, n: nat,
                                         u: UserId, m: nat, k: nat, s': Sys)
    returns (acts': seq<Action>, s'': Sys)
    requires Leads(c, s, acts, u, m, k, s') && Guesses(s', base, n, u) && InFlight(s'.procs, u) + n <= m
    ensures Leads(c, s, acts', u, m, k + n, s'') && Compared(s', s'', base, n, u)
    ensures InFlight(s''.procs, u) == InFlight(s'.procs, u) + n
    decreases n
  {
    if n == 0 {
      acts', s'' := acts, s';
    } else {
      var acts1, s1 := BurstCompares(c, s, acts, base, n - 1, u, m, k, s');
      acts', s'' := GuessCompares(c, s, acts1, base + n - 1, u, m, k + n - 1, s1);
    }
  }

  /** Where no lock results, recording the failure only moves the counter. */
  lemma GuessInTurn(c: Config, s: Sys, acts: seq<Action>, q: nat, u: UserId, m: nat, k: nat, s': Sys)
    returns (acts': seq<Action>, s'': Sys)
    requires Leads(c, s, acts, u, m, k, s') && q < |s'.procs| && Guess(s'.db, s'.procs[q], u)
    requires InFlight(s'.procs, u) < m && Failures(s'.db, u) + 1 < c.maxFailedAttempts
    ensures Leads(c, s, acts', u, m, k + 1, s'') && InFlight(s''.procs, u) == InFlight(s'.procs, u)
    ensures s''.db == WithFailures(s'.db, u, Failures(s'.db, u) + 1)
    ensures s''.procs == s'.procs[q := Done(WrongPassword(u))]
  {
    var acts1, s1 := GuessCompares(c, s, acts, q, u, m, k, s');
    AdvanceTallies(c, s1, q, Reading(u));
    AdvanceTallies(c, s1, q, Failing(u));
    LeadsOn(c, s, acts1, Advance(q), u, m, k + 1, s1);
    acts', s'' := acts1 + [Advance(q)], Next(c, s1, Advance(q));
    assert s''.procs == s'.procs[q := Done(WrongPassword(u))];
  }

  function WithFailures(s: Db, u: UserId, n: nat): Db
    requires u < |s.users|
  {
    s.(users := s.users[u := s.users[u].(failedLoginAttempts := n)])
  }

  lemma {:induction false} SameFirst(users: seq<User>, users': seq<User>, email: string)
    requires |users| == |users'|
    requires forall i | 0 <= i < |users| ::
      users'[i].email == users[i].email && users'[i].deletedAt == users[i].deletedAt
    ensures FindByEmail(users', email) == FindByEmail(users, email)
  {
  }

  /** Changing only the counter leaves every guess of the account a guess. */
  lemma CounterKeepsGuesses(s: Sys, s': Sys, base: nat, n: nat, u: UserId, failures: nat)
    requires Guesses(s, base, n, u) && u < |s.db.users| && s'.db == WithFailures(s.db, u, failures)
    requires |s'.procs| == |s.procs| && s'.procs[base..base + n] == s.procs[base..base + n]
    ensures Guesses(s', base, n, u)
  {
    forall q | base <= q < base + n ensures Guess(s'.db, s'.procs[q], u) {
      assert s'.procs[q] == s'.procs[base..base + n][q - base] == s.procs[q];
      SameFirst(s.db.users, s'.db.users, ToLower(s.procs[q].e.email));
    }
  }

  lemma {:induction false} GuessesInTurn(c: Config, s: Sys, acts: seq<Action>, base: nat, n: nat, later: nat,
                                         u: UserId, m: nat, k: nat, s': Sys)
    returns (acts': seq<Action>, s'': Sys)
    requires Leads(c, s, acts, u, m, k, s') && Guesses(s', base, n + later, u) && later > 0
    requires InFlight(s'.procs, u) < m && Failures(s'.db, u) + n < c.maxFailedAttempts
    ensures Leads(c, s, acts', u, m, k + n, s'') && Guesses(s'', base + n, later, u)
    ensures InFlight(s''.procs, u) == InFlight(s'.procs, u) && s''.db.now == s'.db.now
    decreases n
  {
    if n == 0 {
      acts', s'' := acts, s';
    } else {
      var acts1, s1 := GuessInTurn(c, s, acts, base, u, m, k, s');
      CounterKeepsGuesses(s', s1, base + 1, n - 1 + later, u, Failures(s'.db, u) + 1);
      acts', s'' := GuessesInTurn(c, s, acts1, base + 1, n - 1, later, u, m, k + 1, s1);
    }
  }

  /**
   * The bound is attained: from a zero counter, one login less than lock the account, in
   * turn, and then `m` logins together compare maximum - 1 + m passwords at one moment.
   */
  lemma BurstAttainsRate(c: Config, s: Sys, base: nat, u: UserId, m: nat) returns (acts: seq<Action>)
    requires SysInv(s) && m > 0 && Guesses(s, base, c.maxFailedAttempts - 1 + m, u)
    requires Failures(s.db, u) == 0 && InFlight(s.procs, u) == 0
    ensures Calm(c, s, acts, u, m) && Schedule(c, s, acts).db.now == s.db.now
    ensures Comparisons(c, s, acts, u) == c.maxFailedAttempts - 1 + m
  {
    var n := c.maxFailedAttempts - 1;
    var acts1, s1 := GuessesInTurn(c, s, [], base, n, m, u, m, 0, s);
    var s2;
    acts, s2 := BurstCompares(c, s, acts1, base + n, m, u, m, n, s1);
  }

  /**
   * More logins than the maximum, all reading the account before any of them records its
   * failure, all compare their passwords: the rate of atomic requests is exceeded.
   */
  lemma BurstPassesThreshold(c: Config, s: Sys, base: nat, n: nat, u: UserId) returns (acts: seq<Action>)
    requires SysInv(s) && n > c.maxFailedAttempts && Guesses(s, base, n, u)
    ensures var s' := Schedule(c, s, acts);
      && Compared(s, s', base, n, u) && Comparisons(c, s, acts, u) == n
      && (n - c.maxFailedAttempts) * c.lockDurationMs > s'.db.now - s.db.now
  {
    var s';
    acts, s' := BurstCompares(c, s, [], base, n, u, InFlight(s.procs, u) + n, 0, s);
    ProductPositive(n - c.maxFailedAttempts, c.lockDurationMs);
  }

  lemma ProductPositive(x: nat, y: nat)
    requires x > 0 && y > 0
    ensures x * y > 0
  {
  }
}
