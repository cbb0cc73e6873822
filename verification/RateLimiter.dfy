/**
 The gateway's per-user fixed-window rate limiter (middleware/rate_limiter.go).

 Stamps are nanoseconds. Allow reads the clock before it takes the lock, so a concurrent
 execution is a sequence of actions in lock order whose stamps need not be sorted.
 */
module RateLimiter {
  import opened Arithmetic
  import opened Wrappers

  const DEFAULT_LIMIT := 100
  const DEFAULT_WINDOW := 60_000_000_000

  datatype Config = Config(limit: int, window: int) {
    ghost predicate Valid() { limit > 0 && window > 0 }
  }

  datatype Window = Window(count: int, resetAt: int, lastSeen: int, createdAt: int)

  datatype Answer = Answer(allowed: bool, remaining: int, limit: int, retryAfter: int, resetAt: int)

  predicate Expired(w: Option<Window>, now: int) {
    w.None? || w.value.resetAt <= now
  }

  /** The user's window after a request stamped `now`. */
  function NextWindow(cfg: Config, w: Option<Window>, now: int): Window {
    if Expired(w, now) then Window(1, now + cfg.window, now, now)
    else if w.value.count >= cfg.limit then w.value.(lastSeen := now)
    else w.value.(lastSeen := now, count := w.value.count + 1)
  }

  /** `later` is the second clock reading, taken for RetryAfter. */
  function AnswerTo(cfg: Config, w: Option<Window>, now: int, later: int): Answer {
    if Expired(w, now) then Answer(true, cfg.limit - 1, cfg.limit, 0, now + cfg.window)
    else if w.value.count >= cfg.limit then
      Answer(false, 0, cfg.limit, if w.value.resetAt < later then 0 else w.value.resetAt - later, w.value.resetAt)
    else Answer(true, cfg.limit - w.value.count - 1, cfg.limit, 0, w.value.resetAt)
  }

  class UserWindow {
    var count: int
    var resetAt: int
    var lastSeen: int
    var createdAt: int

    constructor (count: int, resetAt: int, lastSeen: int, createdAt: int)
      ensures View() == Window(count, resetAt, lastSeen, createdAt)
    {
      this.count, this.resetAt, this.lastSeen, this.createdAt := count, resetAt, lastSeen, createdAt;
    }

    function View(): Window
      reads this
    {
      Window(count, resetAt, lastSeen, createdAt)
    }
  }

  class UserRateLimiter {
    const limit: int
    const window: int
    var buckets: map<string, UserWindow>

    function Settings(): Config { Config(limit, window) }

    ghost predicate Valid()
      reads this
    {
      && Settings().Valid()
      && forall u, v :: u in buckets && v in buckets && u != v ==> buckets[u] != buckets[v]
    }

    ghost function At(user: string): Option<Window>
      reads this, buckets.Values
    {
      if user in buckets then Some(buckets[user].View()) else None
    }

    /** All windows, as the runs below see them. */
    ghost function View(): Buckets
      reads this, buckets.Values
    {
      map u | u in buckets :: buckets[u].View()
    }

    constructor (limit: int, window: int)
      ensures Valid() && View() == map[] && forall u :: At(u) == None
      ensures this.limit == if limit > 0 then limit else 100
      ensures this.window == if window > 0 then window else 60_000_000_000
    {
      this.limit := if limit <= 0 then DEFAULT_LIMIT else limit;
      this.window := if window <= 0 then DEFAULT_WINDOW else window;
      buckets := map[];
    }

    method Allow(user: string, now: int, later: int) returns (answer: Answer)
      requires Valid()
      modifies this, buckets.Values
      ensures Valid()
      ensures answer == AnswerTo(Settings(), old(At(user)), now, later)
      ensures answer.limit == limit && At(user).Some? && At(user).value.lastSeen == now && answer.resetAt == At(user).value.resetAt
      ensures answer.allowed ==> answer.retryAfter == 0
      ensures !answer.allowed ==> answer.remaining == 0
      ensures !answer.allowed ==> answer.retryAfter == if answer.resetAt < later then 0 else answer.resetAt - later
      ensures At(user) == Some(NextWindow(Settings(), old(At(user)), now))
      ensures forall u :: u != user ==> At(u) == old(At(u))
    {
      if user !in buckets || buckets[user].resetAt <= now {
        var resetAt := now + this.window;
        var fresh' := new UserWindow(1, resetAt, now, now);
        buckets := buckets[user := fresh'];
        return Answer(true, limit - 1, limit, 0, resetAt);
      }
      var w := buckets[user];
      w.lastSeen := now;
      if w.count >= limit {
        var retryAfter := w.resetAt - later;
        if retryAfter < 0 { retryAfter := 0; }
        return Answer(false, 0, limit, retryAfter, w.resetAt);
      }
      w.count := w.count + 1;
      var remaining := limit - w.count;
      if remaining < 0 { remaining := 0; }
      return Answer(true, remaining, limit, 0, w.resetAt);
    }

    method CleanupExpired(now: int)
      requires Valid()
      modifies this
      ensures Valid()
      ensures forall u :: At(u) == if old(At(u)).Some? && now <= old(At(u)).value.resetAt + window then old(At(u)) else None
      ensures View() == Act(Settings(), old(View()), Cleanup(now))
    {
      var todo := buckets.Keys;
      while todo != {}
        invariant todo <= buckets.Keys <= old(buckets).Keys
        invariant forall u :: u in buckets ==> buckets[u] == old(buckets)[u]
        invariant forall u :: u in old(buckets) && u !in buckets ==> now > old(buckets)[u].resetAt + window
        invariant forall u :: u in buckets && u !in todo ==> now <= buckets[u].resetAt + window
        decreases todo
      {
        var user :| user in todo;
        if now > buckets[user].resetAt + window { buckets := buckets - {user}; }
        todo := todo - {user};
      }
    }
  }

  // ---- Runs ----

  datatype Action = Allow(user: string, at: int, later: int) | Cleanup(at: int)

  type Buckets = map<string, Window>

  function Lookup(m: Buckets, user: string): Option<Window> {
    if user in m then Some(m[user]) else None
  }

  function Act(cfg: Config, m: Buckets, a: Action): Buckets {
    match a
    case Allow(user, at, _) => m[user := NextWindow(cfg, Lookup(m, user), at)]
    case Cleanup(at) => map u | u in m && at <= m[u].resetAt + cfg.window :: m[u]
  }

  function Exec(cfg: Config, run: seq<Action>): Buckets {
    if run == [] then map[] else Act(cfg, Exec(cfg, run[..|run| - 1]), run[|run| - 1])
  }

  function Reply(cfg: Config, m: Buckets, a: Action): Answer
    requires a.Allow?
  {
    AnswerTo(cfg, Lookup(m, a.user), a.at, a.later)
  }

  function WithoutCleanups(run: seq<Action>): (r: seq<Action>)
    ensures forall i :: 0 <= i < |r| ==> r[i].Allow?
  {
    if run == [] then []
    else
      var before := WithoutCleanups(run[..|run| - 1]);
      if run[|run| - 1].Allow? then before + [run[|run| - 1]] else before
  }

  // ---- Cleanup is invisible ----

  /** No Allow stamp lags an earlier applied cleanup stamp by more than one window and a tick of the clock. */
  ghost predicate LagWithinWindow(cfg: Config, run: seq<Action>) {
    forall i, j :: 0 <= i < j < |run| && run[i].Cleanup? && run[j].Allow? ==> run[i].at <= run[j].at + cfg.window + 1
  }

  /** c is m with some buckets deleted by a cleanup of the run that came a full window late. */
  ghost predicate Cleaned(cfg: Config, run: seq<Action>, c: Buckets, m: Buckets) {
    && (forall u :: u in c ==> u in m && m[u] == c[u])
    && (forall u :: u in m && u !in c ==>
          exists i :: 0 <= i < |run| && run[i].Cleanup? && m[u].resetAt + cfg.window < run[i].at)
  }

  lemma CleanedGrows(cfg: Config, run: seq<Action>, a: Action, c: Buckets, m: Buckets)
    requires Cleaned(cfg, run, c, m)
    ensures Cleaned(cfg, run + [a], c, m)
  {
    forall u | u in m && u !in c
      ensures exists i :: 0 <= i < |run + [a]| && (run + [a])[i].Cleanup? && m[u].resetAt + cfg.window < (run + [a])[i].at
    {
      var i :| 0 <= i < |run| && run[i].Cleanup? && m[u].resetAt + cfg.window < run[i].at;
      assert (run + [a])[i] == run[i];
    }
  }

  lemma CleanedStep(cfg: Config, run: seq<Action>, a: Action, c: Buckets, m: Buckets)
    requires Cleaned(cfg, run, c, m) && LagWithinWindow(cfg, run + [a])
    ensures Cleaned(cfg, run + [a], Act(cfg, c, a), if a.Allow? then Act(cfg, m, a) else m)
  {
    CleanedGrows(cfg, run, a, c, m);
    if a.Allow? {
      hide NextWindow;
      SameWindow(cfg, run, c, m, a);
    } else {
      assert (run + [a])[|run|] == a;
    }
  }

  lemma {:induction false} CleanupOnlyDeletesLate(cfg: Config, run: seq<Action>)
    requires LagWithinWindow(cfg, run)
    ensures Cleaned(cfg, run, Exec(cfg, run), Exec(cfg, WithoutCleanups(run)))
  {
    if run != [] {
      hide Act;
      var before, a := run[..|run| - 1], run[|run| - 1];
      assert run == before + [a];
      CleanupOnlyDeletesLate(cfg, before);
      CleanedStep(cfg, before, a, Exec(cfg, before), Exec(cfg, WithoutCleanups(before)));
      assert a.Allow? ==> WithoutCleanups(run)[..|WithoutCleanups(before)|] == WithoutCleanups(before);
    }
  }

  lemma SameWindow(cfg: Config, run: seq<Action>, c: Buckets, m: Buckets, a: Action)
    requires a.Allow? && Cleaned(cfg, run, c, m) && LagWithinWindow(cfg, run + [a])
    ensures Reply(cfg, c, a) == Reply(cfg, m, a)
    ensures NextWindow(cfg, Lookup(c, a.user), a.at) == NextWindow(cfg, Lookup(m, a.user), a.at)
  {
    if a.user in m && a.user !in c {
      var i :| 0 <= i < |run| && run[i].Cleanup? && m[a.user].resetAt + cfg.window < run[i].at;
      assert (run + [a])[i] == run[i] && (run + [a])[|run|] == a;
    }
  }

  /** A limiter that cleans up at arbitrary points answers like one that never does. */
  lemma CleanupInvisible(cfg: Config, run: seq<Action>, a: Action)
    requires a.Allow? && LagWithinWindow(cfg, run + [a])
    ensures Reply(cfg, Exec(cfg, run), a) == Reply(cfg, Exec(cfg, WithoutCleanups(run)), a)
  {
    forall i | 0 <= i < |run| ensures (run + [a])[i] == run[i] {}
    CleanupOnlyDeletesLate(cfg, run);
    SameWindow(cfg, run, Exec(cfg, run), Exec(cfg, WithoutCleanups(run)), a);
  }

  // ---- How many requests a user gets in an interval ----

  /** The stamps come in the order of the lock. */
  ghost predicate Monotone(run: seq<Action>) {
    forall i, j :: 0 <= i < j < |run| ==> run[i].at <= run[j].at
  }

  predicate Asks(a: Action, user: string) { a.Allow? && a.user == user }

  /** No request of the user is stamped more than `lag` before an earlier one. */
  ghost predicate LagsBy(run: seq<Action>, user: string, lag: nat) {
    forall i, j :: 0 <= i < j < |run| && Asks(run[i], user) && Asks(run[j], user) ==> run[i].at <= run[j].at + lag
  }

  /** The action is a request of the user, stamped in [from, to), that the buckets m allow. */
  predicate Grants(cfg: Config, m: Buckets, a: Action, user: string, from: int, to: int) {
    a.Allow? && a.user == user && from <= a.at < to && Reply(cfg, m, a).allowed
  }

  /** Requests of the user stamped in [from, to) that were allowed. */
  function Granted(cfg: Config, run: seq<Action>, user: string, from: int, to: int): nat {
    if run == [] then 0
    else
      var before, a := run[..|run| - 1], run[|run| - 1];
      Granted(cfg, before, user, from, to) + if Grants(cfg, Exec(cfg, before), a, user, from, to) then 1 else 0
  }

  lemma LagPart(cfg: Config, run: seq<Action>)
    requires run != [] && LagWithinWindow(cfg, run)
    ensures LagWithinWindow(cfg, run[..|run| - 1])
  {
  }

  lemma {:induction false} GrantedIgnoresCleanups(cfg: Config, run: seq<Action>, user: string, from: int, to: int)
    requires LagWithinWindow(cfg, run)
    ensures Granted(cfg, run, user, from, to) == Granted(cfg, WithoutCleanups(run), user, from, to)
  {
    if run != [] {
      hide *;
      var before, a := run[..|run| - 1], run[|run| - 1];
      LagPart(cfg, run);
      GrantedIgnoresCleanups(cfg, before, user, from, to);
      assert before + [a] == run;
      GrantedStep(cfg, before, a, user, from, to);
      WithoutStep(before, a);
      if a.Allow? {
        CleanupInvisible(cfg, before, a);
        GrantedStep(cfg, WithoutCleanups(before), a, user, from, to);
        GrantsAlike(cfg, Exec(cfg, before), Exec(cfg, WithoutCleanups(before)), a, user, from, to);
      } else {
        CleanupsGrantNothing(cfg, Exec(cfg, before), a, user, from, to);
      }
    }
  }

  lemma GrantedStep(cfg: Config, run: seq<Action>, a: Action, user: string, from: int, to: int)
    ensures Granted(cfg, run + [a], user, from, to) ==
      Granted(cfg, run, user, from, to) + if Grants(cfg, Exec(cfg, run), a, user, from, to) then 1 else 0
  {
    hide Grants, Exec;
    assert (run + [a])[..|run|] == run;
  }

  lemma WithoutStep(run: seq<Action>, a: Action)
    ensures WithoutCleanups(run + [a]) == if a.Allow? then WithoutCleanups(run) + [a] else WithoutCleanups(run)
  {
    assert (run + [a])[..|run|] == run;
  }

  lemma GrantsAlike(cfg: Config, c: Buckets, m: Buckets, a: Action, user: string, from: int, to: int)
    requires a.Allow? && Reply(cfg, c, a) == Reply(cfg, m, a)
    ensures Grants(cfg, c, a, user, from, to) <==> Grants(cfg, m, a, user, from, to)
  {
    hide Reply;
  }

  lemma CleanupsGrantNothing(cfg: Config, m: Buckets, a: Action, user: string, from: int, to: int)
    requires !a.Allow?
    ensures !Grants(cfg, m, a, user, from, to)
  {
  }

  /** How many windows can start in an interval of this length. */
  function Starts(length: nat, window: int): (c: nat)
    requires window > 0
  {
    (length + window - 1) / window
  }

  lemma StartsAtLeast(g: int, length: nat, window: int)
    requires window > 0 && (g - 1) * window < length
    ensures g <= Starts(length, window)
  {
    var c := Starts(length, window);
    assert length + window - 1 < c * window + window;
    if g > c { MulMono(window, c + 1, g); }
  }

  /** The most that requests of k windows and a lag can be granted. */
  function Cap(cfg: Config, k: nat, lag: nat): int
    requires cfg.Valid()
  {
    (k + 1) * cfg.limit - 1 + Starts(lag, cfg.window) * (cfg.limit - 1)
  }

  /**
   n requests of the user stamped in [from, to) have been granted, to being k windows after
   from, and w is the user's present window. Windows start at least a window apart. One that
   starts before `from` can grant all but its first request in the interval; one that starts
   in [to, to + lag) as well, to requests that lag; g counts the windows that have started
   in [from, to), or in [to, to + lag) once one has.
   */
  ghost predicate Quota(cfg: Config, from: int, k: nat, lag: nat, w: Option<Window>, n: nat, g: nat)
    requires cfg.Valid()
  {
    var to := from + k * cfg.window;
    if w.None? then n == 0
    else
      var start, count := w.value.createdAt, w.value.count;
      && w.value.resetAt == start + cfg.window && 1 <= count <= cfg.limit
      && (start < from ==> n <= count - 1 && (w.value.resetAt <= from ==> n == 0))
      && (from <= start < to ==> g >= 1 && from + (g - 1) * cfg.window <= start && n <= g * cfg.limit - 1 + count)
      && (to <= start < to + lag ==>
            g >= 1 && to + (g - 1) * cfg.window <= start && n <= (k + 1) * cfg.limit - 1 + (g - 1) * (cfg.limit - 1) + (count - 1))
      && (to + lag <= start ==> n <= Cap(cfg, k, lag))
  }

  lemma AtLeastFactor(a: int, unit: int)
    requires a >= 1 && unit >= 0
    ensures a * unit >= unit
  {
  }

  lemma FullWindows(g: int, k: int, limit: int)
    requires g <= k && limit > 0
    ensures g * limit + limit <= (k + 1) * limit
  {
  }

  lemma SmallerFactor(a: int, b: int, unit: int)
    requires unit > 0 && a * unit < b * unit
    ensures a < b
  {
  }

  lemma AtMostFactor(g: int, c: int, unit: int)
    requires 1 <= g <= c && unit >= 0
    ensures (g - 1) * unit + unit <= c * unit
  {
  }

  /** Before any window starts at or after the end of the interval. */
  lemma QuotaBeforeEnd(cfg: Config, from: int, k: nat, lag: nat, w: Option<Window>, n: nat, g: nat)
    requires cfg.Valid() && Quota(cfg, from, k, lag, w, n, g)
    requires w.Some? ==> w.value.createdAt < from + k * cfg.window
    ensures n <= (k + 1) * cfg.limit - 1
  {
    AtLeastFactor(k + 1, cfg.limit);
    if w.Some? && from <= w.value.createdAt {
      SmallerFactor(g - 1, k, cfg.window);
      FullWindows(g, k, cfg.limit);
    }
  }

  lemma CapAtLeast(cfg: Config, k: nat, lag: nat)
    requires cfg.Valid()
    ensures Cap(cfg, k, lag) >= (k + 1) * cfg.limit - 1
  {
    MulMono(cfg.limit - 1, 0, Starts(lag, cfg.window));
  }

  lemma QuotaMeans(cfg: Config, from: int, k: nat, lag: nat, w: Option<Window>, n: nat, g: nat)
    requires cfg.Valid() && Quota(cfg, from, k, lag, w, n, g)
    ensures n <= Cap(cfg, k, lag)
  {
    var to := from + k * cfg.window;
    if w.None? || w.value.createdAt < to {
      QuotaBeforeEnd(cfg, from, k, lag, w, n, g);
      CapAtLeast(cfg, k, lag);
    } else if w.value.createdAt < to + lag {
      StartsAtLeast(g, lag, cfg.window);
      AtMostFactor(g, Starts(lag, cfg.window), cfg.limit - 1);
    }
  }

  lemma QuotaInWindow(cfg: Config, from: int, k: nat, lag: nat, w: Option<Window>, n: nat, g: nat, at: int)
    requires cfg.Valid() && Quota(cfg, from, k, lag, w, n, g) && !Expired(w, at) && w.value.createdAt <= at + lag
    ensures var granted := AnswerTo(cfg, w, at, at).allowed && from <= at < from + k * cfg.window;
      Quota(cfg, from, k, lag, Some(NextWindow(cfg, w, at)), n + (if granted then 1 else 0), g)
  {
    hide Cap;
  }

  lemma NextStart(g: int, window: int, limit: int)
    ensures g * window == (g - 1) * window + window && (g + 1) * limit == g * limit + limit
    ensures g * (limit - 1) == (g - 1) * (limit - 1) + (limit - 1) && 0 * window == 0 && 0 * (limit - 1) == 0
  {
  }

  lemma QuotaNewWindow(cfg: Config, from: int, k: nat, lag: nat, w: Option<Window>, n: nat, g: nat, at: int) returns (g': nat)
    requires cfg.Valid() && Quota(cfg, from, k, lag, w, n, g) && Expired(w, at)
    ensures var granted := from <= at < from + k * cfg.window;
      Quota(cfg, from, k, lag, Some(NextWindow(cfg, w, at)), n + (if granted then 1 else 0), g')
  {
    var to := from + k * cfg.window;
    NextStart(g, cfg.window, cfg.limit);
    QuotaMeans(cfg, from, k, lag, w, n, g);
    if w.None? || w.value.createdAt < to { QuotaBeforeEnd(cfg, from, k, lag, w, n, g); }
    hide Cap;
    g' := if w.Some? && ((from <= w.value.createdAt && at < to) || to <= w.value.createdAt) then g + 1 else 1;
  }

  /** One request of some user, on the buckets m. */
  lemma QuotaStep(cfg: Config, m: Buckets, a: Action, user: string, from: int, k: nat, lag: nat, n: nat, g: nat) returns (g': nat)
    requires cfg.Valid() && a.Allow? && Quota(cfg, from, k, lag, Lookup(m, user), n, g)
    requires a.user == user && user in m ==> m[user].createdAt <= a.at + lag
    ensures Quota(cfg, from, k, lag, Lookup(Act(cfg, m, a), user),
                  n + (if Grants(cfg, m, a, user, from, from + k * cfg.window) then 1 else 0), g')
  {
    hide Quota, Expired, AnswerTo, NextWindow;
    var w := Lookup(m, user);
    g' := g;
    if a.user == user {
      GrantIgnoresLater(cfg, w, a.at, a.later);
      if Expired(w, a.at) { g' := QuotaNewWindow(cfg, from, k, lag, w, n, g, a.at); }
      else { QuotaInWindow(cfg, from, k, lag, w, n, g, a.at); }
    }
  }

  /** A window starts at the stamp of one of the user's requests. */
  lemma {:induction false} StartIsStamp(cfg: Config, run: seq<Action>, user: string)
    requires user in Exec(cfg, run)
    ensures exists i :: 0 <= i < |run| && Asks(run[i], user) && run[i].at == Exec(cfg, run)[user].createdAt
  {
    var before, a := run[..|run| - 1], run[|run| - 1];
    if user in Exec(cfg, before) {
      StartIsStamp(cfg, before, user);
      var i :| 0 <= i < |before| && Asks(before[i], user) && before[i].at == Exec(cfg, before)[user].createdAt;
      assert run[i] == before[i];
    }
    assert Asks(a, user) ==> Asks(run[|run| - 1], user);
  }

  lemma StartWithinLag(cfg: Config, run: seq<Action>, user: string, lag: nat)
    requires run != [] && LagsBy(run, user, lag) && Asks(run[|run| - 1], user) && user in Exec(cfg, run[..|run| - 1])
    ensures Exec(cfg, run[..|run| - 1])[user].createdAt <= run[|run| - 1].at + lag
  {
    var before := run[..|run| - 1];
    hide Exec;
    StartIsStamp(cfg, before, user);
    var i :| 0 <= i < |before| && Asks(before[i], user) && before[i].at == Exec(cfg, before)[user].createdAt;
    assert run[i] == before[i];
  }

  lemma {:induction false} QuotaHolds(cfg: Config, run: seq<Action>, user: string, from: int, k: nat, lag: nat) returns (g: nat)
    requires cfg.Valid() && LagsBy(run, user, lag) && forall i :: 0 <= i < |run| ==> run[i].Allow?
    ensures Quota(cfg, from, k, lag, Lookup(Exec(cfg, run), user), Granted(cfg, run, user, from, from + k * cfg.window), g)
  {
    if run == [] { return 0; }
    hide Quota, Act, Grants;
    var before, a := run[..|run| - 1], run[|run| - 1];
    g := QuotaHolds(cfg, before, user, from, k, lag);
    if a.user == user && user in Exec(cfg, before) { StartWithinLag(cfg, run, user, lag); }
    hide LagsBy;
    g := QuotaStep(cfg, Exec(cfg, before), a, user, from, k, lag, Granted(cfg, before, user, from, from + k * cfg.window), g);
  }

  lemma GrantIgnoresLater(cfg: Config, w: Option<Window>, now: int, later: int)
    ensures AnswerTo(cfg, w, now, later).allowed == AnswerTo(cfg, w, now, now).allowed
    ensures if Expired(w, now) then AnswerTo(cfg, w, now, now).allowed else w.Some?
  {
  }

  lemma {:induction false} KeepsLag(run: seq<Action>, user: string, lag: nat)
    requires LagsBy(run, user, lag)
    ensures LagsBy(WithoutCleanups(run), user, lag)
    ensures forall a :: a in WithoutCleanups(run) ==> a in run
  {
    if run != [] {
      var before, last := run[..|run| - 1], run[|run| - 1];
      KeepsLag(before, user, lag);
      assert forall a :: a in before && Asks(a, user) && Asks(last, user) ==> a.at <= last.at + lag;
      assert forall a :: a in WithoutCleanups(before) ==> a in before;
    }
  }

  /**
   Stamps are read before the lock, so they need not come in its order. If no request of the
   user is stamped more than `lag` before an earlier one, a user is granted at most
   (k + 1) * limit - 1 requests in any half-open interval of k windows, and limit - 1 more
   for each window, or part of one, of the lag; whatever the other users do and whenever
   cleanups run.
   */
  lemma SlidingBoundLagging(cfg: Config, run: seq<Action>, user: string, from: int, k: nat, lag: nat)
    requires cfg.Valid() && LagWithinWindow(cfg, run) && LagsBy(run, user, lag)
    ensures Granted(cfg, run, user, from, from + k * cfg.window) <=
      (k + 1) * cfg.limit - 1 + Starts(lag, cfg.window) * (cfg.limit - 1)
  {
    hide Exec, Granted, LagsBy, Quota, LagWithinWindow;
    var to, bare := from + k * cfg.window, WithoutCleanups(run);
    GrantedIgnoresCleanups(cfg, run, user, from, to);
    KeepsLag(run, user, lag);
    var g := QuotaHolds(cfg, bare, user, from, k, lag);
    QuotaMeans(cfg, from, k, lag, Lookup(Exec(cfg, bare), user), Granted(cfg, bare, user, from, to), g);
  }

  /**
   If the stamps come in the order of the lock, a user is granted fewer than
   (k + 1) * limit requests in any half-open interval of k windows.
   */
  lemma SlidingBound(cfg: Config, run: seq<Action>, user: string, from: int, k: nat)
    requires cfg.Valid() && Monotone(run)
    ensures Granted(cfg, run, user, from, from + k * cfg.window) < (k + 1) * cfg.limit
  {
    MonotoneLags(cfg, run, user);
    hide Granted, Monotone, LagsBy, LagWithinWindow;
    SlidingBoundLagging(cfg, run, user, from, k, 0);
    assert Starts(0, cfg.window) == 0;
  }

  lemma MonotoneLags(cfg: Config, run: seq<Action>, user: string)
    requires cfg.Valid() && Monotone(run)
    ensures LagWithinWindow(cfg, run) && LagsBy(run, user, 0)
  {
  }

  // ---- Bursts: runs that show the two bounds cannot be improved ----

  function Burst(user: string, at: int, n: nat): (r: seq<Action>)
    ensures |r| == n && forall i :: 0 <= i < n ==> r[i] == Allow(user, at, at)
  {
    seq(n, _ => Allow(user, at, at))
  }

  lemma OneMore(cfg: Config, run: seq<Action>, a: Action, user: string, from: int, to: int)
    requires a.Allow? && a.user == user
    ensures Exec(cfg, run + [a]) == Act(cfg, Exec(cfg, run), a)
    ensures Granted(cfg, run + [a], user, from, to) ==
      Granted(cfg, run, user, from, to) + if Grants(cfg, Exec(cfg, run), a, user, from, to) then 1 else 0
  {
    hide Act, Grants, Granted;
    GrantedStep(cfg, run, a, user, from, to);
    assert (run + [a])[..|run|] == run;
  }

  lemma FitsOne(cfg: Config, m: Buckets, user: string, at: int, from: int, to: int)
    requires user in m && at < m[user].resetAt && m[user].count < cfg.limit
    ensures var a := Allow(user, at, at); var m' := Act(cfg, m, a);
      && user in m' && m'[user].resetAt == m[user].resetAt && m'[user].count == m[user].count + 1
      && (Grants(cfg, m, a, user, from, to) <==> from <= at < to)
  {
  }

  /** Every request of a burst that fits into the user's window is granted. */
  lemma {:induction false} BurstFits(cfg: Config, run: seq<Action>, user: string, at: int, n: nat, from: int, to: int)
    requires user in Exec(cfg, run) && at < Exec(cfg, run)[user].resetAt && Exec(cfg, run)[user].count + n <= cfg.limit
    ensures var all, w := run + Burst(user, at, n), Exec(cfg, run)[user];
      && user in Exec(cfg, all) && Exec(cfg, all)[user].resetAt == w.resetAt && Exec(cfg, all)[user].count == w.count + n
      && Granted(cfg, all, user, from, to) == Granted(cfg, run, user, from, to) + if from <= at < to then n else 0
  {
    hide Exec, Granted, Act, Grants;
    if n == 0 {
      assert run + Burst(user, at, 0) == run;
    } else {
      BurstFits(cfg, run, user, at, n - 1, from, to);
      var before, a := run + Burst(user, at, n - 1), Allow(user, at, at);
      OneMore(cfg, before, a, user, from, to);
      FitsOne(cfg, Exec(cfg, before), user, at, from, to);
      assert run + Burst(user, at, n) == before + [a];
    }
  }

  /** A burst of `limit` requests that opens a window fills it. */
  lemma BurstFills(cfg: Config, run: seq<Action>, user: string, at: int, from: int, to: int)
    requires cfg.Valid() && Expired(Lookup(Exec(cfg, run), user), at)
    ensures var all := run + Burst(user, at, cfg.limit);
      && user in Exec(cfg, all) && Exec(cfg, all)[user].resetAt == at + cfg.window && Exec(cfg, all)[user].count == cfg.limit
      && Granted(cfg, all, user, from, to) == Granted(cfg, run, user, from, to) + if from <= at < to then cfg.limit else 0
  {
    hide Exec, Granted, Act, Grants, Expired, Lookup;
    var a := Allow(user, at, at);
    OneMore(cfg, run, a, user, from, to);
    OpensOne(cfg, Exec(cfg, run), user, at, from, to);
    BurstFits(cfg, run + [a], user, at, cfg.limit - 1, from, to);
    assert run + Burst(user, at, cfg.limit) == run + [a] + Burst(user, at, cfg.limit - 1);
  }

  lemma OpensOne(cfg: Config, m: Buckets, user: string, at: int, from: int, to: int)
    requires Expired(Lookup(m, user), at)
    ensures var a := Allow(user, at, at); var m' := Act(cfg, m, a);
      && user in m' && m'[user].resetAt == at + cfg.window && m'[user].count == 1
      && (Grants(cfg, m, a, user, from, to) <==> from <= at < to)
  {
  }

  /** One request at 0, the rest of that window at its last instant, then k full bursts. */
  function TightRun(cfg: Config, user: string, k: nat): seq<Action>
    requires cfg.limit > 0 && cfg.window > 0
  {
    if k == 0 then [Allow(user, 0, 0)] + Burst(user, cfg.window - 1, cfg.limit - 1)
    else TightRun(cfg, user, k - 1) + Burst(user, Times(k, cfg.window), cfg.limit)
  }

  lemma {:induction false} TightRunSorted(cfg: Config, user: string, k: nat)
    requires cfg.Valid()
    ensures Monotone(TightRun(cfg, user, k))
    ensures forall i :: 0 <= i < |TightRun(cfg, user, k)| ==> TightRun(cfg, user, k)[i].at < Times(k, cfg.window) + cfg.window
  {
    if k > 0 { TightRunSorted(cfg, user, k - 1); }
  }

  lemma TightStart(cfg: Config, user: string, to: int)
    requires cfg.Valid() && 2 <= cfg.window <= to
    ensures var run := TightRun(cfg, user, 0);
      && user in Exec(cfg, run) && Exec(cfg, run)[user].resetAt == cfg.window
      && Granted(cfg, run, user, cfg.window - 1, to) == cfg.limit - 1
  {
    var a := Allow(user, 0, 0);
    OneMore(cfg, [], a, user, cfg.window - 1, to);
    assert [] + [a] == [a];
    BurstFits(cfg, [a], user, cfg.window - 1, cfg.limit - 1, cfg.window - 1, to);
  }

  /** The k-th full burst comes as the window before it ends. */
  lemma {:induction false} TightRunGrants(cfg: Config, user: string, k: nat, to: int)
    requires cfg.Valid() && cfg.window >= 2 && Times(k, cfg.window) < to && cfg.window <= to
    ensures var run := TightRun(cfg, user, k);
      && user in Exec(cfg, run) && Exec(cfg, run)[user].resetAt == Times(k, cfg.window) + cfg.window
      && Granted(cfg, run, user, cfg.window - 1, to) == cfg.limit - 1 + Times(k, cfg.limit)
  {
    hide Exec, Granted;
    if k == 0 {
      TightStart(cfg, user, to);
    } else {
      TightRunGrants(cfg, user, k - 1, to);
      TimesStep(k, cfg.window);
      BurstFills(cfg, TightRun(cfg, user, k - 1), user, Times(k, cfg.window), cfg.window - 1, to);
    }
  }

  /** TightRun(k), and then c windows that open late and grant the rest of their limit to requests that lag. */
  function LateRun(cfg: Config, user: string, k: nat, c: nat): seq<Action>
    requires cfg.limit > 0 && cfg.window > 0
  {
    if c == 0 then TightRun(cfg, user, k)
    else
      LateRun(cfg, user, k, c - 1) + [Allow(user, Times(k + c, cfg.window), Times(k + c, cfg.window))]
      + Burst(user, Times(k, cfg.window), cfg.limit - 1)
  }

  /** One request opens a window, and a burst that lags behind it is granted all the same. */
  lemma LateBurst(cfg: Config, run: seq<Action>, user: string, opens: int, at: int, from: int, to: int)
    requires cfg.Valid() && Expired(Lookup(Exec(cfg, run), user), opens) && from <= at < to <= opens && at < opens + cfg.window
    ensures var all := run + [Allow(user, opens, opens)] + Burst(user, at, cfg.limit - 1);
      && user in Exec(cfg, all) && Exec(cfg, all)[user].resetAt == opens + cfg.window
      && Granted(cfg, all, user, from, to) == Granted(cfg, run, user, from, to) + cfg.limit - 1
  {
    hide Exec, Granted, Act, Grants, Expired, Lookup;
    var a := Allow(user, opens, opens);
    OneMore(cfg, run, a, user, from, to);
    OpensOne(cfg, Exec(cfg, run), user, opens, from, to);
    BurstFits(cfg, run + [a], user, at, cfg.limit - 1, from, to);
  }

  lemma {:induction false} LateRunGrants(cfg: Config, user: string, k: nat, c: nat)
    requires cfg.Valid() && cfg.window >= 2 && k >= 1
    ensures var run, from := LateRun(cfg, user, k, c), cfg.window - 1;
      && user in Exec(cfg, run) && Exec(cfg, run)[user].resetAt == Times(k + c, cfg.window) + cfg.window
      && Granted(cfg, run, user, from, from + Times(k, cfg.window)) == cfg.limit - 1 + Times(k, cfg.limit) + Times(c, cfg.limit - 1)
  {
    hide Exec, Granted;
    var to := cfg.window - 1 + Times(k, cfg.window);
    TimesStep(k, cfg.window);
    if c == 0 {
      TightRunGrants(cfg, user, k, to);
    } else {
      LateRunGrants(cfg, user, k, c - 1);
      TimesStep(k + c, cfg.window);
      TimesGrows(k, k + c - 1, cfg.window);
      LateBurst(cfg, LateRun(cfg, user, k, c - 1), user, Times(k + c, cfg.window), Times(k, cfg.window), cfg.window - 1, to);
    }
  }

  lemma TightRunEnds(cfg: Config, user: string, k: nat)
    requires cfg.Valid() && k >= 1
    ensures forall i :: 0 <= i < |TightRun(cfg, user, k)| ==> TightRun(cfg, user, k)[i].at <= Times(k, cfg.window)
  {
    TightRunSorted(cfg, user, k - 1);
    TimesStep(k, cfg.window);
  }

  lemma {:induction false} LateRunLags(cfg: Config, user: string, k: nat, c: nat, lag: nat)
    requires cfg.Valid() && k >= 1 && Times(c, cfg.window) <= lag
    ensures LagsBy(LateRun(cfg, user, k, c), user, lag)
    ensures forall i :: 0 <= i < |LateRun(cfg, user, k, c)| ==>
      LateRun(cfg, user, k, c)[i].Allow? && LateRun(cfg, user, k, c)[i].at <= Times(k + c, cfg.window)
  {
    if c == 0 {
      TightRunSorted(cfg, user, k);
      TightRunEnds(cfg, user, k);
      TightRunAsks(cfg, user, k);
    } else {
      TimesSum(k, c, cfg.window);
      LateRunLags(cfg, user, k, c - 1, lag);
      TimesStep(k + c, cfg.window);
      var before, at := LateRun(cfg, user, k, c - 1), Times(k + c, cfg.window);
      var a := Allow(user, at, at);
      LagsAppend(before, [a], user, lag, at, at);
      LagsAppend(before + [a], Burst(user, Times(k, cfg.window), cfg.limit - 1), user, lag, Times(k, cfg.window), at);
    }
  }

  lemma {:induction false} TightRunAsks(cfg: Config, user: string, k: nat)
    requires cfg.Valid()
    ensures forall i :: 0 <= i < |TightRun(cfg, user, k)| ==> TightRun(cfg, user, k)[i].Allow?
  {
    if k > 0 { TightRunAsks(cfg, user, k - 1); }
  }

  lemma LagsAppend(run: seq<Action>, more: seq<Action>, user: string, lag: nat, at: int, latest: int)
    requires LagsBy(run, user, lag) && latest <= at + lag
    requires forall i :: 0 <= i < |run| ==> run[i].at <= latest
    requires forall i :: 0 <= i < |more| ==> more[i].at == at
    ensures LagsBy(run + more, user, lag)
  {
    var all := run + more;
    forall i | 0 <= i < |all| ensures all[i] == if i < |run| then run[i] else more[i - |run|] {}
  }

  /**
   Both bounds are attained: for every limit, every k, every window longer than one tick of
   the clock and every lag of c windows. A lag of no windows leaves the stamps sorted.
   */
  lemma SlidingBoundTight(cfg: Config, user: string, k: nat, c: nat)
    requires cfg.Valid() && cfg.window >= 2 && k >= 1
    ensures var run, from := LateRun(cfg, user, k, c), cfg.window - 1;
      && LagWithinWindow(cfg, run) && LagsBy(run, user, c * cfg.window) && (c == 0 ==> Monotone(run))
      && Granted(cfg, run, user, from, from + k * cfg.window) ==
           (k + 1) * cfg.limit - 1 + Starts(c * cfg.window, cfg.window) * (cfg.limit - 1)
  {
    hide *;
    LateRunOrder(cfg, user, k, c);
    LateRunGrants(cfg, user, k, c);
    LateRunProducts(cfg, k, c);
  }

  lemma LateRunOrder(cfg: Config, user: string, k: nat, c: nat)
    requires cfg.Valid() && k >= 1
    ensures var run := LateRun(cfg, user, k, c);
      LagWithinWindow(cfg, run) && LagsBy(run, user, c * cfg.window) && (c == 0 ==> Monotone(run))
  {
    TimesMeans(c, cfg.window);
    LateRunLags(cfg, user, k, c, c * cfg.window);
    TightRunSorted(cfg, user, k);
    hide TightRun, LagsBy, Monotone;
  }

  lemma LateRunProducts(cfg: Config, k: nat, c: nat)
    requires cfg.Valid()
    ensures Times(k, cfg.window) == k * cfg.window
    ensures cfg.limit - 1 + Times(k, cfg.limit) + Times(c, cfg.limit - 1) ==
      (k + 1) * cfg.limit - 1 + Starts(c * cfg.window, cfg.window) * (cfg.limit - 1)
  {
    TimesMeans(k, cfg.window);
    TimesMeans(k, cfg.limit);
    TimesMeans(c, cfg.limit - 1);
    WholeStarts(c, cfg.window);
    assert (k + 1) * cfg.limit == k * cfg.limit + cfg.limit;
    hide Times, Starts;
  }

  lemma WholeStarts(c: nat, window: int)
    requires window > 0
    ensures Starts(c * window, window) == c
  {
    QuotientIs(c * window + window - 1, window, c);
  }

  lemma {:induction false} OnlyRequests(run: seq<Action>)
    requires forall i :: 0 <= i < |run| ==> run[i].Allow?
    ensures WithoutCleanups(run) == run
  {
    if run != [] { OnlyRequests(run[..|run| - 1]); }
  }

  /**
   The lag bound of CleanupInvisible is exact: under every setting, for every request stamp
   and every cleanup stamp further ahead than that, there is a run in which the cleanup
   lets in a user who has spent the limit.
   */
  lemma CleanupVisibleBeyondLag(cfg: Config, user: string, at: int, cleanup: int)
    requires cfg.Valid() && cleanup > at + cfg.window + 1
    ensures var run, a := Burst(user, at + 1 - cfg.window, cfg.limit) + [Cleanup(cleanup)], Allow(user, at, at);
      && Reply(cfg, Exec(cfg, run), a).allowed
      && !Reply(cfg, Exec(cfg, WithoutCleanups(run)), a).allowed
  {
    hide *;
    var spent := BurstRun(cfg, user, at + 1 - cfg.window);
    CleanupLetsIn(cfg, spent, user, at, cleanup);
  }

  /** The burst from an empty limiter, with the window it fills. */
  lemma BurstRun(cfg: Config, user: string, at: int) returns (spent: seq<Action>)
    requires cfg.Valid()
    ensures spent == Burst(user, at, cfg.limit) && forall i :: 0 <= i < |spent| ==> spent[i].Allow?
    ensures user in Exec(cfg, spent) && Exec(cfg, spent)[user].resetAt == at + cfg.window && Exec(cfg, spent)[user].count == cfg.limit
  {
    spent := Burst(user, at, cfg.limit);
    hide Exec, Burst;
    NobodyYet(cfg, user, at);
    BurstFills(cfg, [], user, at, 0, 0);
    assert [] + spent == spent;
  }

  lemma CleanupLetsIn(cfg: Config, spent: seq<Action>, user: string, at: int, cleanup: int)
    requires cfg.Valid() && cleanup > at + cfg.window + 1 && forall i :: 0 <= i < |spent| ==> spent[i].Allow?
    requires user in Exec(cfg, spent) && Exec(cfg, spent)[user].resetAt == at + 1 && Exec(cfg, spent)[user].count == cfg.limit
    ensures Reply(cfg, Exec(cfg, spent + [Cleanup(cleanup)]), Allow(user, at, at)).allowed
    ensures !Reply(cfg, Exec(cfg, WithoutCleanups(spent + [Cleanup(cleanup)])), Allow(user, at, at)).allowed
  {
    hide Exec, WithoutCleanups;
    OnlyRequests(spent);
    CleanupEnds(cfg, spent, cleanup);
    SpentLetIn(cfg, Exec(cfg, spent), user, at, cleanup);
  }

  lemma NobodyYet(cfg: Config, user: string, at: int)
    ensures Expired(Lookup(Exec(cfg, []), user), at)
  {
  }

  lemma SpentLetIn(cfg: Config, m: Buckets, user: string, at: int, cleanup: int)
    requires cfg.Valid() && user in m && m[user].count == cfg.limit && m[user].resetAt == at + 1 && cleanup > at + 1 + cfg.window
    ensures Reply(cfg, Act(cfg, m, Cleanup(cleanup)), Allow(user, at, at)).allowed
    ensures !Reply(cfg, m, Allow(user, at, at)).allowed
  {
  }

  lemma CleanupEnds(cfg: Config, run: seq<Action>, at: int)
    ensures Exec(cfg, run + [Cleanup(at)]) == Act(cfg, Exec(cfg, run), Cleanup(at))
    ensures WithoutCleanups(run + [Cleanup(at)]) == WithoutCleanups(run)
  {
    hide Act, WithoutCleanups;
    WithoutStep(run, Cleanup(at));
    assert (run + [Cleanup(at)])[..|run|] == run;
  }

  // ---- What an answer says about the future ----

  function RequestsOf(run: seq<Action>, user: string): nat {
    if run == [] then 0
    else RequestsOf(run[..|run| - 1], user) + if run[|run| - 1].Allow? && run[|run| - 1].user == user then 1 else 0
  }

  function ExecFrom(cfg: Config, m: Buckets, run: seq<Action>): Buckets {
    if run == [] then m else Act(cfg, ExecFrom(cfg, m, run[..|run| - 1]), run[|run| - 1])
  }

  /** All requests of the user are stamped before resetAt. */
  ghost predicate AllBefore(run: seq<Action>, user: string, resetAt: int) {
    forall i :: 0 <= i < |run| && run[i].Allow? && run[i].user == user ==> run[i].at < resetAt
  }

  /** No request of the user stamped before resetAt comes after a cleanup that would have deleted its window. */
  ghost predicate Undisturbed(cfg: Config, run: seq<Action>, user: string, resetAt: int) {
    forall i, j ::
      0 <= i < j < |run| && run[i].Cleanup? && run[j].Allow? && run[j].user == user && run[j].at < resetAt ==>
        run[i].at <= resetAt + cfg.window
  }

  /** A run whose requests do not lag its cleanups is undisturbed, whatever the window. */
  lemma LagUndisturbs(cfg: Config, run: seq<Action>, user: string, resetAt: int)
    requires LagWithinWindow(cfg, run)
    ensures Undisturbed(cfg, run, user, resetAt)
  {
  }

  /** Some cleanup of the run came more than a window after resetAt. */
  ghost predicate CleanedLate(cfg: Config, run: seq<Action>, resetAt: int) {
    exists i :: 0 <= i < |run| && run[i].Cleanup? && run[i].at > resetAt + cfg.window
  }

  /** The user's window is still the one ending at resetAt, or a late cleanup has deleted it. */
  lemma {:induction false} WindowDuring(cfg: Config, m: Buckets, user: string, run: seq<Action>)
    requires cfg.Valid() && user in m && 1 <= m[user].count <= cfg.limit
    requires AllBefore(run, user, m[user].resetAt) && Undisturbed(cfg, run, user, m[user].resetAt)
    ensures var w := Lookup(ExecFrom(cfg, m, run), user);
      && (w.None? ==> CleanedLate(cfg, run, m[user].resetAt))
      && (w.Some? ==> w.value.resetAt == m[user].resetAt
                      && w.value.count == Least(cfg.limit, m[user].count + RequestsOf(run, user)))
  {
    if run != [] {
      var before, a, r := run[..|run| - 1], run[|run| - 1], m[user].resetAt;
      WindowDuring(cfg, m, user, before);
      if CleanedLate(cfg, before, r) {
        var i :| 0 <= i < |before| && before[i].Cleanup? && before[i].at > r + cfg.window;
        assert run[i] == before[i];
      }
    }
  }

  lemma {:induction false} CountsWithinLimit(cfg: Config, run: seq<Action>, user: string)
    requires cfg.Valid()
    ensures user in Exec(cfg, run) ==> 1 <= Exec(cfg, run)[user].count <= cfg.limit
  {
    if run != [] { CountsWithinLimit(cfg, run[..|run| - 1], user); }
  }

  /**
   After an answer with Remaining r and ResetAt R, exactly the first r of the user's next
   requests stamped before R are granted, the others are denied with the same R, and the
   first one at or after R opens a new window, whatever other users do and however many
   cleanups have run by then.
   */
  lemma AnswerForecasts(cfg: Config, run: seq<Action>, a: Action, next: seq<Action>, b: Action)
    requires cfg.Valid() && a.Allow? && b.Allow? && b.user == a.user
    requires var resetAt := Reply(cfg, Exec(cfg, run), a).resetAt;
      AllBefore(next, a.user, resetAt) && Undisturbed(cfg, next + [b], a.user, resetAt)
    ensures var now, i := Reply(cfg, Exec(cfg, run), a), RequestsOf(next, a.user);
      var answer := Reply(cfg, ExecFrom(cfg, Act(cfg, Exec(cfg, run), a), next), b);
      if b.at < now.resetAt then
        answer.resetAt == now.resetAt && answer.allowed == (i < now.remaining) &&
        answer.remaining == if i < now.remaining then now.remaining - 1 - i else 0
      else answer.allowed && answer.remaining == cfg.limit - 1 && answer.resetAt == b.at + cfg.window
  {
    hide Exec, ExecFrom, RequestsOf;
    CountsWithinLimit(cfg, run, a.user);
    var resetAt := Reply(cfg, Exec(cfg, run), a).resetAt;
    UndisturbedPart(cfg, next, b, a.user, resetAt);
    hide Undisturbed, CleanedLate;
    WindowDuring(cfg, Act(cfg, Exec(cfg, run), a), a.user, next);
  }

  lemma UndisturbedPart(cfg: Config, next: seq<Action>, b: Action, user: string, resetAt: int)
    requires Undisturbed(cfg, next + [b], user, resetAt) && b.Allow? && b.user == user
    ensures Undisturbed(cfg, next, user, resetAt)
    ensures b.at < resetAt ==> !CleanedLate(cfg, next, resetAt)
  {
    var all := next + [b];
    forall i | 0 <= i < |next| ensures all[i] == next[i] {}
    assert all[|next|] == b;
  }

  /** A denied user who waits out RetryAfter from the moment it was computed is granted again. */
  lemma RetryAfterSuffices(cfg: Config, run: seq<Action>, a: Action, next: seq<Action>, b: Action)
    requires cfg.Valid() && a.Allow? && b.Allow? && b.user == a.user
    requires var resetAt := Reply(cfg, Exec(cfg, run), a).resetAt;
      AllBefore(next, a.user, resetAt) && Undisturbed(cfg, next + [b], a.user, resetAt)
    requires !Reply(cfg, Exec(cfg, run), a).allowed && a.later + Reply(cfg, Exec(cfg, run), a).retryAfter <= b.at
    ensures Reply(cfg, ExecFrom(cfg, Act(cfg, Exec(cfg, run), a), next), b).allowed
    ensures 0 <= Reply(cfg, Exec(cfg, run), a).retryAfter
  {
    hide Exec, ExecFrom, RequestsOf, Undisturbed;
    AnswerForecasts(cfg, run, a, next, b);
  }
}
