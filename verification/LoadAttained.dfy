/**
 The load bound on a failing upstream cannot be improved: for every setting there is a run
 that reaches it, with sends and all.

 The run: failures - 1 requests fail one after the other, then k requests arrive together
 and fail, which opens the breaker; and whenever openFor is over, k requests arrive
 together in the half-open state and fail.
 */
module LoadAttained {
  import opened Arithmetic
  import opened Wrappers
  import opened Breaker
  import opened RetryTransport
  import opened GatewayLoad

  /** A call all of whose n attempts are refused. */
  function Refused(n: int): Call {
    Call(n, DEFAULT_BACKOFF, false, true, World(_ => Outcome(None, Some("refused")), _ => Ok(NoBody), _ => None))
  }

  function OpsOf(n: int): seq<Op>
    requires n >= 1
  {
    Script(Refused(n), 1).ops
  }

  ghost predicate FailsOnce(ops: seq<Op>) {
    EndsInOneRecord(ops) && ops[|ops| - 1] == Record(false)
  }

  lemma {:induction false} RefusedScript(n: int, k: int)
    requires 1 <= k <= n
    ensures FailsOnce(Script(Refused(n), k).ops) && Sends(Script(Refused(n), k).ops) == n - k + 1
    decreases n - k
  {
    hide BackoffForAttempt;
    var ops := Script(Refused(n), k).ops;
    if k < n {
      RefusedScript(n, k + 1);
      var turn, rest := [Send(k), Sleep(BackoffForAttempt(DEFAULT_BACKOFF, k))], Script(Refused(n), k + 1).ops;
      assert RetryOps(Refused(n), k, Outcome(None, Some("refused"))) == turn;
      assert ops == turn + rest;
      Prepended(turn, rest);
    } else {
      assert ops == [Send(k)] + [Record(false)];
      SendsConcat([Send(k)], [Record(false)]);
    }
  }

  lemma Prepended(turn: seq<Op>, rest: seq<Op>)
    requires |turn| == 2 && turn[0].Send? && turn[1].Sleep? && FailsOnce(rest)
    ensures FailsOnce(turn + rest) && Sends(turn + rest) == Sends(rest) + 1
  {
    SendsConcat(turn, rest);
    assert Sends(turn) == 1;
    forall i | 0 <= i < |turn + rest| - 1 ensures !(turn + rest)[i].Record? {
      if i >= 2 { assert (turn + rest)[i] == rest[i - 2]; }
    }
  }

  // ---- Appending to a failing run ----

  function Repeat<T>(x: T, m: nat): (r: seq<T>)
    ensures |r| == m && forall i :: 0 <= i < m ==> r[i] == x
  {
    seq(m, _ => x)
  }

  lemma FailingAppend(cfg: Config, k: int, run: seq<Action>, a: Action)
    requires Failing(cfg, k, run)
    requires var s := Do(cfg, Exec(cfg, run), a); s.successes == 0 && InFlight(s.threads) <= k
    ensures Failing(cfg, k, run + [a]) && Exec(cfg, run + [a]) == Do(cfg, Exec(cfg, run), a)
  {
    hide Do, InFlight;
    assert (run + [a])[..|run|] == run;
  }

  lemma FailingNow(cfg: Config, k: int, run: seq<Action>)
    requires Failing(cfg, k, run)
    ensures Exec(cfg, run).successes == 0 && InFlight(Exec(cfg, run).threads) <= k
  {
    hide Exec, InFlight;
  }

  /** s after m admitted arrivals. */
  function Joined(s: System, n: int, t: int, m: nat): System
    requires n >= 1
  {
    s.(threads := s.threads + Repeat(OpsOf(n), m),
       breaker := if m > 0 && Probes(s.breaker, t) then s.breaker.(phase := HalfOpen) else s.breaker,
       history := s.history + Repeat(Asked(t), m))
  }

  lemma ArriveOnce(cfg: Config, s: System, n: int, t: int)
    requires n >= 1 && Admits(s.breaker, t)
    ensures Do(cfg, s, Arrive(t, Refused(n))) == Joined(s, n, t, 1)
    ensures InFlight(Joined(s, n, t, 1).threads) == InFlight(s.threads) + 1
  {
    hide Script, Sends, InFlight;
    assert Repeat(OpsOf(n), 1) == [OpsOf(n)];
    assert Repeat(Asked(t), 1) == [Asked(t)];
    AddThread(s.threads, OpsOf(n));
    RefusedScript(n, 1);
  }

  lemma JoinedAgain(s: System, n: int, t: int, m: nat)
    requires n >= 1 && Admits(s.breaker, t)
    ensures Joined(Joined(s, n, t, m), n, t, 1) == Joined(s, n, t, m + 1) && Admits(Joined(s, n, t, m).breaker, t)
  {
    hide OpsOf;
    assert Repeat(OpsOf(n), m) + Repeat(OpsOf(n), 1) == Repeat(OpsOf(n), m + 1);
    assert s.threads + Repeat(OpsOf(n), m) + Repeat(OpsOf(n), 1) == s.threads + Repeat(OpsOf(n), m + 1);
    assert s.history + Repeat(Asked(t), m) + Repeat(Asked(t), 1) == s.history + Repeat(Asked(t), m + 1);
  }

  lemma {:induction false} Arrivals(cfg: Config, k: int, n: int, run: seq<Action>, t: int, m: nat)
    requires n >= 1 && Failing(cfg, k, run) && Admits(Exec(cfg, run).breaker, t)
    requires InFlight(Exec(cfg, run).threads) + m <= k
    ensures var r := run + Repeat(Arrive(t, Refused(n)), m);
      && Failing(cfg, k, r) && Exec(cfg, r) == Joined(Exec(cfg, run), n, t, m)
      && InFlight(Exec(cfg, r).threads) == InFlight(Exec(cfg, run).threads) + m
  {
    hide Failing, Exec, Do, Joined, InFlight, Admits;
    var s, a := Exec(cfg, run), Arrive(t, Refused(n));
    if m == 0 {
      assert run + Repeat(a, 0) == run;
      JoinedNone(s, n, t);
    } else {
      Arrivals(cfg, k, n, run, t, m - 1);
      var r := run + Repeat(a, m - 1);
      JoinedAgain(s, n, t, m - 1);
      ArriveOnce(cfg, Exec(cfg, r), n, t);
      FailingNow(cfg, k, run);
      JoinedKeeps(s, n, t, m);
      FailingAppend(cfg, k, r, a);
      assert r + [a] == run + Repeat(a, m);
    }
  }

  lemma JoinedNone(s: System, n: int, t: int)
    requires n >= 1
    ensures Joined(s, n, t, 0) == s
  {
    hide OpsOf;
    assert s.threads + Repeat(OpsOf(n), 0) == s.threads;
    assert s.history + Repeat(Asked(t), 0) == s.history;
  }

  lemma JoinedKeeps(s: System, n: int, t: int, m: nat)
    requires n >= 1
    ensures Joined(s, n, t, m).successes == s.successes
  {
  }

  // ---- Running a thread to its end ----

  /** s after thread i has run its operations, which end in one recorded failure. */
  function Ended(cfg: Config, s: System, i: nat, t: int): System
    requires i < |s.threads|
  {
    s.(threads := s.threads[i := []], sends := s.sends + Sends(s.threads[i]), failures := s.failures + 1,
       breaker := Apply(cfg, s.breaker, Failed(t)), history := s.history + [Failed(t)])
  }

  /** One step of a thread that ends in a failure: either that failure, or on to the rest. */
  lemma StepOrEnd(cfg: Config, s: System, i: nat, t: int)
    requires i < |s.threads| && FailsOnce(s.threads[i])
    ensures var s', ops := Do(cfg, s, Progress(i, t)), s.threads[i];
      && s'.successes == s.successes
      && (|ops| == 1 ==> s' == Ended(cfg, s, i, t) && InFlight(s'.threads) + 1 == InFlight(s.threads))
      && (|ops| > 1 ==>
            |s'.threads| == |s.threads| && s'.threads[i] == ops[1..] && FailsOnce(ops[1..])
            && Ended(cfg, s', i, t) == Ended(cfg, s, i, t) && InFlight(s'.threads) == InFlight(s.threads))
  {
    hide Apply;
    var ops := s.threads[i];
    UpdateThread(s.threads, i, ops[1..]);
    hide InFlight, PendingSends;
    if |ops| == 1 {
      assert ops[1..] == [] && Sends(ops) == 0;
    } else {
      RestOfOps(ops);
      assert ops[1..][|ops| - 2] == ops[|ops| - 1];
      assert s.threads[i := ops[1..]][i := []] == s.threads[i := []];
    }
  }

  lemma {:induction false} FinishOne(cfg: Config, k: int, run: seq<Action>, i: nat, t: int, m: nat)
    requires Failing(cfg, k, run) && i < |Exec(cfg, run).threads|
    requires FailsOnce(Exec(cfg, run).threads[i]) && |Exec(cfg, run).threads[i]| == m
    ensures var r := run + Repeat(Progress(i, t), m);
      && Failing(cfg, k, r) && Exec(cfg, r) == Ended(cfg, Exec(cfg, run), i, t)
      && InFlight(Exec(cfg, r).threads) + 1 == InFlight(Exec(cfg, run).threads)
    decreases m
  {
    hide Failing, Exec, Do, Ended, InFlight;
    var a, s := Progress(i, t), Exec(cfg, run);
    StepOrEnd(cfg, s, i, t);
    FailingNow(cfg, k, run);
    assert m > 0;
    FailingAppend(cfg, k, run, a);
    if m > 1 {
      FinishOne(cfg, k, run + [a], i, t, m - 1);
      assert run + [a] + Repeat(a, m - 1) == run + Repeat(a, m);
    } else {
      assert run + [a] == run + Repeat(a, m);
    }
  }

  // ---- A batch: m requests arrive at t and then fail ----

  function Finishes(lo: nat, m: nat, t: int, length: nat): seq<Action>
    decreases m
  {
    if m == 0 then [] else Repeat(Progress(lo, t), length) + Finishes(lo + 1, m - 1, t, length)
  }

  function Batch(n: int, admitted: nat, t: int, m: nat): seq<Action>
    requires n >= 1
  {
    Repeat(Arrive(t, Refused(n)), m) + Finishes(admitted, m, t, |OpsOf(n)|)
  }

  /** The threads from lo on are about to run, those before it have ended. */
  ghost predicate Waiting(s: System, n: int, lo: nat)
    requires n >= 1
  {
    lo <= |s.threads| && forall i :: 0 <= i < |s.threads| ==> s.threads[i] == if i < lo then [] else OpsOf(n)
  }

  /** A breaker that has seen c failures and no success. */
  ghost predicate Counts(cfg: Config, b: State, c: nat) {
    b.consecutiveFailed == c && (b.phase == Closed <==> c < cfg.failures)
  }

  ghost predicate OpenedAt(cfg: Config, b: State, t: int) {
    b.phase != Closed ==> b.phase == Open && b.openedUntil == t + cfg.openFor
  }

  lemma CountsFailure(cfg: Config, b: State, c: nat, t: int)
    requires Counts(cfg, b, c)
    ensures Counts(cfg, Apply(cfg, b, Failed(t)), c + 1) && OpenedAt(cfg, Apply(cfg, b, Failed(t)), t)
  {
  }

  lemma {:induction false} FinishAll(cfg: Config, k: int, n: int, run: seq<Action>, lo: nat, m: nat, t: int, c: nat)
    requires n >= 1 && Failing(cfg, k, run) && Waiting(Exec(cfg, run), n, lo) && lo + m == |Exec(cfg, run).threads|
    requires Counts(cfg, Exec(cfg, run).breaker, c)
    ensures var s, r := Exec(cfg, run), run + Finishes(lo, m, t, |OpsOf(n)|); var s' := Exec(cfg, r);
      && Failing(cfg, k, r) && |s'.threads| == |s.threads| && Waiting(s', n, |s.threads|)
      && InFlight(s'.threads) + m == InFlight(s.threads) && s'.sends == s.sends + Times(m, n)
      && Counts(cfg, s'.breaker, c + m) && (m > 0 ==> OpenedAt(cfg, s'.breaker, t))
    decreases m
  {
    hide Failing, Exec, InFlight, OpsOf, Counts, OpenedAt, Apply, FailsOnce, Sends;
    var ops := OpsOf(n);
    if m == 0 {
      assert run + [] == run;
    } else {
      assert FailsOnce(ops) && Sends(ops) == n by { OpsFail(n); }
      FinishOne(cfg, k, run, lo, t, |ops|);
      var next := run + Repeat(Progress(lo, t), |ops|);
      CountsFailure(cfg, Exec(cfg, run).breaker, c, t);
      FinishAll(cfg, k, n, next, lo + 1, m - 1, t, c + 1);
      assert next + Finishes(lo + 1, m - 1, t, |ops|) == run + Finishes(lo, m, t, |ops|);
      if m == 1 { assert Finishes(lo + 1, 0, t, |ops|) == [] && next + [] == next; }
    }
  }

  lemma OpsFail(n: int)
    requires n >= 1
    ensures FailsOnce(OpsOf(n)) && Sends(OpsOf(n)) == n
  {
    RefusedScript(n, 1);
    hide Script, FailsOnce, Sends;
  }

  /** Nobody is in flight after `admitted` requests that all failed. */
  ghost predicate Idle(cfg: Config, k: int, n: int, run: seq<Action>, admitted: nat)
    requires n >= 1
  {
    var s := Exec(cfg, run);
    && Failing(cfg, k, run) && |s.threads| == admitted && Waiting(s, n, admitted) && InFlight(s.threads) == 0
    && s.sends == Times(admitted, n) && Counts(cfg, s.breaker, admitted)
  }

  lemma BatchFails(cfg: Config, k: int, n: int, run: seq<Action>, admitted: nat, t: int, m: nat)
    requires n >= 1 && Idle(cfg, k, n, run, admitted) && Admits(Exec(cfg, run).breaker, t) && 1 <= m <= k
    ensures Idle(cfg, k, n, run + Batch(n, admitted, t, m), admitted + m)
    ensures OpenedAt(cfg, Exec(cfg, run + Batch(n, admitted, t, m)).breaker, t)
  {
    hide Failing, Exec, InFlight, OpsOf, Counts, OpenedAt, Admits;
    var s, arrived := Exec(cfg, run), run + Repeat(Arrive(t, Refused(n)), m);
    Arrivals(cfg, k, n, run, t, m);
    ProbeCounts(cfg, s, n, t, m, admitted);
    FinishAll(cfg, k, n, arrived, admitted, m, t, admitted);
    TimesSum(admitted, m, n);
    assert arrived + Finishes(admitted, m, t, |OpsOf(n)|) == run + Batch(n, admitted, t, m);
  }

  lemma ProbeCounts(cfg: Config, s: System, n: int, t: int, m: nat, c: nat)
    requires n >= 1 && Counts(cfg, s.breaker, c) && Waiting(s, n, |s.threads|)
    ensures var s' := Joined(s, n, t, m);
      Counts(cfg, s'.breaker, c) && Waiting(s', n, |s.threads|) && |s'.threads| == |s.threads| + m && s'.sends == s.sends
  {
    hide OpsOf;
  }

  // ---- The run ----

  function Warmup(n: int, m: nat): seq<Action>
    requires n >= 1
  {
    if m == 0 then [] else Warmup(n, m - 1) + Batch(n, m - 1, 0, 1)
  }

  /** Requests admitted up to the p-th probing period. */
  function Admitted(cfg: Config, k: nat, p: nat): nat
    requires cfg.Valid()
  {
    cfg.failures - 1 + k + Times(p, k)
  }

  ghost function WorstRun(cfg: Config, k: nat, n: int, p: nat): seq<Action>
    requires cfg.Valid() && n >= 1
  {
    if p == 0 then Warmup(n, cfg.failures - 1) + Batch(n, cfg.failures - 1, 0, k)
    else WorstRun(cfg, k, n, p - 1) + Batch(n, Admitted(cfg, k, p - 1), Times(p, cfg.openFor), k)
  }

  lemma {:induction false} WarmupFails(cfg: Config, k: int, n: int, m: nat)
    requires cfg.Valid() && n >= 1 && k >= 1 && m < cfg.failures
    ensures Idle(cfg, k, n, Warmup(n, m), m) && Exec(cfg, Warmup(n, m)).breaker.phase == Closed
  {
    if m == 0 {
      assert Exec(cfg, []) == IDLE;
    } else {
      WarmupFails(cfg, k, n, m - 1);
      BatchFails(cfg, k, n, Warmup(n, m - 1), m - 1, 0, 1);
    }
  }

  lemma {:induction false} WorstRunFails(cfg: Config, k: nat, n: int, p: nat)
    requires cfg.Valid() && n >= 1 && k >= 1
    ensures Idle(cfg, k, n, WorstRun(cfg, k, n, p), Admitted(cfg, k, p))
    ensures var b := Exec(cfg, WorstRun(cfg, k, n, p)).breaker; b.phase == Open && b.openedUntil == Times(p, cfg.openFor) + cfg.openFor
  {
    hide Exec, Batch, Failing, InFlight, Waiting;
    if p == 0 {
      WarmupFails(cfg, k, n, cfg.failures - 1);
      BatchFails(cfg, k, n, Warmup(n, cfg.failures - 1), cfg.failures - 1, 0, k);
    } else {
      WorstRunFails(cfg, k, n, p - 1);
      TimesStep(p, cfg.openFor);
      TimesStep(p, k);
      BatchFails(cfg, k, n, WorstRun(cfg, k, n, p - 1), Admitted(cfg, k, p - 1), Times(p, cfg.openFor), k);
    }
  }

  // ---- Its stamps and its first opening ----

  /** The run is sorted, between 0 and the stamp `to`, and all its calls make n attempts. */
  ghost predicate Orderly(n: int, run: seq<Action>, to: int) {
    && (forall i :: 0 <= i < |run| ==> 0 <= run[i].at <= to)
    && (forall i, j :: 0 <= i < j < |run| ==> run[i].at <= run[j].at)
    && Configured(n, run)
  }

  ghost predicate StepsAt(run: seq<Action>, t: int) {
    forall i :: 0 <= i < |run| ==> run[i].Progress? && run[i].at == t
  }

  lemma StepsAppend(a: seq<Action>, b: seq<Action>, t: int)
    requires StepsAt(a, t) && StepsAt(b, t)
    ensures StepsAt(a + b, t)
  {
  }

  lemma {:induction false} FinishesOrderly(lo: nat, m: nat, t: int, length: nat)
    ensures StepsAt(Finishes(lo, m, t, length), t)
    decreases m
  {
    if m > 0 {
      FinishesOrderly(lo + 1, m - 1, t, length);
      StepsAppend(Repeat(Progress(lo, t), length), Finishes(lo + 1, m - 1, t, length), t);
    }
  }

  lemma OrderlyAppend(n: int, run: seq<Action>, admitted: nat, to: int, t: int, m: nat)
    requires n >= 1 && Orderly(n, run, to) && 0 <= to <= t
    ensures Orderly(n, run + Batch(n, admitted, t, m), t)
  {
    hide OpsOf;
    FinishesOrderly(admitted, m, t, |OpsOf(n)|);
    var batch := Batch(n, admitted, t, m);
    forall i | 0 <= i < |batch| ensures batch[i].at == t && (batch[i].Arrive? ==> batch[i].call == Refused(n)) {
      if i >= m { assert batch[i] == Finishes(admitted, m, t, |OpsOf(n)|)[i - m]; }
    }
    var all := run + batch;
    forall i | 0 <= i < |all| ensures all[i] == if i < |run| then run[i] else batch[i - |run|] {}
    hide Batch, Finishes;
  }

  lemma {:induction false} WarmupOrderly(n: int, m: nat)
    requires n >= 1
    ensures Orderly(n, Warmup(n, m), 0)
  {
    hide Orderly, Batch;
    if m == 0 {
      NothingOrderly(n);
    } else {
      WarmupOrderly(n, m - 1);
      OrderlyAppend(n, Warmup(n, m - 1), m - 1, 0, 0, 1);
    }
  }

  lemma NothingOrderly(n: int)
    ensures Orderly(n, [], 0)
  {
  }

  lemma {:induction false} WorstRunOrderly(cfg: Config, k: nat, n: int, p: nat)
    requires cfg.Valid() && n >= 1
    ensures Orderly(n, WorstRun(cfg, k, n, p), Times(p, cfg.openFor))
  {
    hide Orderly, Batch;
    if p == 0 {
      WarmupOrderly(n, cfg.failures - 1);
      OrderlyAppend(n, Warmup(n, cfg.failures - 1), cfg.failures - 1, 0, 0, k);
    } else {
      WorstRunOrderly(cfg, k, n, p - 1);
      TimesStep(p, cfg.openFor);
      OrderlyAppend(n, WorstRun(cfg, k, n, p - 1), Admitted(cfg, k, p - 1), Times(p - 1, cfg.openFor), Times(p, cfg.openFor), k);
    }
  }

  lemma {:induction false} OpeningStays(cfg: Config, run: seq<Action>, more: seq<Action>)
    requires FirstOpening(cfg, run).Some?
    ensures FirstOpening(cfg, run + more) == FirstOpening(cfg, run)
  {
    hide Exec;
    if more == [] {
      assert run + more == run;
    } else {
      OpeningStays(cfg, run, more[..|more| - 1]);
      assert (run + more)[..|run + more| - 1] == run + more[..|more| - 1];
    }
  }

  lemma {:induction false} OpensAtZero(cfg: Config, run: seq<Action>)
    requires forall i :: 0 <= i < |run| ==> run[i].at == 0
    ensures FirstOpening(cfg, run).Some? ==> FirstOpening(cfg, run) == Some(0)
    ensures run != [] && Exec(cfg, run).breaker.phase == Open ==> FirstOpening(cfg, run).Some?
  {
    hide Exec;
    if run != [] { OpensAtZero(cfg, run[..|run| - 1]); }
  }

  lemma {:induction false} WorstRunOpens(cfg: Config, k: nat, n: int, p: nat)
    requires cfg.Valid() && n >= 1 && k >= 1
    ensures FirstOpening(cfg, WorstRun(cfg, k, n, p)) == Some(0)
  {
    if p == 0 {
      var run := WorstRun(cfg, k, n, 0);
      WorstRunOrderly(cfg, k, n, 0);
      WorstRunFails(cfg, k, n, 0);
      hide Exec, WorstRun, Failing, InFlight;
      if run == [] { ExecNothing(cfg); }
      OpensAtZero(cfg, run);
    } else {
      WorstRunOpens(cfg, k, n, p - 1);
      hide FirstOpening, Batch;
      OpeningStays(cfg, WorstRun(cfg, k, n, p - 1), Batch(n, Admitted(cfg, k, p - 1), Times(p, cfg.openFor), k));
    }
  }

  lemma ExecNothing(cfg: Config)
    ensures Exec(cfg, []).breaker.phase == Closed
  {
  }

  /**
   LoadBound is attained for every threshold, every k, every number of attempts and every
   number p of probing periods: a run over p * openFor after the first opening, with no
   success and at most k requests in flight, admits failures + k - 1 + k * p requests and
   makes n sends for each.
   */
  lemma LoadBoundAttained(cfg: Config, k: nat, n: int, p: nat)
    requires cfg.Valid() && n >= 1 && k >= 1
    ensures var run, most := WorstRun(cfg, k, n, p), cfg.failures + k - 1 + k * p;
      && Configured(n, run) && Clocked(run) && Failing(cfg, k, run) && FirstOpening(cfg, run) == Some(0)
      && (forall i :: 0 <= i < |run| ==> run[i].at <= p * cfg.openFor)
      && |Exec(cfg, run).threads| == most && Exec(cfg, run).sends == n * most
  {
    hide *;
    WorstRunOpens(cfg, k, n, p);
    WorstRunFails(cfg, k, n, p);
    IdleMeans(cfg, k, n, WorstRun(cfg, k, n, p), Admitted(cfg, k, p));
    AdmittedMeans(cfg, k, n, p);
    WorstRunClocked(cfg, k, n, p);
  }

  lemma WorstRunClocked(cfg: Config, k: nat, n: int, p: nat)
    requires cfg.Valid() && n >= 1
    ensures var run := WorstRun(cfg, k, n, p);
      Configured(n, run) && Clocked(run) && forall i :: 0 <= i < |run| ==> run[i].at <= p * cfg.openFor
  {
    WorstRunOrderly(cfg, k, n, p);
    hide WorstRun, Configured;
    TimesMeans(p, cfg.openFor);
  }

  lemma IdleMeans(cfg: Config, k: int, n: int, run: seq<Action>, admitted: nat)
    requires n >= 1 && Idle(cfg, k, n, run, admitted)
    ensures Failing(cfg, k, run) && |Exec(cfg, run).threads| == admitted && Exec(cfg, run).sends == Times(admitted, n)
  {
    hide Exec, Failing, Waiting, Counts, InFlight, Times;
  }

  lemma AdmittedMeans(cfg: Config, k: nat, n: nat, p: nat)
    requires cfg.Valid()
    ensures Admitted(cfg, k, p) == cfg.failures + k - 1 + k * p
    ensures Times(Admitted(cfg, k, p), n) == n * (cfg.failures + k - 1 + k * p)
  {
    TimesMeans(p, k);
    TimesMeans(Admitted(cfg, k, p), n);
    hide Times;
  }
}
