/**
 Concurrent requests through one breaker (resilience.go). Each admitted request is a
 thread that still has to run the rest of its RoundTrip script; threads interleave in any
 way, and an action's stamp is the clock reading it uses.
 */
module GatewayLoad {
  import opened Arithmetic
  import opened Wrappers
  import opened Breaker
  import opened RetryTransport

  datatype Action = Arrive(at: int, call: Call) | Progress(thread: nat, at: int)

  /** threads[i] holds what the i-th admitted request still has to do. */
  datatype System = System(
    breaker: State, history: seq<Event>, threads: seq<seq<Op>>,
    sends: nat, successes: nat, failures: nat, rejected: nat)

  const IDLE := System(INITIAL, [], [], 0, 0, 0, 0)

  function Arrival(cfg: Config, s: System, at: int, call: Call): System
    requires call.attempts >= 1
  {
    var s' := s.(breaker := Apply(cfg, s.breaker, Asked(at)), history := s.history + [Asked(at)]);
    if Admits(s.breaker, at) then s'.(threads := s.threads + [Script(call, 1).ops])
    else s'.(rejected := s.rejected + 1)
  }

  function Advance(cfg: Config, s: System, i: nat, at: int): System
    requires i < |s.threads| && s.threads[i] != []
  {
    var s' := s.(threads := s.threads[i := s.threads[i][1..]]);
    match s.threads[i][0]
    case Send(_) => s'.(sends := s.sends + 1)
    case Record(ok) =>
      var e := OutcomeEvent(ok, at);
      s'.(breaker := Apply(cfg, s.breaker, e), history := s.history + [e],
          successes := s.successes + (if ok then 1 else 0), failures := s.failures + (if ok then 0 else 1))
    case _ => s'
  }

  function Do(cfg: Config, s: System, a: Action): System {
    match a
    case Arrive(at, call) => if call.attempts >= 1 then Arrival(cfg, s, at, call) else s
    case Progress(i, at) => if i < |s.threads| && s.threads[i] != [] then Advance(cfg, s, i, at) else s
  }

  function Exec(cfg: Config, actions: seq<Action>): System {
    if actions == [] then IDLE else Do(cfg, Exec(cfg, actions[..|actions| - 1]), actions[|actions| - 1])
  }

  /** Every request goes through a transport configured for n attempts. */
  ghost predicate Configured(n: int, actions: seq<Action>) {
    forall i :: 0 <= i < |actions| && actions[i].Arrive? ==> actions[i].call.Valid() && actions[i].call.attempts == n
  }

  function InFlight(threads: seq<seq<Op>>): nat {
    if threads == [] then 0
    else InFlight(threads[..|threads| - 1]) + (if threads[|threads| - 1] != [] then 1 else 0)
  }

  function PendingSends(threads: seq<seq<Op>>): nat {
    if threads == [] then 0
    else PendingSends(threads[..|threads| - 1]) + Sends(threads[|threads| - 1])
  }

  lemma {:induction false} UpdateThread(threads: seq<seq<Op>>, i: nat, ops: seq<Op>)
    requires i < |threads|
    ensures InFlight(threads[i := ops]) + (if threads[i] != [] then 1 else 0) == InFlight(threads) + (if ops != [] then 1 else 0)
    ensures PendingSends(threads[i := ops]) + Sends(threads[i]) == PendingSends(threads) + Sends(ops)
  {
    var last := |threads| - 1;
    if i < last {
      UpdateThread(threads[..last], i, ops);
      assert threads[i := ops][..last] == threads[..last][i := ops];
    } else {
      assert threads[i := ops][..last] == threads[..last];
    }
  }

  lemma AddThread(threads: seq<seq<Op>>, ops: seq<Op>)
    ensures InFlight(threads + [ops]) == InFlight(threads) + (if ops != [] then 1 else 0)
    ensures PendingSends(threads + [ops]) == PendingSends(threads) + Sends(ops)
  {
    assert (threads + [ops])[..|threads|] == threads;
  }

  /**
   Conservation: every admitted request has recorded exactly one outcome or is still in
   flight, rejected ones recorded none, and no more base sends were made than admitted
   requests times attempts.
   */
  ghost predicate Accounts(cfg: Config, n: int, s: System) {
    && s.breaker == Replay(cfg, s.history)
    && |s.threads| == s.successes + s.failures + InFlight(s.threads)
    && s.sends + PendingSends(s.threads) <= n * |s.threads|
    && forall i :: 0 <= i < |s.threads| && s.threads[i] != [] ==> EndsInOneRecord(s.threads[i])
  }

  lemma ReplayAppend(cfg: Config, h: seq<Event>, e: Event)
    ensures Replay(cfg, h + [e]) == Apply(cfg, Replay(cfg, h), e)
  {
    hide Apply;
    assert (h + [e])[..|h|] == h;
  }

  lemma AdmittedAccounts(cfg: Config, n: int, s: System, ops: seq<Op>)
    requires Accounts(cfg, n, s) && EndsInOneRecord(ops) && Sends(ops) <= n
    ensures Accounts(cfg, n, s.(threads := s.threads + [ops]))
  {
    hide Replay, Sends, InFlight, PendingSends, EndsInOneRecord;
    AddThread(s.threads, ops);
    assert ops != [] by { NotEmpty(ops); }
    assert n * (|s.threads| + 1) == n * |s.threads| + n;
  }

  lemma NotEmpty(ops: seq<Op>)
    requires EndsInOneRecord(ops)
    ensures ops != []
  {
  }

  lemma AskedAccounts(cfg: Config, n: int, s: System, at: int)
    requires Accounts(cfg, n, s)
    ensures Accounts(cfg, n, s.(breaker := Apply(cfg, s.breaker, Asked(at)), history := s.history + [Asked(at)]))
  {
    ReplayAppend(cfg, s.history, Asked(at));
    hide Replay, Apply, Sends, InFlight, PendingSends, EndsInOneRecord;
  }

  lemma ArrivalAccounts(cfg: Config, n: int, s: System, at: int, call: Call)
    requires Accounts(cfg, n, s) && call.Valid() && call.attempts == n
    ensures Accounts(cfg, n, Arrival(cfg, s, at, call))
  {
    var last := OneCall(call);
    hide Script, Replay, Apply, Sends, InFlight, PendingSends, EndsInOneRecord, StopsAt, Conclusive;
    AskedAccounts(cfg, n, s, at);
    AdmittedAccounts(cfg, n, s.(breaker := Apply(cfg, s.breaker, Asked(at)), history := s.history + [Asked(at)]), Script(call, 1).ops);
  }

  lemma AdvanceAccounts(cfg: Config, n: int, s: System, i: nat, at: int)
    requires Accounts(cfg, n, s) && i < |s.threads| && s.threads[i] != []
    ensures Accounts(cfg, n, Advance(cfg, s, i, at))
  {
    hide Apply, Replay, InFlight, PendingSends;
    var ops := s.threads[i];
    UpdateThread(s.threads, i, ops[1..]);
    RestOfOps(ops);
    hide Sends, EndsInOneRecord;
    if ops[0].Record? { ReplayAppend(cfg, s.history, OutcomeEvent(ops[0].ok, at)); }
  }

  lemma RestOfOps(ops: seq<Op>)
    requires EndsInOneRecord(ops)
    ensures Sends(ops) == Sends(ops[1..]) + if ops[0].Send? then 1 else 0
    ensures if ops[0].Record? then ops[1..] == [] else ops[1..] != [] && EndsInOneRecord(ops[1..])
  {
    if !ops[0].Record? { assert ops[1..][|ops| - 2] == ops[|ops| - 1]; }
  }

  /** Accounts holds in every reachable state of every interleaving. */
  lemma {:induction false} AlwaysAccounts(cfg: Config, n: int, actions: seq<Action>)
    requires n >= 1 && Configured(n, actions)
    ensures Accounts(cfg, n, Exec(cfg, actions))
  {
    if actions != [] {
      var before, a := actions[..|actions| - 1], actions[|actions| - 1];
      AlwaysAccounts(cfg, n, before);
      var s := Exec(cfg, before);
      match a
      case Arrive(at, call) => ArrivalAccounts(cfg, n, s, at, call);
      case Progress(i, at) => if i < |s.threads| && s.threads[i] != [] { AdvanceAccounts(cfg, n, s, i, at); }
    }
  }

  // ---- Load on a failing upstream ----

  /**
   The clock never runs backwards. A failure's stamp is read under the lock, so no earlier
   stamp is later; an arrival's is read before the lock and may be older than earlier ones.
   */
  ghost predicate Clocked(actions: seq<Action>) {
    forall i, j :: 0 <= i < j < |actions| && actions[j].Progress? ==> actions[i].at <= actions[j].at
  }

  /** The latest stamp so far. */
  ghost function Latest(actions: seq<Action>): int {
    if actions == [] then 0
    else if |actions| == 1 then actions[0].at
    else
      var before, at := Latest(actions[..|actions| - 1]), actions[|actions| - 1].at;
      if before < at then at else before
  }

  lemma {:induction false} LatestIsStamp(actions: seq<Action>)
    requires actions != []
    ensures exists i :: 0 <= i < |actions| && actions[i].at == Latest(actions)
    ensures forall i :: 0 <= i < |actions| ==> actions[i].at <= Latest(actions)
  {
    if |actions| == 1 {
      assert actions[0].at == Latest(actions);
    } else {
      var before, last := actions[..|actions| - 1], |actions| - 1;
      LatestIsStamp(before);
      var i :| 0 <= i < |before| && before[i].at == Latest(before);
      assert actions[i] == before[i];
      if Latest(before) < actions[last].at { assert actions[last].at == Latest(actions); }
      else { assert actions[i].at == Latest(actions); }
      forall j | 0 <= j < |before| ensures actions[j].at <= Latest(before) { assert before[j] == actions[j]; }
    }
  }

  /** No success is ever recorded and at most k requests are in flight at any moment. */
  ghost predicate Failing(cfg: Config, k: int, actions: seq<Action>) {
    && Exec(cfg, actions).successes == 0
    && InFlight(Exec(cfg, actions).threads) <= k
    && (actions == [] || Failing(cfg, k, actions[..|actions| - 1]))
  }

  /** The stamp at which the breaker was first left open. */
  ghost function FirstOpening(cfg: Config, actions: seq<Action>): Option<int> {
    if actions == [] then None
    else
      var before := FirstOpening(cfg, actions[..|actions| - 1]);
      if before.Some? then before
      else if Exec(cfg, actions).breaker.phase == Open then Some(actions[|actions| - 1].at)
      else None
  }

  /**
   After p probing periods: each took at least openFor to come about, and each let in at
   most k requests.
   */
  ghost predicate Bounded(cfg: Config, k: int, s: System, openedAt: Option<int>, now: int, p: nat) {
    var admitted, base := |s.threads|, cfg.failures + k - 1;
    if openedAt.None? then s.breaker == State(Closed, s.failures, ZERO_TIME) && (s.failures < cfg.failures) && p == 0
    else
      && s.breaker.phase != Closed && s.breaker.consecutiveFailed >= cfg.failures
      && openedAt.value + p * cfg.openFor <= now
      && s.breaker.openedUntil <= now + cfg.openFor
      && (s.breaker.phase == Open ==>
            openedAt.value + (p + 1) * cfg.openFor <= s.breaker.openedUntil && admitted <= base + k * p)
      && (s.breaker.phase == HalfOpen ==> p >= 1 && admitted <= base + k * (p - 1) + InFlight(s.threads))
  }

  ghost function Opened(openedAt: Option<int>, s: System, at: int): Option<int> {
    if openedAt.Some? then openedAt else if s.breaker.phase == Open then Some(at) else None
  }

  predicate Probes(s: State, at: int) { s.phase == Open && s.openedUntil <= at }

  /** An arrival adds a request in flight if it is admitted, and half-opens the breaker if it probes it. */
  lemma ArrivalMeans(cfg: Config, s: System, at: int, call: Call)
    requires call.Valid()
    ensures var s', admitted := Arrival(cfg, s, at, call), if Admits(s.breaker, at) then 1 else 0;
      && |s'.threads| == |s.threads| + admitted && InFlight(s'.threads) == InFlight(s.threads) + admitted
      && s'.failures == s.failures && s'.successes == s.successes
      && s'.breaker == s.breaker.(phase := if Probes(s.breaker, at) then HalfOpen else s.breaker.phase)
  {
    hide Script, Sends, InFlight;
    var last := OneCall(call);
    AddThread(s.threads, Script(call, 1).ops);
  }

  lemma ArrivalBounded(cfg: Config, k: int, s: System, at: int, call: Call, openedAt: Option<int>, now: int, now': int, p: nat)
    returns (p': nat)
    requires cfg.Valid() && call.Valid() && s.successes == 0
    requires Bounded(cfg, k, s, openedAt, now, p) && (openedAt.Some? ==> now <= now' && at <= now')
    ensures var s' := Arrival(cfg, s, at, call); Bounded(cfg, k, s', Opened(openedAt, s', at), now', p')
  {
    ArrivalMeans(cfg, s, at, call);
    hide Arrival, Apply, InFlight;
    p' := if Probes(s.breaker, at) then p + 1 else p;
    assert k * ((p + 1) - 1) == k * p;
  }

  lemma NextPeriod(k: int, p: int, openFor: int)
    ensures k * (p - 1) + k == k * p && (p + 1) * openFor == p * openFor + openFor && k * 0 == 0
  {
  }

  lemma AdvanceBounded(cfg: Config, n: int, k: int, s: System, i: nat, at: int, openedAt: Option<int>, now: int, p: nat)
    requires cfg.Valid() && Accounts(cfg, n, s) && i < |s.threads| && s.threads[i] != []
    requires Bounded(cfg, k, s, openedAt, now, p) && (openedAt.Some? ==> now <= at) && InFlight(s.threads) <= k
    requires s.successes == 0 && Advance(cfg, s, i, at).successes == 0
    ensures var s' := Advance(cfg, s, i, at); Bounded(cfg, k, s', Opened(openedAt, s', at), at, p)
  {
    hide Replay, Sends;
    var ops := s.threads[i];
    UpdateThread(s.threads, i, ops[1..]);
    NextPeriod(k, p, cfg.openFor);
    if !ops[0].Record? {
      assert ops[1..] != [];
    } else {
      assert |ops| == 1;
      assert ops[1..] == [];
    }
  }

  /** What a run says about its part without the last action. */
  lemma ClockedPart(actions: seq<Action>)
    requires |actions| > 1 && Clocked(actions)
    ensures Clocked(actions[..|actions| - 1])
    ensures actions[|actions| - 1].Progress? ==> Latest(actions[..|actions| - 1]) <= actions[|actions| - 1].at
  {
    LatestIsStamp(actions[..|actions| - 1]);
  }

  lemma {:induction false} AlwaysBounded(cfg: Config, n: int, k: int, actions: seq<Action>) returns (p: nat)
    requires cfg.Valid() && n >= 1 && Configured(n, actions) && Clocked(actions) && Failing(cfg, k, actions)
    ensures Bounded(cfg, k, Exec(cfg, actions), FirstOpening(cfg, actions), Latest(actions), p)
  {
    hide Arrival, Advance, Accounts, Apply;
    if actions == [] { return 0; }
    var before, a := actions[..|actions| - 1], actions[|actions| - 1];
    if |actions| > 1 { ClockedPart(actions); }
    hide Clocked;
    p := AlwaysBounded(cfg, n, k, before);
    AlwaysAccounts(cfg, n, before);
    var s, openedAt, now := Exec(cfg, before), FirstOpening(cfg, before), Latest(before);
    match a
    case Arrive(at, call) =>
      p := ArrivalBounded(cfg, k, s, at, call, openedAt, now, Latest(actions), p);
    case Progress(i, at) =>
      if i < |s.threads| && s.threads[i] != [] { AdvanceBounded(cfg, n, k, s, i, at, openedAt, now, p); }
  }

  /**
   Load on an upstream that only fails, under a clock that never runs backwards: as long as
   no stamp is later than d after the first opening, at most
   failures + k - 1 + k * floor(d / openFor) requests reach it, each with at most n sends.
   Arrivals may carry stamps that are older than what happened before they took the lock.
   */
  lemma {:induction false} LoadBound(cfg: Config, n: int, k: int, actions: seq<Action>, d: nat)
    requires cfg.Valid() && n >= 1 && k >= 0 && Configured(n, actions) && Clocked(actions) && Failing(cfg, k, actions)
    requires FirstOpening(cfg, actions).Some?
    requires forall i :: 0 <= i < |actions| ==> actions[i].at <= FirstOpening(cfg, actions).value + d
    ensures var s, limit := Exec(cfg, actions), cfg.failures + k - 1 + k * (d / cfg.openFor);
      |s.threads| <= limit && s.sends <= n * limit
  {
    LatestIsStamp(actions);
    hide Configured, Clocked, Exec, Accounts, Bounded, FirstOpening, Latest;
    var p := AlwaysBounded(cfg, n, k, actions);
    AlwaysAccounts(cfg, n, actions);
    assert InFlight(Exec(cfg, actions).threads) <= k;
    Settled(cfg, n, k, Exec(cfg, actions), FirstOpening(cfg, actions), Latest(actions), p, d);
  }

  lemma Settled(cfg: Config, n: int, k: int, s: System, openedAt: Option<int>, now: int, p: nat, d: nat)
    requires cfg.Valid() && n >= 0 && k >= 0 && Accounts(cfg, n, s) && InFlight(s.threads) <= k
    requires openedAt.Some? && Bounded(cfg, k, s, openedAt, now, p) && now <= openedAt.value + d
    ensures var limit := cfg.failures + k - 1 + k * (d / cfg.openFor); |s.threads| <= limit && s.sends <= n * limit
  {
    hide Replay;
    var q := d / cfg.openFor;
    FloorAtLeast(p, cfg.openFor, d);
    assert k * (p - 1) + k == k * p;
    WithinLimit(n, k, p, q, |s.threads|, cfg.failures + k - 1);
  }

  lemma WithinLimit(n: int, k: int, p: int, q: int, admitted: int, base: int)
    requires n >= 0 && k >= 0 && p <= q && admitted <= base + k * p
    ensures admitted <= base + k * q && n * admitted <= n * (base + k * q)
  {
    MulMono(k, p, q);
    MulMono(n, admitted, base + k * q);
  }

  lemma FloorAtLeast(p: nat, unit: int, d: int)
    requires unit > 0 && p * unit <= d
    ensures p <= d / unit
  {
    var q := d / unit;
    assert d < (q + 1) * unit;
    if p > q { MulMono(unit, q + 1, p); }
  }
}
