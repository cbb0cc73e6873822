/**
 The circuit breaker of the API gateway (resilience.go) and the registry that keeps one
 breaker per upstream service (proxy_handler.go).

 Times are nanoseconds since Go's zero time; every clock reading is a parameter. The
 breaker's mutex makes each method one atomic step, so a concurrent execution is a
 history of events in lock order.
 */
module Breaker {
  const ZERO_TIME := 0
  const DEFAULT_FAILURES := 5
  const DEFAULT_OPEN_FOR := 30_000_000_000

  datatype Config = Config(failures: int, openFor: int) {
    ghost predicate Valid() { failures > 0 && openFor > 0 }
  }

  datatype Phase = Closed | Open | HalfOpen

  datatype State = State(phase: Phase, consecutiveFailed: int, openedUntil: int)

  const INITIAL := State(Closed, 0, ZERO_TIME)

  /** newCircuitBreaker's treatment of non-positive settings. */
  function Effective(cfg: Config): (c: Config)
    ensures c.Valid()
    ensures cfg.failures > 0 ==> c.failures == cfg.failures
    ensures cfg.openFor > 0 ==> c.openFor == cfg.openFor
    ensures cfg.failures <= 0 ==> c.failures == 5
    ensures cfg.openFor <= 0 ==> c.openFor == 30_000_000_000
  {
    Config(if cfg.failures <= 0 then DEFAULT_FAILURES else cfg.failures,
           if cfg.openFor <= 0 then DEFAULT_OPEN_FOR else cfg.openFor)
  }

  /** One locked call on the breaker, stamped with the clock reading it used. */
  datatype Event = Asked(at: int) | Succeeded | Failed(at: int)

  predicate Admits(s: State, now: int) {
    s.phase != Open || s.openedUntil <= now
  }

  function Apply(cfg: Config, s: State, e: Event): State {
    match e
    case Asked(at) => if s.phase == Open && s.openedUntil <= at then s.(phase := HalfOpen) else s
    case Succeeded => INITIAL
    case Failed(at) =>
      var n := s.consecutiveFailed + 1;
      if s.phase == HalfOpen || n >= cfg.failures then State(Open, n, at + cfg.openFor)
      else s.(consecutiveFailed := n)
  }

  class CircuitBreaker {
    const service: string
    const failureThreshold: int
    const openFor: int
    var consecutiveFailed: int
    var state: Phase
    var openedUntil: int

    function Settings(): Config { Config(failureThreshold, openFor) }

    function View(): State
      reads this
    {
      State(state, consecutiveFailed, openedUntil)
    }

    constructor (service: string, cfg: Config)
      ensures this.service == service && Settings() == Effective(cfg) && View() == INITIAL
    {
      this.service := service;
      failureThreshold := if cfg.failures <= 0 then DEFAULT_FAILURES else cfg.failures;
      openFor := if cfg.openFor <= 0 then DEFAULT_OPEN_FOR else cfg.openFor;
      consecutiveFailed, state, openedUntil := 0, Closed, ZERO_TIME;
    }

    method Allow(now: int) returns (ok: bool)
      modifies this
      ensures ok == Admits(old(View()), now)
      ensures View() == Apply(Settings(), old(View()), Asked(now))
    {
      if state != Open { return true; }
      if now < openedUntil { return false; }
      state := HalfOpen;
      return true;
    }

    method RecordSuccess()
      modifies this
      ensures View() == Apply(Settings(), old(View()), Succeeded)
    {
      state := Closed;
      consecutiveFailed := 0;
      openedUntil := ZERO_TIME;
    }

    method RecordFailure(now: int)
      modifies this
      ensures View() == Apply(Settings(), old(View()), Failed(now))
    {
      consecutiveFailed := consecutiveFailed + 1;
      if state == HalfOpen || consecutiveFailed >= failureThreshold {
        state := Open;
        openedUntil := now + openFor;
      }
    }
  }

  // ---- Admission as a fact about the history of recorded outcomes ----

  function Replay(cfg: Config, h: seq<Event>): State {
    if h == [] then INITIAL else Apply(cfg, Replay(cfg, h[..|h| - 1]), h[|h| - 1])
  }

  /** Length of the run of failures recorded since the last recorded success. */
  function TrailingFailures(h: seq<Event>): (n: nat)
    ensures n > 0 ==> exists i :: 0 <= i < |h| && h[i].Failed?
  {
    if h == [] then 0
    else
      var before := h[..|h| - 1];
      match h[|h| - 1]
      case Asked(_) => TrailingFailures(before)
      case Succeeded => 0
      case Failed(_) => TrailingFailures(before) + 1
  }

  ghost predicate IsLastFailure(h: seq<Event>, i: nat) {
    i < |h| && h[i].Failed? && forall j :: i < j < |h| ==> !h[j].Failed?
  }

  /** Some request asked at or after `due`, with no failure recorded since. */
  ghost predicate ProbedSince(h: seq<Event>, due: int) {
    exists i :: 0 <= i < |h| && h[i].Asked? && h[i].at >= due && forall j :: i < j < |h| ==> !h[j].Failed?
  }

  ghost predicate Monotone(h: seq<Event>) {
    forall i, j :: 0 <= i < j < |h| && !h[i].Succeeded? && !h[j].Succeeded? ==> h[i].at <= h[j].at
  }

  /** What the breaker's three fields say about its history. */
  ghost predicate Tells(cfg: Config, h: seq<Event>, s: State) {
    && s.consecutiveFailed == TrailingFailures(h)
    && (s.phase == Closed <==> TrailingFailures(h) < cfg.failures)
    && (s.phase != Closed ==>
          forall i: nat :: IsLastFailure(h, i) ==>
            s.openedUntil == h[i].at + cfg.openFor && (s.phase == HalfOpen <==> ProbedSince(h[i + 1..], s.openedUntil)))
  }

  lemma {:induction false} ProbedAppend(h: seq<Event>, e: Event, due: int)
    requires e.Asked?
    ensures ProbedSince(h + [e], due) <==> ProbedSince(h, due) || e.at >= due
  {
    var g := h + [e];
    if ProbedSince(h, due) {
      var i :| 0 <= i < |h| && h[i].Asked? && h[i].at >= due && forall j :: i < j < |h| ==> !h[j].Failed?;
      assert g[i] == h[i];
    }
    if e.at >= due { assert g[|h|] == e; }
    if ProbedSince(g, due) {
      var i :| 0 <= i < |g| && g[i].Asked? && g[i].at >= due && forall j :: i < j < |g| ==> !g[j].Failed?;
      if i < |h| {
        assert h[i] == g[i];
        forall j | i < j < |h| ensures !h[j].Failed? { assert g[j] == h[j]; }
      }
    }
  }

  lemma FailureTells(cfg: Config, g: seq<Event>, s: State, at: int)
    requires cfg.Valid() && Tells(cfg, g, s)
    ensures Tells(cfg, g + [Failed(at)], Apply(cfg, s, Failed(at)))
  {
    var h := g + [Failed(at)];
    assert h[..|g|] == g;
    forall i: nat | IsLastFailure(h, i) ensures i == |g| && h[i + 1..] == [] {
      assert h[|g|].Failed?;
    }
  }

  lemma AskTells(cfg: Config, g: seq<Event>, s: State, at: int)
    requires cfg.Valid() && Tells(cfg, g, s)
    ensures Tells(cfg, g + [Asked(at)], Apply(cfg, s, Asked(at)))
  {
    var h := g + [Asked(at)];
    assert h[..|g|] == g;
    if s.phase != Closed {
      forall i: nat | IsLastFailure(h, i)
        ensures IsLastFailure(g, i) && (ProbedSince(h[i + 1..], s.openedUntil) <==> ProbedSince(g[i + 1..], s.openedUntil) || at >= s.openedUntil)
      {
        assert g[i] == h[i];
        forall j | i < j < |g| ensures !g[j].Failed? { assert h[j] == g[j]; }
        assert h[i + 1..] == g[i + 1..] + [Asked(at)];
        ProbedAppend(g[i + 1..], Asked(at), s.openedUntil);
      }
    }
  }

  lemma {:induction false} ReplayTells(cfg: Config, h: seq<Event>)
    requires cfg.Valid()
    ensures Tells(cfg, h, Replay(cfg, h))
  {
    if h != [] {
      var g, e := h[..|h| - 1], h[|h| - 1];
      ReplayTells(cfg, g);
      assert h == g + [e];
      match e
      case Asked(at) => AskTells(cfg, g, Replay(cfg, g), at);
      case Failed(at) => FailureTells(cfg, g, Replay(cfg, g), at);
      case Succeeded =>
    }
  }

  ghost function LastFailure(h: seq<Event>): (i: nat)
    requires exists k :: 0 <= k < |h| && h[k].Failed?
    ensures IsLastFailure(h, i)
  {
    if h[|h| - 1].Failed? then |h| - 1
    else
      var g := h[..|h| - 1];
      assert exists k :: 0 <= k < |g| && g[k].Failed? by {
        var k :| 0 <= k < |h| && h[k].Failed?;
        assert g[k].Failed?;
      }
      LastFailure(g)
  }

  /**
   Admission in every interleaving and under any clock: the trailing run of failures is
   below the threshold, or the open period after the last failure is over, or an earlier
   request already found it over and no failure was recorded since.
   */
  lemma AdmissionExact(cfg: Config, h: seq<Event>, t: int)
    requires cfg.Valid()
    ensures Admits(Replay(cfg, h), t) <==>
      (|| TrailingFailures(h) < cfg.failures
       || var last := LastFailure(h);
          h[last].at + cfg.openFor <= t || ProbedSince(h[last + 1..], h[last].at + cfg.openFor))
  {
    hide Replay, ProbedSince, Monotone;
    ReplayTells(cfg, h);
    if TrailingFailures(h) >= cfg.failures {
      assert IsLastFailure(h, LastFailure(h));
    }
  }

  /** If the stamps come in the order of the lock, two facts decide admission. */
  lemma AdmissionMonotone(cfg: Config, h: seq<Event>, t: int)
    requires cfg.Valid() && Monotone(h + [Asked(t)])
    ensures Admits(Replay(cfg, h), t) <==>
      TrailingFailures(h) < cfg.failures || h[LastFailure(h)].at + cfg.openFor <= t
  {
    AdmissionExact(cfg, h, t);
    if TrailingFailures(h) >= cfg.failures {
      var i := LastFailure(h);
      var tail := h[i + 1..];
      if ProbedSince(tail, h[i].at + cfg.openFor) {
        var k :| 0 <= k < |tail| && tail[k].Asked? && tail[k].at >= h[i].at + cfg.openFor;
        var g := h + [Asked(t)];
        assert g[i + 1 + k] == tail[k] && g[|h|] == Asked(t);
      }
    }
  }

  /**
   Clock monotonicity cannot be dropped: after an open period has been probed, a request
   carrying an older stamp is admitted although the period is not over at that stamp.
   */
  lemma AdmissionNeedsMonotoneClock()
    ensures var cfg := Config(1, 10);
            var h := [Failed(0), Asked(10)];
            Admits(Replay(cfg, h), 5) && TrailingFailures(h) >= cfg.failures && IsLastFailure(h, 0) && 5 < h[0].at + cfg.openFor
  {
  }

  // ---- One breaker per upstream ----

  function StateOf(m: map<string, State>, service: string): State {
    if service in m then m[service] else INITIAL
  }

  datatype Routed = Routed(service: string, event: Event)

  function ReplayAll(cfg: Config, run: seq<Routed>): map<string, State> {
    if run == [] then map[]
    else
      var m, last := ReplayAll(cfg, run[..|run| - 1]), run[|run| - 1];
      m[last.service := Apply(cfg, StateOf(m, last.service), last.event)]
  }

  function Project(run: seq<Routed>, service: string): seq<Event> {
    if run == [] then []
    else
      var before, last := Project(run[..|run| - 1], service), run[|run| - 1];
      if last.service == service then before + [last.event] else before
  }

  /** Traffic to the other upstreams never reaches a service's breaker. */
  lemma {:induction false} ProjectionRunsAlone(cfg: Config, run: seq<Routed>, service: string)
    ensures StateOf(ReplayAll(cfg, run), service) == Replay(cfg, Project(run, service))
  {
    if run != [] {
      ProjectionRunsAlone(cfg, run[..|run| - 1], service);
      var h, last := Project(run, service), run[|run| - 1];
      if last.service == service {
        assert h[..|h| - 1] == Project(run[..|run| - 1], service);
      }
    }
  }

  /** The part of ProxyHandler that owns the breakers. */
  class BreakerRegistry {
    const circuit: Config
    var breakers: map<string, CircuitBreaker>

    ghost predicate Valid()
      reads this
    {
      && circuit.Valid()
      && (forall s :: s in breakers ==> breakers[s].service == s && breakers[s].Settings() == circuit)
    }

    /** A breaker that was never asked for is as good as a new one. */
    ghost function At(upstream: string): State
      reads this, breakers.Values
    {
      if upstream in breakers then breakers[upstream].View() else INITIAL
    }

    constructor (circuit: Config)
      ensures this.circuit == Effective(circuit) && Valid() && breakers == map[]
    {
      this.circuit := Effective(circuit);
      breakers := map[];
    }

    method BreakerFor(upstream: string) returns (b: CircuitBreaker)
      requires Valid()
      modifies this
      ensures Valid() && upstream in breakers && b == breakers[upstream]
      ensures upstream in old(breakers) ==> breakers == old(breakers)
      ensures upstream !in old(breakers) ==> breakers == old(breakers)[upstream := b] && fresh(b) && b.View() == INITIAL
    {
      if upstream in breakers { return breakers[upstream]; }
      b := new CircuitBreaker(upstream, circuit);
      breakers := breakers[upstream := b];
    }

    /** One breaker step made on behalf of a request to `upstream`. */
    method Step(upstream: string, e: Event) returns (admitted: bool)
      requires Valid()
      modifies this, breakers.Values
      ensures Valid()
      ensures At(upstream) == Apply(circuit, old(At(upstream)), e)
      ensures forall s :: s != upstream ==> At(s) == old(At(s))
      ensures e.Asked? ==> admitted == Admits(old(At(upstream)), e.at)
    {
      var b := BreakerFor(upstream);
      admitted := true;
      match e
      case Asked(at) => admitted := b.Allow(at);
      case Succeeded => b.RecordSuccess();
      case Failed(at) => b.RecordFailure(at);
    }
  }
}
