/**
 resilientTransport.RoundTrip (resilience.go): the retry loop around one upstream call.

 The world outside the loop is a `World`: what each base send returns, what each rewind of
 the body returns, and whether each wait is cut short. `trace` lists what the loop did.
 */
module RetryTransport {
  import opened Arithmetic
  import opened Wrappers
  import opened Breaker

  const BAD_GATEWAY := 502
  const SERVICE_UNAVAILABLE := 503
  const GATEWAY_TIMEOUT := 504
  const DEFAULT_BACKOFF := 100_000_000
  const ERR_CIRCUIT_OPEN := "circuit breaker is open"
  const TWO_63 := 0x8000_0000_0000_0000
  const TWO_64 := 0x1_0000_0000_0000_0000

  datatype Body = NilBody | NoBody | Stream
  datatype Response = Response(status: int, hasBody: bool)
  datatype Outcome = Outcome(resp: Option<Response>, err: Option<string>)
  datatype World = World(send: int -> Outcome, rewind: int -> Result<Body, string>, wait: int -> Option<string>)

  datatype Op = Send(attempt: int) | Drain(attempt: int) | Sleep(duration: int) | Record(ok: bool)
  datatype Run = Run(ops: seq<Op>, resp: Option<Response>, err: Option<string>)

  /** What the loop needs to know of its request and of its own settings. */
  datatype Call = Call(attempts: int, backoff: int, rewindable: bool, replayable: bool, world: World) {
    ghost predicate Valid() { attempts >= 1 && 0 < backoff < TWO_63 }
  }

  predicate ShouldRetryResponse(resp: Option<Response>) {
    resp.Some? && resp.value.status in {BAD_GATEWAY, SERVICE_UNAVAILABLE, GATEWAY_TIMEOUT}
  }

  predicate CanReplay(verb: string, body: Body, rewindable: bool) {
    body != Stream || rewindable || verb in {"GET", "HEAD", "OPTIONS"}
  }

  // ---- Backoff arithmetic, in 64-bit two's complement as Go computes it ----

  function Pow2(n: nat): (p: int)
    ensures p >= 1
  {
    if n == 0 then 1 else 2 * Pow2(n - 1)
  }

  function Wrap64(x: int): (w: int)
    ensures -TWO_63 <= w < TWO_63
    ensures -TWO_63 <= x < TWO_63 ==> w == x
  {
    (x + TWO_63) % TWO_64 - TWO_63
  }

  function BackoffForAttempt(base: int, attempt: int): int {
    if attempt <= 1 then base else Wrap64(base * Wrap64(Pow2(attempt - 1)))
  }

  lemma MulAtLeast(a: int, p: int)
    requires a >= 1 && p >= 1
    ensures a * p >= p && a * p >= a
  {
  }

  lemma BackoffFits(base: int, p: int, product: int)
    requires 0 < base < TWO_63 && p >= 1 && product == base * p
    ensures product < TWO_63 ==> Wrap64(p) == p && Wrap64(product) == product
  {
    MulAtLeast(base, p);
  }

  /** The wait is the intended base * 2^(attempt-1) exactly as long as that fits in int64. */
  lemma {:induction false} BackoffExact(base: int, attempt: int)
    requires 0 < base < TWO_63 && attempt >= 1
    ensures BackoffForAttempt(base, attempt) == base * Pow2(attempt - 1) <==> base * Pow2(attempt - 1) < TWO_63
  {
    var p := Pow2(attempt - 1);
    BackoffFits(base, p, base * p);
    if attempt > 1 { assert BackoffForAttempt(base, attempt) < TWO_63; }
  }

  /** With the default 100 ms base the 38th wait overflows to a negative duration, which fires at once. */
  lemma BackoffOverflows()
    ensures BackoffForAttempt(DEFAULT_BACKOFF, 38) < 0
  {
    assert Pow2(10) == 1024;
    PowSum(10, 10);
    PowSum(20, 10);
    PowSum(30, 7);
    assert Pow2(37) == 137438953472;
  }

  lemma PowSum(a: nat, b: nat)
    ensures Pow2(a + b) == Pow2(a) * Pow2(b)
  {
    if b > 0 { PowSum(a, b - 1); }
  }

  // ---- The loop ----

  datatype Turn = Done(run: Run) | Again(ops: seq<Op>)

  /** One turn of the loop, as a function of the world. */
  function TurnOf(c: Call, k: int): Turn {
    var rewound := if k > 1 && c.rewindable then c.world.rewind(k) else Ok(NoBody);
    if rewound.Err? then Done(Run([Record(false)], None, Some(rewound.error)))
    else
      var o := c.world.send(k);
      if o.err.None? && !ShouldRetryResponse(o.resp) then Done(Run([Send(k), Record(true)], o.resp, None))
      else if k == c.attempts || !c.replayable then
        Done(Run([Send(k), Record(false)], if o.err.Some? then None else o.resp, o.err))
      else
        var ops := RetryOps(c, k, o);
        var cut := c.world.wait(k);
        if cut.Some? then Done(Run(ops + [Record(false)], None, cut)) else Again(ops)
  }

  function RetryOps(c: Call, k: int, o: Outcome): seq<Op> {
    [Send(k)] + (if o.resp.Some? && o.resp.value.hasBody then [Drain(k)] else [])
    + [Sleep(BackoffForAttempt(c.backoff, k))]
  }

  /** The loop from attempt k on. */
  function Script(c: Call, k: int): Run
    requires k <= c.attempts
    decreases c.attempts - k
  {
    match TurnOf(c, k)
    case Done(run) => run
    case Again(ops) => After(ops, Script(c, k + 1))
  }

  function After(ops: seq<Op>, rest: Run): Run {
    rest.(ops := ops + rest.ops)
  }

  lemma AfterAfter(a: seq<Op>, b: seq<Op>, rest: Run)
    ensures After(a, After(b, rest)) == After(a + b, rest)
  {
    assert a + (b + rest.ops) == a + b + rest.ops;
  }

  lemma RefusalChangesNothing(cfg: Config, s: State, now: int)
    ensures !Admits(s, now) ==> Apply(cfg, s, Asked(now)) == s
  {
  }

  predicate Conclusive(o: Outcome) {
    o.err.None? && !ShouldRetryResponse(o.resp)
  }

  function OutcomeEvent(ok: bool, at: int): Event {
    if ok then Succeeded else Failed(at)
  }

  class Request {
    const verb: string
    const rewindable: bool
    var body: Body

    constructor (verb: string, rewindable: bool, body: Body)
      ensures this.verb == verb && this.rewindable == rewindable && this.body == body
    {
      this.verb, this.rewindable, this.body := verb, rewindable, body;
    }
  }

  class ResilientTransport {
    const attempts: int
    const backoff: int
    const breaker: CircuitBreaker?

    constructor (attempts: int, backoff: int, breaker: CircuitBreaker?)
      ensures this.attempts == attempts && this.backoff == backoff && this.breaker == breaker
    {
      this.attempts, this.backoff, this.breaker := attempts, backoff, breaker;
    }

    function CallOf(req: Request, w: World): (c: Call)
      requires backoff < TWO_63
      reads req
      ensures c.Valid()
    {
      Call(if attempts <= 0 then 1 else attempts, if backoff <= 0 then DEFAULT_BACKOFF else backoff,
           req.rewindable, CanReplay(req.verb, req.body, req.rewindable), w)
    }

    method Settle(ok: bool, at: int)
      modifies breaker
      ensures breaker != null ==>
        breaker.View() == Apply(breaker.Settings(), old(breaker.View()), OutcomeEvent(ok, at))
    {
      if breaker != null {
        if ok { breaker.RecordSuccess(); } else { breaker.RecordFailure(at); }
      }
    }

    /** One turn of the loop; done tells whether the call is over. */
    method Try(req: Request, w: World, ghost call: Call, attempt: int, attempts: int, backoff: int, recordedAt: int)
      returns (done: bool, resp: Option<Response>, err: Option<string>, ops: seq<Op>)
      requires call.attempts == attempts && call.backoff == backoff && call.world == w && 1 <= attempt <= attempts
      requires call.rewindable == req.rewindable && call.replayable == CanReplay(req.verb, req.body, req.rewindable)
      modifies req`body, breaker
      ensures TurnOf(call, attempt) == if done then Done(Run(ops, resp, err)) else Again(ops)
      ensures breaker != null ==>
        (breaker.View() == if !done then old(breaker.View())
          else Apply(breaker.Settings(), old(breaker.View()), OutcomeEvent(Record(true) in ops, recordedAt)))
      ensures CanReplay(req.verb, req.body, req.rewindable) == call.replayable
      ensures req.body == if attempt > 1 && req.rewindable && w.rewind(attempt).Ok? then w.rewind(attempt).value else old(req.body)
    {
      hide BackoffForAttempt, Apply, ShouldRetryResponse;
      done, resp, err, ops := true, None, None, [];
      if attempt > 1 && req.rewindable {
        var rewound := w.rewind(attempt);
        if rewound.Err? {
          Settle(false, recordedAt);
          return true, None, Some(rewound.error), [Record(false)];
        }
        req.body := rewound.value;
      }
      var o := w.send(attempt);
      if o.err.None? && !ShouldRetryResponse(o.resp) {
        Settle(true, recordedAt);
        return true, o.resp, None, [Send(attempt), Record(true)];
      }
      if attempt == attempts || !CanReplay(req.verb, req.body, req.rewindable) {
        Settle(false, recordedAt);
        if o.err.Some? { return true, None, o.err, [Send(attempt), Record(false)]; }
        return true, o.resp, None, [Send(attempt), Record(false)];
      }
      ops := [Send(attempt)];
      if o.resp.Some? && o.resp.value.hasBody { ops := ops + [Drain(attempt)]; }
      ops := ops + [Sleep(BackoffForAttempt(backoff, attempt))];
      assert ops == RetryOps(call, attempt, o);
      var cut := w.wait(attempt);
      if cut.Some? {
        Settle(false, recordedAt);
        return true, None, cut, ops + [Record(false)];
      }
      done := false;
    }

    /** The loop of RoundTrip, after the breaker has admitted the request. */
    method Attempt(req: Request, w: World, ghost call: Call, recordedAt: int)
      returns (resp: Option<Response>, err: Option<string>, trace: seq<Op>)
      requires backoff < TWO_63 && call == CallOf(req, w)
      modifies req`body, breaker
      ensures Run(trace, resp, err) == Script(call, 1)
      ensures breaker != null ==>
        breaker.View() == Apply(breaker.Settings(), old(breaker.View()), OutcomeEvent(Record(true) in trace, recordedAt))
      ensures !req.rewindable ==> req.body == old(req.body)
      ensures req.rewindable && Sends(trace) > 1 ==> w.rewind(Sends(trace)) == Ok(req.body)
    {
      hide TurnOf, Apply, OutcomeEvent, Sends, Script;
      var attempts := if this.attempts <= 0 then 1 else this.attempts;
      var backoff := if this.backoff <= 0 then DEFAULT_BACKOFF else this.backoff;
      trace := [];
      NothingSent();
      var attempt := 1;
      while attempt <= attempts
        invariant 1 <= attempt <= attempts
        invariant Script(call, 1) == After(trace, Script(call, attempt))
        invariant Record(true) !in trace && Sends(trace) == attempt - 1
        invariant breaker != null ==> breaker.View() == old(breaker.View())
        invariant CanReplay(req.verb, req.body, req.rewindable) == call.replayable
        invariant attempt <= 2 || !req.rewindable ==> req.body == old(req.body)
        invariant attempt > 2 && req.rewindable ==> w.rewind(attempt - 1) == Ok(req.body)
        decreases attempts - attempt
      {
        TurnShape(call, attempt);
        TurnSends(call, attempt);
        ScriptFrom(call, attempt);
        var done, turnResp, turnErr, ops := Try(req, w, call, attempt, attempts, backoff, recordedAt);
        SendsConcat(trace, ops);
        if done { return turnResp, turnErr, trace + ops; }
        AfterAfter(trace, ops, Script(call, attempt + 1));
        trace := trace + ops;
        attempt := attempt + 1;
      }
      // The statements after the loop are unreachable: the last attempt always returns.
      assert false;
    }

    /**
     Refused by an open breaker, or else the script of the call and one recorded outcome: a
     success exactly for an answer other than 502, 503 and 504. Such an answer is returned
     for a request that can be replayed only after the last attempt; the j-th wait is the
     backoff doubled j - 1 times; and each send after the first has a fresh body.
     */
    method RoundTrip(req: Request, w: World, askedAt: int, recordedAt: int)
      returns (resp: Option<Response>, err: Option<string>, trace: seq<Op>)
      requires backoff < TWO_63
      modifies req`body, breaker
      ensures breaker != null && !Admits(old(breaker.View()), askedAt) ==>
        resp == None && err == Some("circuit breaker is open") && trace == [] && breaker.View() == old(breaker.View())
      ensures breaker == null || Admits(old(breaker.View()), askedAt) ==>
        trace != [] && Run(trace, resp, err) == Script(old(CallOf(req, w)), 1)
      ensures breaker != null && Admits(old(breaker.View()), askedAt) ==>
        var asked := Apply(breaker.Settings(), old(breaker.View()), Asked(askedAt));
        breaker.View() == Apply(breaker.Settings(), asked, if Record(true) in trace then Succeeded else Failed(recordedAt))
      ensures trace != [] ==>
        (Record(true) in trace <==> err == None && (resp.None? || resp.value.status !in {502, 503, 504}))
      ensures trace != [] ==> 1 <= Sends(trace) <= (if attempts <= 0 then 1 else attempts)
      ensures trace != [] && old(req.body) == Stream && !req.rewindable && req.verb !in {"GET", "HEAD", "OPTIONS"} ==>
        Sends(trace) == 1
      ensures old(req.body) != Stream || req.rewindable || req.verb in {"GET", "HEAD", "OPTIONS"} ==>
        resp.None? || resp.value.status !in {502, 503, 504} || Sends(trace) == if attempts <= 0 then 1 else attempts
      ensures forall i :: 0 <= i < |trace| && trace[i].Sleep? ==>
        trace[i].duration == BackoffForAttempt(if backoff <= 0 then 100_000_000 else backoff, Sends(trace[..i]))
      ensures !req.rewindable ==> req.body == old(req.body)
      ensures req.rewindable && Sends(trace) > 1 ==> w.rewind(Sends(trace)) == Ok(req.body)
    {
      hide TurnOf, Apply, Sends, Conclusive, Script, StopsAt, BackoffForAttempt;
      if breaker != null {
        RefusalChangesNothing(breaker.Settings(), breaker.View(), askedAt);
        var ok := breaker.Allow(askedAt);
        NothingSent();
        if !ok { return None, Some(ERR_CIRCUIT_OPEN), []; }
      }
      ghost var call := CallOf(req, w);
      ghost var last := OneCall(call);
      StatusDecides(call);
      ScriptPaced(call, 1);
      LastRecordDecides(Script(call, 1).ops);
      hide EndsInOneRecord;
      resp, err, trace := Attempt(req, w, call, recordedAt);
    }
  }

  // ---- What every call does ----

  function Sends(ops: seq<Op>): nat {
    if ops == [] then 0 else (if ops[0].Send? then 1 else 0) + Sends(ops[1..])
  }

  function Slept(ops: seq<Op>): int {
    if ops == [] then 0 else (if ops[0].Sleep? then ops[0].duration else 0) + Slept(ops[1..])
  }

  lemma LastRecordDecides(ops: seq<Op>)
    requires EndsInOneRecord(ops)
    ensures ops != [] && (Record(true) in ops <==> ops[|ops| - 1] == Record(true))
  {
  }

  lemma NothingSent()
    ensures Sends([]) == 0
  {
  }

  /** A request thread still has its outcome to record, exactly once and as its last act. */
  ghost predicate EndsInOneRecord(ops: seq<Op>) {
    && ops != [] && ops[|ops| - 1].Record?
    && forall i :: 0 <= i < |ops| - 1 ==> !ops[i].Record?
  }

  lemma {:induction false} SendsConcat(a: seq<Op>, b: seq<Op>)
    ensures Sends(a + b) == Sends(a) + Sends(b)
    ensures Slept(a + b) == Slept(a) + Slept(b)
  {
    if a == [] {
      assert a + b == b;
    } else {
      assert (a + b)[1..] == a[1..] + b;
      SendsConcat(a[1..], b);
    }
  }

  /** Attempt j reaches the upstream, fails in a retryable way and its wait runs out. */
  ghost predicate Retried(c: Call, j: int) {
    && j < c.attempts && c.replayable
    && (j > 1 && c.rewindable ==> c.world.rewind(j).Ok?)
    && !Conclusive(c.world.send(j))
    && c.world.wait(j).None?
  }

  lemma RetryOpsShape(c: Call, k: int, o: Outcome)
    ensures var ops := RetryOps(c, k, o);
      && Sends(ops) == 1 && Slept(ops) == BackoffForAttempt(c.backoff, k)
      && forall i :: 0 <= i < |ops| ==> !ops[i].Record? && (ops[i].Send? || ops[i].Drain? ==> ops[i].attempt == k)
  {
    hide BackoffForAttempt;
    var drain := if o.resp.Some? && o.resp.value.hasBody then [Drain(k)] else [];
    SendsConcat([Send(k)] + drain, [Sleep(BackoffForAttempt(c.backoff, k))]);
    SendsConcat([Send(k)], drain);
  }

  lemma TurnShape(c: Call, k: int)
    requires k <= c.attempts
    ensures TurnOf(c, k).Again? <==> Retried(c, k)
    ensures TurnOf(c, k).Again? ==> var ops := TurnOf(c, k).ops;
      && Sends(ops) == 1 && Slept(ops) == BackoffForAttempt(c.backoff, k)
      && forall i :: 0 <= i < |ops| ==> !ops[i].Record? && (ops[i].Send? || ops[i].Drain? ==> ops[i].attempt == k)
    ensures TurnOf(c, k).Done? ==> var ops := TurnOf(c, k).run.ops;
      && EndsInOneRecord(ops) && Sends(ops) <= 1
      && (k == 1 || !c.rewindable ==> Sends(ops) == 1)
      && forall i :: 0 <= i < |ops| && (ops[i].Send? || ops[i].Drain?) ==> ops[i].attempt == k && Sends(ops) == 1
  {
    hide BackoffForAttempt, RetryOps;
    var ops := RetryOps(c, k, c.world.send(k));
    RetryOpsShape(c, k, c.world.send(k));
    SendsConcat(ops, [Record(false)]);
    SendsConcat([Send(k)], [Record(false)]);
    SendsConcat([Send(k)], [Record(true)]);
  }

  lemma ScriptFrom(c: Call, k: int)
    requires k <= c.attempts
    ensures Script(c, k) == match TurnOf(c, k) case Done(run) => run case Again(ops) => After(ops, Script(c, k + 1))
  {
    hide TurnOf, After;
  }

  /** A turn sends once, unless the body cannot be rewound. */
  lemma TurnSends(c: Call, k: int)
    ensures var turn := TurnOf(c, k);
      Sends(if turn.Done? then turn.run.ops else turn.ops) == if k > 1 && c.rewindable && c.world.rewind(k).Err? then 0 else 1
  {
    hide BackoffForAttempt, RetryOps;
    var ops := RetryOps(c, k, c.world.send(k));
    RetryOpsShape(c, k, c.world.send(k));
    SendsConcat(ops, [Record(false)]);
    SendsConcat([Send(k)], [Record(false)]);
    SendsConcat([Send(k)], [Record(true)]);
  }

  /**
   The turn at which the loop stops: the first attempt that is not retried. Everything
   before it is retried, and its own turn decides the answer.
   */
  ghost predicate StopsAt(c: Call, k: int, n: int) {
    k <= n <= c.attempts && !Retried(c, n) && forall j :: k <= j < n ==> Retried(c, j)
  }

  /** What Script(c, k) adds to its last turn, turn n. */
  ghost predicate Extends(c: Call, k: int, n: int, ops: seq<Op>, last: seq<Op>) {
    && EndsInOneRecord(ops) && last != []
    && Sends(ops) == n - k + Sends(last)
    && ops[|ops| - 1] == last[|last| - 1]
    && (forall i :: 0 <= i < |ops| && (ops[i].Send? || ops[i].Drain?) ==> k <= ops[i].attempt <= n)
    && (Drain(n) in ops ==> Drain(n) in last)
  }

  lemma ExtendsByTurn(c: Call, k: int, n: int, ops: seq<Op>, rest: seq<Op>, last: seq<Op>)
    requires k < n && Extends(c, k + 1, n, rest, last) && Sends(ops) == 1
    requires forall i :: 0 <= i < |ops| ==> !ops[i].Record? && (ops[i].Send? || ops[i].Drain? ==> ops[i].attempt == k)
    ensures Extends(c, k, n, ops + rest, last)
  {
    var all := ops + rest;
    SendsConcat(ops, rest);
    assert all[|all| - 1] == rest[|rest| - 1];
    forall i | 0 <= i < |all|
      ensures i < |all| - 1 ==> !all[i].Record?
      ensures all[i].Send? || all[i].Drain? ==> k <= all[i].attempt <= n
      ensures all[i] == Drain(n) ==> Drain(n) in last
    {
      if i < |ops| { assert all[i] == ops[i]; } else { assert all[i] == rest[i - |ops|]; }
    }
  }

  /**
   The loop from attempt k on stops at the first attempt n that is not retried; it records
   exactly one outcome, as its last act; it sends each of attempts k..n-1 once and n at
   most once; and its answer is that of turn n.
   */
  lemma {:induction false} ScriptShape(c: Call, k: int) returns (n: int)
    requires 1 <= k <= c.attempts
    ensures StopsAt(c, k, n) && TurnOf(c, n).Done?
    ensures var r, last := Script(c, k), TurnOf(c, n).run;
      Extends(c, k, n, r.ops, last.ops) && r.resp == last.resp && r.err == last.err
    decreases c.attempts - k
  {
    hide TurnOf;
    TurnShape(c, k);
    if Retried(c, k) {
      n := ScriptShape(c, k + 1);
      assert StopsAt(c, k, n);
      ExtendsByTurn(c, k, n, TurnOf(c, k).ops, Script(c, k + 1).ops, TurnOf(c, n).run.ops);
    } else {
      n := k;
    }
  }

  /**
   One admitted call: between one send and the configured number of attempts, exactly one
   for a request that cannot be replayed; one recorded outcome, last, which is a success
   exactly when the last send was conclusive; and a response handed back is the response
   of the last send and was not drained.
   */
  lemma OneCall(c: Call) returns (n: int)
    requires c.Valid()
    ensures StopsAt(c, 1, n)
    ensures var r := Script(c, 1);
      && EndsInOneRecord(r.ops)
      && 1 <= Sends(r.ops) <= c.attempts
      && (!c.replayable ==> Sends(r.ops) == 1)
      && (r.resp.Some? ==> r.err.None? && Sends(r.ops) == n && r.resp == c.world.send(n).resp && Drain(n) !in r.ops)
      && (r.ops[|r.ops| - 1] == Record(true) <==> Sends(r.ops) == n && Conclusive(c.world.send(n)))
  {
    n := ScriptShape(c, 1);
    TurnShape(c, n);
    hide BackoffForAttempt;
    if n > 1 { assert Retried(c, 1); }
  }

  /**
   Which answers count: an admitted call is recorded as a success exactly when it returns no
   error and no 502, 503 or 504; and a call that can be replayed returns one of those only
   after its last attempt.
   */
  lemma StatusDecides(c: Call)
    requires c.Valid()
    ensures var r := Script(c, 1);
      && EndsInOneRecord(r.ops)
      && (r.ops[|r.ops| - 1] == Record(true) <==> r.err == None && (r.resp.None? || r.resp.value.status !in {502, 503, 504}))
      && (r.resp.Some? && r.resp.value.status in {502, 503, 504} && c.replayable ==> Sends(r.ops) == c.attempts)
  {
    var n := OneCall(c);
    var m := AnswerOfCall(c);
    StopsOnce(c, n, m);
    hide Script, Sends, EndsInOneRecord;
  }

  lemma StopsOnce(c: Call, n: int, m: int)
    requires StopsAt(c, 1, n) && StopsAt(c, 1, m)
    ensures n == m
  {
    hide Retried;
  }

  /** Every wait is the backoff for the number of sends before it, the first send being attempt k. */
  ghost predicate Paced(backoff: int, ops: seq<Op>, k: int) {
    forall i :: 0 <= i < |ops| && ops[i].Sleep? ==> ops[i].duration == BackoffForAttempt(backoff, k - 1 + Sends(ops[..i]))
  }

  lemma PacedAppend(backoff: int, turn: seq<Op>, rest: seq<Op>, k: int)
    requires Paced(backoff, turn, k) && Sends(turn) == 1 && Paced(backoff, rest, k + 1)
    ensures Paced(backoff, turn + rest, k)
  {
    hide BackoffForAttempt, Sends;
    var ops := turn + rest;
    forall i | 0 <= i < |ops| && ops[i].Sleep?
      ensures ops[i].duration == BackoffForAttempt(backoff, k - 1 + Sends(ops[..i]))
    {
      if i < |turn| {
        assert ops[..i] == turn[..i];
      } else {
        assert ops[..i] == turn + rest[..i - |turn|];
        SendsConcat(turn, rest[..i - |turn|]);
      }
    }
  }

  lemma {:induction false} ScriptPaced(c: Call, k: int)
    requires 1 <= k <= c.attempts
    ensures Paced(c.backoff, Script(c, k).ops, k)
    decreases c.attempts - k
  {
    hide BackoffForAttempt, Sends, Script, Paced, TurnOf;
    ScriptFrom(c, k);
    TurnPaced(c, k);
    if TurnOf(c, k).Again? {
      TurnShape(c, k);
      TurnSendsOnce(c, k);
      ScriptPaced(c, k + 1);
      PacedAppend(c.backoff, TurnOf(c, k).ops, Script(c, k + 1).ops, k);
    }
  }

  lemma TurnSendsOnce(c: Call, k: int)
    ensures TurnOf(c, k).Again? ==> Sends(TurnOf(c, k).ops) == 1
  {
    hide BackoffForAttempt, RetryOps;
    RetryOpsShape(c, k, c.world.send(k));
  }

  /** One send, no other wait before this one. */
  lemma WaitPaced(backoff: int, k: int, before: seq<Op>, after: seq<Op>)
    requires Sends(before) == 1 && forall i :: 0 <= i < |before| ==> !before[i].Sleep?
    requires forall i :: 0 <= i < |after| ==> !after[i].Sleep?
    ensures Paced(backoff, before + [Sleep(BackoffForAttempt(backoff, k))] + after, k)
  {
    hide BackoffForAttempt, Sends;
    var ops := before + [Sleep(BackoffForAttempt(backoff, k))] + after;
    assert ops[..|before|] == before;
    forall i | |before| < i < |ops| ensures ops[i] == after[i - |before| - 1] {}
    forall i | 0 <= i < |before| ensures ops[i] == before[i] {}
  }

  lemma NoWaits(backoff: int, k: int, ops: seq<Op>)
    requires forall i :: 0 <= i < |ops| ==> !ops[i].Sleep?
    ensures Paced(backoff, ops, k)
  {
    hide BackoffForAttempt, Sends;
  }

  lemma TurnPaced(c: Call, k: int)
    ensures Paced(c.backoff, if TurnOf(c, k).Done? then TurnOf(c, k).run.ops else TurnOf(c, k).ops, k)
  {
    var o := c.world.send(k);
    var drain := if o.resp.Some? && o.resp.value.hasBody then [Drain(k)] else [];
    SendsConcat([Send(k)], drain);
    assert Sends([Send(k)] + drain) == 1;
    WaitPaced(c.backoff, k, [Send(k)] + drain, []);
    WaitPaced(c.backoff, k, [Send(k)] + drain, [Record(false)]);
    NoWaits(c.backoff, k, [Record(false)]);
    NoWaits(c.backoff, k, [Send(k), Record(false)]);
    NoWaits(c.backoff, k, [Send(k), Record(true)]);
    hide BackoffForAttempt, Sends, Paced;
    var ops := RetryOps(c, k, o);
    assert ops == [Send(k)] + drain + [Sleep(BackoffForAttempt(c.backoff, k))];
    assert ops + [] == ops;
  }

  /** The answer of a call that stopped at attempt n, for each of the four reasons to stop. */
  lemma AnswerOfCall(c: Call) returns (n: int)
    requires c.Valid()
    ensures StopsAt(c, 1, n)
    ensures var r, o, noBody := Script(c, 1), c.world.send(n), n > 1 && c.rewindable && c.world.rewind(n).Err?;
      && (noBody ==> r.resp == None && r.err == Some(c.world.rewind(n).error) && Sends(r.ops) == n - 1)
      && (!noBody ==> Sends(r.ops) == n)
      && (!noBody && Conclusive(o) ==> r.resp == o.resp && r.err == None)
      && (!noBody && !Conclusive(o) && (n == c.attempts || !c.replayable) ==>
            r.err == o.err && r.resp == if o.err.Some? then None else o.resp)
      && (!noBody && !Conclusive(o) && n < c.attempts && c.replayable ==>
            c.world.wait(n).Some? && r.resp == None && r.err == c.world.wait(n))
  {
    n := ScriptShape(c, 1);
    hide BackoffForAttempt, Script;
    SendsConcat(RetryOps(c, n, c.world.send(n)), [Record(false)]);
    RetryOpsShape(c, n, c.world.send(n));
    SendsConcat([Send(n)], [Record(false)]);
    SendsConcat([Send(n)], [Record(true)]);
    hide RetryOps;
  }

  /** Every response that is retried away and has a body is drained. */
  lemma {:induction false} RetriedAreDrained(c: Call, k: int, j: int)
    requires 1 <= k <= j < c.attempts && (forall i :: k <= i <= j ==> Retried(c, i))
    requires c.world.send(j).resp.Some? && c.world.send(j).resp.value.hasBody
    ensures Drain(j) in Script(c, k).ops
    decreases j - k
  {
    hide BackoffForAttempt;
    TurnShape(c, k);
    var ops, rest := TurnOf(c, k).ops, Script(c, k + 1).ops;
    assert Script(c, k).ops == ops + rest;
    if k < j {
      hide TurnOf;
      RetriedAreDrained(c, k + 1, j);
    } else {
      assert ops[1] == Drain(j);
    }
  }

  // ---- The waits of a call that fails to the end ----

  ghost predicate FailsToTheEnd(c: Call) {
    && (forall j :: 1 <= j < c.attempts ==> Retried(c, j))
    && (c.attempts > 1 && c.rewindable ==> c.world.rewind(c.attempts).Ok?)
    && !Conclusive(c.world.send(c.attempts))
  }

  ghost predicate WaitsFit(c: Call) {
    0 < c.backoff < TWO_63 && (c.attempts > 1 ==> c.backoff * Pow2(c.attempts - 2) < TWO_63)
  }

  lemma WaitsDouble(c: Call, j: int)
    requires WaitsFit(c) && 1 <= j < c.attempts
    ensures BackoffForAttempt(c.backoff, j) == c.backoff * Pow2(j - 1)
    ensures j > 1 ==> BackoffForAttempt(c.backoff, j) == 2 * BackoffForAttempt(c.backoff, j - 1)
  {
    hide BackoffForAttempt;
    Pow2Mono(j - 1, c.attempts - 2);
    MulMono(c.backoff, Pow2(j - 1), Pow2(c.attempts - 2));
    BackoffExact(c.backoff, j);
    if j > 1 {
      MulMono(c.backoff, Pow2(j - 2), Pow2(j - 1));
      BackoffExact(c.backoff, j - 1);
      assert c.backoff * Pow2(j - 1) == 2 * (c.backoff * Pow2(j - 2));
    }
  }

  /**
   When every attempt fails in a retryable way, each wait doubles the one before and they
   add up to base * (2^(n-1) - 1) from attempt 1 on, provided the longest fits in int64.
   */
  lemma {:induction false} FullFailureWaits(c: Call, k: int)
    requires WaitsFit(c) && FailsToTheEnd(c) && 1 <= k <= c.attempts
    ensures var ops := Script(c, k).ops;
      && Slept(ops) == c.backoff * (Pow2(c.attempts - 1) - Pow2(k - 1))
      && Sends(ops) == c.attempts - k + 1
    decreases c.attempts - k
  {
    hide BackoffForAttempt;
    if k < c.attempts {
      hide TurnOf;
      TurnShape(c, k);
      FullFailureWaits(c, k + 1);
      SendsConcat(TurnOf(c, k).ops, Script(c, k + 1).ops);
      WaitsDouble(c, k);
      Telescopes(c.backoff, Pow2(k - 1), Pow2(c.attempts - 1));
    } else {
      assert Script(c, k).ops == [Send(k), Record(false)];
      SendsConcat([Send(k)], [Record(false)]);
      assert c.backoff * 0 == 0;
    }
  }

  lemma Telescopes(b: int, p: int, q: int)
    ensures b * p + b * (q - 2 * p) == b * (q - p)
  {
  }

  lemma Pow2Mono(a: nat, b: nat)
    requires a <= b
    ensures Pow2(a) <= Pow2(b)
  {
    if a < b { Pow2Mono(a, b - 1); }
  }
}
