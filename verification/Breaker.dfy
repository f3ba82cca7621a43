/** The circuit breaker (pkg/errors/breaker.go).  Time is an integer argument; the error-rate
    comparison is over reals. */
module CircuitBreakers {

  datatype State = Closed | Open | HalfOpen

  datatype Config = Config(maxFailures: int, timeout: int, halfOpenMaxRequests: int,
                           failureThreshold: real, minRequests: int)

  // ----- the breaker as a value ---------------------------------------------------------------

  datatype Breaker = Breaker(state: State, failures: int, successes: int, totalRequests: int,
                             halfOpenRequests: int, halfOpenFailures: int, openedAt: int)

  const INITIAL := Breaker(Closed, 0, 0, 0, 0, 0, 0)

  predicate ShouldOpen(b: Breaker, cfg: Config) {
    || b.failures >= cfg.maxFailures
    || (b.totalRequests > 0 && b.totalRequests >= cfg.minRequests
        && b.failures as real / b.totalRequests as real >= cfg.failureThreshold)
  }

  predicate Admits(b: Breaker, cfg: Config, now: int) {
    match b.state
    case Closed => true
    case Open => now - b.openedAt >= cfg.timeout
    case HalfOpen => b.halfOpenRequests < cfg.halfOpenMaxRequests
  }

  function Before(b: Breaker, cfg: Config, now: int): Breaker {
    if !Admits(b, cfg, now) then b
    else match b.state
      case Closed => b
      case Open => b.(state := HalfOpen, halfOpenRequests := 0, halfOpenFailures := 0)
      case HalfOpen => b.(halfOpenRequests := b.halfOpenRequests + 1)
  }

  /** Closed, with every counter back to zero. */
  function Cleared(b: Breaker): Breaker {
    Breaker(Closed, 0, 0, 0, 0, 0, b.openedAt)
  }

  function After(b: Breaker, cfg: Config, failed: bool, now: int): Breaker {
    match b.state
    case Closed =>
      var counted := b.(totalRequests := b.totalRequests + 1);
      if !failed then counted.(successes := b.successes + 1)
      else
        var failing := counted.(failures := b.failures + 1);
        if ShouldOpen(failing, cfg) then failing.(state := Open, openedAt := now) else failing
    case HalfOpen =>
      if failed then b.(halfOpenFailures := b.halfOpenFailures + 1, state := Open, openedAt := now)
      else Cleared(b)
    case Open => b
  }

  function ForcedOpen(b: Breaker, now: int): Breaker {
    if b.state == Open then b else b.(state := Open, openedAt := now)
  }

  // ----- every interleaving -------------------------------------------------------------------

  datatype Event = Call(now: int) | Return(failed: bool, now: int) | Reset(now: int) | ForceOpen(now: int)

  /** inFlight: admitted calls that have not returned; admitted: all calls admitted so far;
      episode: calls admitted since the breaker last left the open state, that one included. */
  datatype World = World(b: Breaker, clock: int, inFlight: nat, admitted: nat, episode: nat)

  predicate Enabled(w: World, e: Event) {
    w.clock <= e.now && (e.Return? ==> w.inFlight > 0)
  }

  function Step(w: World, cfg: Config, e: Event): World
    requires Enabled(w, e)
  {
    match e
    case Call(now) =>
      if !Admits(w.b, cfg, now) then w.(clock := now)
      else World(Before(w.b, cfg, now), now, w.inFlight + 1, w.admitted + 1,
                 if w.b.state == Open then 1 else w.episode + 1)
    case Return(failed, now) => w.(b := After(w.b, cfg, failed, now), clock := now, inFlight := w.inFlight - 1)
    case Reset(now) => w.(b := Cleared(w.b), clock := now)
    case ForceOpen(now) => w.(b := ForcedOpen(w.b, now), clock := now)
  }

  predicate IsRun(w: World, cfg: Config, run: seq<Event>)
    decreases |run|
  {
    run == [] || (Enabled(w, run[0]) && IsRun(Step(w, cfg, run[0]), cfg, run[1..]))
  }

  function Final(w: World, cfg: Config, run: seq<Event>): World
    requires IsRun(w, cfg, run)
    decreases |run|
  {
    if run == [] then w else Final(Step(w, cfg, run[0]), cfg, run[1..])
  }

  ghost predicate Consistent(w: World, cfg: Config) {
    && w.b.failures >= 0 && w.b.successes >= 0
    && w.b.failures + w.b.successes == w.b.totalRequests
    && (w.b.state == Closed && cfg.maxFailures >= 1 ==> w.b.failures < cfg.maxFailures)
    && (w.b.state == HalfOpen ==>
          w.b.halfOpenRequests >= 0 && w.episode == w.b.halfOpenRequests + 1
          && (w.b.halfOpenRequests > 0 ==> w.b.halfOpenRequests <= cfg.halfOpenMaxRequests))
  }

  /** Every interleaving of calls, returns, resets and forced openings: the counters add up, a
      closed breaker is below its failure limit, and a half-open episode has admitted at most
      HalfOpenMaxRequests + 1 calls, the one that ended the open state included. */
  lemma {:induction false} CountersStayConsistent(w: World, cfg: Config, run: seq<Event>)
    requires Consistent(w, cfg) && IsRun(w, cfg, run)
    ensures Consistent(Final(w, cfg, run), cfg)
    ensures Final(w, cfg, run).b.state == HalfOpen ==>
              Final(w, cfg, run).episode <= 1 + if cfg.halfOpenMaxRequests > 0 then cfg.halfOpenMaxRequests else 0
    decreases |run|
  {
    if run != [] {
      CountersStayConsistent(Step(w, cfg, run[0]), cfg, run[1..]);
    }
  }

  /** While open and before the timeout, no call is admitted and nothing but a Reset closes it. */
  lemma {:induction false} OpenAdmitsNothing(w: World, cfg: Config, run: seq<Event>)
    requires w.b.state == Open && IsRun(w, cfg, run)
    requires forall i :: 0 <= i < |run| ==> !run[i].Reset? && run[i].now < w.b.openedAt + cfg.timeout
    ensures Final(w, cfg, run).b == w.b && Final(w, cfg, run).admitted == w.admitted
    decreases |run|
  {
    if run != [] {
      assert !run[0].Reset? && run[0].now < w.b.openedAt + cfg.timeout;
      OpenAdmitsNothing(Step(w, cfg, run[0]), cfg, run[1..]);
    }
  }

  // ----- what a call and a result do ----------------------------------------------------------

  /** Closed: every call is admitted and changes nothing else. */
  lemma ClosedAdmitsEveryCall(w: World, cfg: Config, now: int)
    requires w.b.state == Closed && Enabled(w, Call(now))
    ensures var v := Step(w, cfg, Call(now)); v.b == w.b && v.admitted == w.admitted + 1
  {
  }

  /** Open: the first call after the timeout is admitted and starts a half-open episode with nothing
      counted. */
  lemma TimeoutHalfOpens(w: World, cfg: Config, now: int)
    requires w.b.state == Open && Enabled(w, Call(now)) && now - w.b.openedAt >= cfg.timeout
    ensures var v := Step(w, cfg, Call(now));
            && v.admitted == w.admitted + 1 && v.b.state == HalfOpen
            && v.b.halfOpenRequests == 0 && v.b.halfOpenFailures == 0
            && v.b.failures == w.b.failures && v.b.successes == w.b.successes
            && v.b.totalRequests == w.b.totalRequests && v.b.openedAt == w.b.openedAt
  {
  }

  /** Half-open: a failed result reopens the breaker at that time, and no call is admitted in any run
      without a Reset until the timeout has passed again. */
  lemma HalfOpenFailureReopens(w: World, cfg: Config, now: int, rest: seq<Event>)
    requires w.b.state == HalfOpen && IsRun(w, cfg, [Return(true, now)] + rest)
    requires forall i :: 0 <= i < |rest| ==> !rest[i].Reset? && rest[i].now < now + cfg.timeout
    ensures var v := Final(w, cfg, [Return(true, now)] + rest);
            && v.b.state == Open && v.b.openedAt == now && v.admitted == w.admitted
            && v.b.halfOpenFailures == w.b.halfOpenFailures + 1
  {
    var run := [Return(true, now)] + rest;
    assert run[0] == Return(true, now) && run[1..] == rest;
    OpenAdmitsNothing(Step(w, cfg, run[0]), cfg, rest);
  }

  /** Half-open: a successful result closes the breaker and clears every counter. */
  lemma HalfOpenSuccessCloses(w: World, cfg: Config, now: int)
    requires w.b.state == HalfOpen && Enabled(w, Return(false, now))
    ensures var v := Step(w, cfg, Return(false, now)).b;
            && v.state == Closed && v.failures == 0 && v.successes == 0 && v.totalRequests == 0
            && v.halfOpenRequests == 0 && v.halfOpenFailures == 0 && v.openedAt == w.b.openedAt
  {
  }

  /** A Reset closes the breaker in any state and clears every counter; a ForceOpen opens it at that
      time unless it is open, and keeps the counters. */
  lemma ResetAndForceOpen(w: World, cfg: Config, now: int)
    requires w.clock <= now
    ensures Step(w, cfg, Reset(now)).b == Breaker(Closed, 0, 0, 0, 0, 0, w.b.openedAt)
    ensures Step(w, cfg, ForceOpen(now)).b
         == w.b.(state := Open, openedAt := if w.b.state == Open then w.b.openedAt else now)
  {
  }

  /** Open: a late result changes nothing. */
  lemma LateResultIgnored(w: World, cfg: Config, failed: bool, now: int)
    requires w.b.state == Open && Enabled(w, Return(failed, now))
    ensures Step(w, cfg, Return(failed, now)).b == w.b
  {
  }

  /** Closed: a result is counted under its outcome, and a failed one opens the breaker at that time
      exactly when MaxFailures is reached or, with MinRequests counted, the error rate is at the
      threshold. */
  lemma ClosedResultCounts(w: World, cfg: Config, failed: bool, now: int)
    requires w.b.state == Closed && Enabled(w, Return(failed, now)) && w.b.totalRequests >= 0
    ensures var v := Step(w, cfg, Return(failed, now)).b;
            var rateAtThreshold := v.totalRequests >= cfg.minRequests
                                   && v.failures as real / v.totalRequests as real >= cfg.failureThreshold;
            && v.totalRequests == w.b.totalRequests + 1
            && v.failures == w.b.failures + (if failed then 1 else 0)
            && v.successes == w.b.successes + (if failed then 0 else 1)
            && (v.state == Closed || v.state == Open)
            && v.openedAt == (if v.state == Open then now else w.b.openedAt)
            && (v.state == Open <==> failed && (v.failures >= cfg.maxFailures || rateAtThreshold))
  {
  }

  function FailedResults(run: seq<Event>): nat {
    if run == [] then 0 else (if run[0].Return? && run[0].failed then 1 else 0) + FailedResults(run[1..])
  }

  function Results(run: seq<Event>): nat {
    if run == [] then 0 else (if run[0].Return? then 1 else 0) + Results(run[1..])
  }

  /** Closed all along, and never reset. */
  predicate StaysClosed(w: World, cfg: Config, run: seq<Event>)
    requires IsRun(w, cfg, run)
    decreases |run|
  {
    && w.b.state == Closed
    && (run == [] || (!run[0].Reset? && StaysClosed(Step(w, cfg, run[0]), cfg, run[1..])))
  }

  /** Over any run that keeps the breaker closed the counters count its results, so fewer than
      MaxFailures of them have failed. */
  lemma {:induction false} ClosedBreakerCounts(w: World, cfg: Config, run: seq<Event>)
    requires Consistent(w, cfg) && IsRun(w, cfg, run) && StaysClosed(w, cfg, run)
    ensures var b := Final(w, cfg, run).b;
            && b.failures == w.b.failures + FailedResults(run)
            && b.totalRequests == w.b.totalRequests + Results(run)
            && (cfg.maxFailures >= 1 ==> w.b.failures + FailedResults(run) < cfg.maxFailures)
    decreases |run|
  {
    if run != [] {
      var w' := Step(w, cfg, run[0]);
      assert Consistent(w', cfg);
      ClosedBreakerCounts(w', cfg, run[1..]);
    }
  }

  /** After every failed result of any run, a breaker that is still closed is below its failure limit
      and, with MinRequests counted, below the threshold. */
  lemma BelowThresholdAfterFailure(w: World, cfg: Config, run: seq<Event>, now: int)
    requires Consistent(w, cfg) && IsRun(w, cfg, run) && Enabled(Final(w, cfg, run), Return(true, now))
    ensures var b := Step(Final(w, cfg, run), cfg, Return(true, now)).b;
            b.state == Closed ==>
              && b.failures < cfg.maxFailures && b.totalRequests > 0
              && (b.totalRequests >= cfg.minRequests ==>
                    b.failures as real / b.totalRequests as real < cfg.failureThreshold)
  {
    CountersStayConsistent(w, cfg, run);
  }

  /** A run of n calls at one time. */
  function Calls(n: nat, now: int): seq<Event> {
    seq(n, i => Call(now))
  }

  lemma {:induction false} HalfOpenAdmitsUpTo(w: World, cfg: Config, n: nat)
    requires w.b.state == HalfOpen && w.b.halfOpenRequests + n <= cfg.halfOpenMaxRequests
    ensures IsRun(w, cfg, Calls(n, w.clock))
    ensures var w' := Final(w, cfg, Calls(n, w.clock));
            && w'.b.state == HalfOpen && w'.episode == w.episode + n
            && w'.b.halfOpenRequests == w.b.halfOpenRequests + n
    decreases n
  {
    if n > 0 {
      var run := Calls(n, w.clock);
      assert run[0] == Call(w.clock) && run[1..] == Calls(n - 1, w.clock);
      HalfOpenAdmitsUpTo(Step(w, cfg, run[0]), cfg, n - 1);
    }
  }

  /** The bound is attained: one call more than HalfOpenMaxRequests is let through. */
  lemma HalfOpenAdmitsOneMore(w: World, cfg: Config)
    requires w.b.state == Open && w.clock >= w.b.openedAt + cfg.timeout && cfg.halfOpenMaxRequests >= 0
    ensures var run := Calls(cfg.halfOpenMaxRequests + 1, w.clock);
            && IsRun(w, cfg, run)
            && Final(w, cfg, run).b.state == HalfOpen
            && Final(w, cfg, run).episode == cfg.halfOpenMaxRequests + 1
            && !Admits(Final(w, cfg, run).b, cfg, w.clock)
  {
    var run := Calls(cfg.halfOpenMaxRequests + 1, w.clock);
    assert run[0] == Call(w.clock) && run[1..] == Calls(cfg.halfOpenMaxRequests, w.clock);
    HalfOpenAdmitsUpTo(Step(w, cfg, run[0]), cfg, cfg.halfOpenMaxRequests);
  }

  // ----- the breaker object -------------------------------------------------------------------

  class CircuitBreaker {
    const config: Config
    var state: State
    var failures: int
    var successes: int
    var totalRequests: int
    var halfOpenRequests: int
    var halfOpenFailures: int
    var openedAt: int

    ghost function View(): Breaker
      reads this
    {
      Breaker(state, failures, successes, totalRequests, halfOpenRequests, halfOpenFailures, openedAt)
    }

    ghost predicate Valid()
      reads this
    {
      totalRequests >= 0
    }

    constructor (config: Config)
      ensures Valid() && View() == INITIAL && this.config == config
    {
      this.config := config;
      state, failures, successes, totalRequests := Closed, 0, 0, 0;
      halfOpenRequests, halfOpenFailures, openedAt := 0, 0, 0;
    }

    method BeforeRequest(now: int) returns (ok: bool)
      requires Valid()
      modifies this
      ensures Valid()
      ensures ok <==> Admits(old(View()), config, now)
      ensures View() == Before(old(View()), config, now)
    {
      match state {
        case Closed =>
          return true;
        case Open =>
          if now - openedAt >= config.timeout {
            state := HalfOpen;
            halfOpenRequests := 0;
            halfOpenFailures := 0;
            return true;
          }
          return false;
        case HalfOpen =>
          if halfOpenRequests >= config.halfOpenMaxRequests {
            return false;
          }
          halfOpenRequests := halfOpenRequests + 1;
          return true;
      }
    }

    method AfterRequest(failed: bool, now: int)
      requires Valid()
      modifies this
      ensures Valid()
      ensures View() == After(old(View()), config, failed, now)
    {
      match state {
        case Closed =>
          totalRequests := totalRequests + 1;
          if failed {
            failures := failures + 1;
            var should := CheckShouldOpen();
            if should {
              state := Open;
              openedAt := now;
            }
          } else {
            successes := successes + 1;
          }
        case HalfOpen =>
          if failed {
            halfOpenFailures := halfOpenFailures + 1;
            state := Open;
            openedAt := now;
          } else {
            state := Closed;
            ResetCounters();
          }
        case Open =>
      }
    }

    method CheckShouldOpen() returns (should: bool)
      requires totalRequests > 0
      ensures should <==> ShouldOpen(View(), config)
    {
      if failures >= config.maxFailures {
        return true;
      }
      if totalRequests >= config.minRequests {
        var errorRate := failures as real / totalRequests as real;
        if errorRate >= config.failureThreshold {
          return true;
        }
      }
      return false;
    }

    method ResetCounters()
      modifies this
      ensures View() == Breaker(old(state), 0, 0, 0, 0, 0, old(openedAt))
    {
      failures, successes, totalRequests := 0, 0, 0;
      halfOpenRequests, halfOpenFailures := 0, 0;
    }

    method Reset()
      modifies this
      ensures Valid()
      ensures View() == Cleared(old(View()))
    {
      state := Closed;
      ResetCounters();
    }

    method ForceOpen(now: int)
      requires Valid()
      modifies this
      ensures Valid()
      ensures View() == ForcedOpen(old(View()), now)
    {
      if state != Open {
        state := Open;
        openedAt := now;
      }
    }
  }
}
