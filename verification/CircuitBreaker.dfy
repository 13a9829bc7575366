/** The circuit breaker as a concurrent protocol. Every step below is one critical
    section; between them callers hold the generation they were admitted under. */
module CircuitBreaker {
  import opened Options

  datatype State = Closed | HalfOpen | Open

  datatype Config = Config(maxRequests: nat, interval: int, timeout: int, readyToTrip: real) {
    predicate Usable() { maxRequests > 0 && readyToTrip > 0.0 }
  }

  /** `expiry` None is the zero time. */
  datatype Breaker = Breaker(state: State, generation: nat, requests: nat, successes: nat, expiry: Option<int>)

  const FRESH := Breaker(Closed, 0, 0, 0, None)

  // ---------- the critical sections ----------

  /** Whether beforeRequest lets a caller through who read the clock at `now`. */
  predicate Admits(c: Config, b: Breaker, now: int) {
    match b.state
    case Closed => true
    case HalfOpen => b.requests < c.maxRequests
    case Open => Expired(b, now)
  }

  predicate Expired(b: Breaker, now: int) {
    b.expiry.None? || now > b.expiry.value
  }

  function BeforeRequest(c: Config, b: Breaker, now: int): Breaker {
    match b.state
    case Closed => if b.expiry.None? then b.(expiry := Some(now + c.interval)) else b
    case HalfOpen => b
    case Open =>
      if Expired(b, now) then b.(state := HalfOpen, requests := 0, successes := 0, expiry := None) else b
  }

  function FailureRate(requests: nat, successes: nat): real
    requires requests > 0
  {
    (requests - successes) as real / requests as real
  }

  /** The tripping condition, on the counts after a failure was counted. */
  predicate Trips(c: Config, requests: nat, successes: nat)
    requires c.Usable()
  {
    requests >= c.maxRequests && FailureRate(requests, successes) >= c.readyToTrip
  }

  /** The failures make up the configured share, of at least maxRequests requests. */
  lemma {:induction false} TripsExactly(c: Config, requests: nat, successes: nat)
    requires c.Usable()
    ensures Trips(c, requests, successes)
            <==> requests >= c.maxRequests && (requests - successes) as real >= c.readyToTrip * requests as real
  {
    if requests > 0 {
      var f, r := (requests - successes) as real, requests as real;
      assert r > 0.0 && f / r * r == f;
      if f / r >= c.readyToTrip {
        RealMonotone(c.readyToTrip, f / r, r);
      } else {
        assert (c.readyToTrip - f / r) * r > 0.0;
      }
    }
  }

  lemma {:induction false} RealMonotone(x: real, y: real, r: real)
    requires x <= y && r > 0.0
    ensures x * r <= y * r
  {
    assert (y - x) * r >= 0.0;
  }

  function EvaluateAndTrip(c: Config, b: Breaker, now: int): Breaker
    requires c.Usable()
  {
    if Trips(c, b.requests, b.successes)
    then b.(state := Open, expiry := Some(now + c.timeout), generation := b.generation + 1)
    else b
  }

  function AfterRequest(c: Config, b: Breaker, token: nat, success: bool, now: int): Breaker
    requires c.Usable()
  {
    if token != b.generation then b
    else if !success then EvaluateAndTrip(c, b.(requests := b.requests + 1), now)
    else if b.state.HalfOpen? then b.(state := Closed, requests := 0, successes := 0, expiry := None)
    else b.(requests := b.requests + 1, successes := b.successes + 1)
  }

  function ForceReset(b: Breaker): Breaker {
    Breaker(Closed, b.generation + 1, 0, 0, None)
  }

  // ---------- interleavings ----------

  /** The breaker with the tokens of the Execute callers inside their function, and
      the generations read, without the lock, by RecordSuccess or RecordFailure
      calls that have not taken it yet. */
  datatype World = World(b: Breaker, callers: seq<nat>, recorders: seq<nat>)

  datatype Step =
    | Begin(now: int)                             // Execute asks to start
    | Check(now: int)                             // Allow
    | End(caller: nat, success: bool, now: int)   // an Execute caller reports
    | ReadGeneration                              // RecordSuccess or RecordFailure starts
    | Commit(recorder: nat, success: bool, now: int)
    | Reset                                       // ForceReset

  function Without(s: seq<nat>, i: nat): seq<nat>
    requires i < |s|
  {
    s[..i] + s[i + 1..]
  }

  /** A step of a caller or recorder that does not exist leaves the world as it is. */
  function Next(c: Config, w: World, step: Step): World
    requires c.Usable()
  {
    match step
    case Begin(now) =>
      World(BeforeRequest(c, w.b, now),
            if Admits(c, w.b, now) then w.callers + [w.b.generation] else w.callers, w.recorders)
    case Check(now) => w.(b := BeforeRequest(c, w.b, now))
    case End(i, success, now) =>
      if i >= |w.callers| then w
      else World(AfterRequest(c, w.b, w.callers[i], success, now), Without(w.callers, i), w.recorders)
    case ReadGeneration => w.(recorders := w.recorders + [w.b.generation])
    case Commit(i, success, now) =>
      if i >= |w.recorders| then w
      else World(AfterRequest(c, w.b, w.recorders[i], success, now), w.callers, Without(w.recorders, i))
    case Reset => w.(b := ForceReset(w.b))
  }

  function RunFrom(c: Config, w: World, steps: seq<Step>): World
    requires c.Usable()
    decreases |steps|
  {
    if steps == [] then w else RunFrom(c, Next(c, w, steps[0]), steps[1..])
  }

  function Run(c: Config, steps: seq<Step>): World
    requires c.Usable()
  {
    RunFrom(c, World(FRESH, [], []), steps)
  }

  /** The clock readings of the Begin and Check steps that were let through. */
  function Admissions(c: Config, w: World, steps: seq<Step>): seq<int>
    requires c.Usable()
    decreases |steps|
  {
    if steps == [] then []
    else
      (if (steps[0].Begin? || steps[0].Check?) && Admits(c, w.b, steps[0].now) then [steps[0].now] else [])
      + Admissions(c, Next(c, w, steps[0]), steps[1..])
  }

  // ---------- what every interleaving keeps ----------

  ghost predicate BreakerInv(c: Config, b: Breaker) {
    && b.successes <= b.requests
    && (!b.state.Closed? ==> c.readyToTrip <= 1.0)
    && (b.state.HalfOpen? ==> b.successes == 0 && b.requests < c.maxRequests && b.expiry.None?)
    && (b.state.Open? ==> b.expiry.Some?)
  }

  /** No one holds a token from the future, and while the breaker is open every
      Execute caller still inside holds a token that is out of date. */
  ghost predicate TokensInv(w: World) {
    && (forall t :: t in w.callers ==> t <= w.b.generation)
    && (forall t :: t in w.recorders ==> t <= w.b.generation)
    && (w.b.state.Open? ==> forall t :: t in w.callers ==> t < w.b.generation)
  }

  ghost predicate Inv(c: Config, w: World) {
    BreakerInv(c, w.b) && TokensInv(w)
  }

  lemma {:induction false} RateAtMostOne(requests: nat, successes: nat)
    requires requests > 0 && successes <= requests
    ensures FailureRate(requests, successes) <= 1.0
    ensures successes == 0 ==> FailureRate(requests, successes) == 1.0
  {
    var r, f := requests as real, (requests - successes) as real;
    assert f <= r && r > 0.0;
    assert f / r <= r / r;
  }

  lemma {:induction false} AfterRequestKeeps(c: Config, b: Breaker, token: nat, success: bool, now: int)
    requires c.Usable() && BreakerInv(c, b)
    ensures BreakerInv(c, AfterRequest(c, b, token, success, now))
    ensures AfterRequest(c, b, token, success, now).generation >= b.generation
    ensures AfterRequest(c, b, token, success, now).state.Open? ==>
              || (token == b.generation && AfterRequest(c, b, token, success, now).generation == b.generation + 1)
              || (b.state.Open? && AfterRequest(c, b, token, success, now).generation == b.generation)
  {
    if token == b.generation && !success {
      RateAtMostOne(b.requests + 1, b.successes);
    }
  }

  lemma {:induction false} StepKeeps(c: Config, w: World, step: Step)
    requires c.Usable() && Inv(c, w)
    ensures Inv(c, Next(c, w, step))
    ensures Next(c, w, step).b.generation >= w.b.generation
  {
    match step
    case Begin(_) =>
    case Check(_) =>
    case End(i, success, now) =>
      if i < |w.callers| {
        AfterRequestKeeps(c, w.b, w.callers[i], success, now);
        assert forall t :: t in Without(w.callers, i) ==> t in w.callers;
      }
    case ReadGeneration =>
    case Commit(i, success, now) =>
      if i < |w.recorders| {
        AfterRequestKeeps(c, w.b, w.recorders[i], success, now);
        assert forall t :: t in Without(w.recorders, i) ==> t in w.recorders;
      }
    case Reset =>
  }

  lemma {:induction false} RunKeeps(c: Config, w: World, steps: seq<Step>)
    requires c.Usable() && Inv(c, w)
    ensures Inv(c, RunFrom(c, w, steps))
    ensures RunFrom(c, w, steps).b.generation >= w.b.generation
    decreases |steps|
  {
    if steps == [] {
    } else {
      StepKeeps(c, w, steps[0]);
      RunKeeps(c, Next(c, w, steps[0]), steps[1..]);
    }
  }

  // ---------- main results ----------

  /** The breaker never wedges. After any interleaving a request is turned away
      exactly when the breaker is open and its time is not up: the half-open limit,
      which counts completed requests, never turns anyone away. */
  lemma {:induction false} RejectsExactlyWhileOpen(c: Config, steps: seq<Step>, now: int)
    requires c.Usable()
    ensures var b := Run(c, steps).b;
            && (b.state.HalfOpen? ==> b.successes == 0 && b.requests < c.maxRequests)
            && (b.state.Open? ==> b.expiry.Some?)
            && (!Admits(c, b, now) <==> b.state.Open? && now <= b.expiry.value)
  {
    RunKeeps(c, World(FRESH, [], []), steps);
  }

  /** A step that neither resets nor commits a recorded outcome, and whose request,
      if it is one, was read no later than `e`. */
  predicate Quiet(step: Step, e: int) {
    match step
    case Begin(now) => now <= e
    case Check(now) => now <= e
    case End(_, _, _) => true
    case ReadGeneration => true
    case Commit(_, _, _) => false
    case Reset => false
  }

  /** While the breaker is open nothing an Execute caller does is felt: late
      completions change no field, the expiry stays, and no one whose reading is at
      or before the expiry gets in, in whatever order they come. */
  lemma {:induction false} OpenIsQuiet(c: Config, w: World, steps: seq<Step>)
    requires c.Usable() && Inv(c, w) && w.b.state.Open?
    requires forall s :: s in steps ==> Quiet(s, w.b.expiry.value)
    ensures RunFrom(c, w, steps).b == w.b
    ensures Admissions(c, w, steps) == []
    decreases |steps|
  {
    if steps == [] {
    } else {
      assert steps[0] in steps;
      assert steps[0].End? && steps[0].caller < |w.callers| ==> w.callers[steps[0].caller] in w.callers;
      StepKeeps(c, w, steps[0]);
      OpenIsQuiet(c, Next(c, w, steps[0]), steps[1..]);
    }
  }

  /** The same for a run from the start: `prefix` ends with the breaker open. */
  lemma {:induction false} OpenUntilExpiry(c: Config, prefix: seq<Step>, steps: seq<Step>)
    requires c.Usable() && Run(c, prefix).b.state.Open? && Run(c, prefix).b.expiry.Some?
    requires forall s :: s in steps ==> Quiet(s, Run(c, prefix).b.expiry.value)
    ensures RunFrom(c, Run(c, prefix), steps).b == Run(c, prefix).b
    ensures Admissions(c, Run(c, prefix), steps) == []
  {
    RunKeeps(c, World(FRESH, [], []), prefix);
    OpenIsQuiet(c, Run(c, prefix), steps);
  }

  /** No reset, and no recorded outcome whose failure would end the time out before `e`. */
  predicate KeepsExpiry(c: Config, step: Step, e: int) {
    !step.Reset? && (step.Commit? ==> step.now + c.timeout >= e)
  }

  /** Requests read the clock before they enter, so one that read after the expiry may
      let in others that read before it. But it has to come first: whoever gets in first
      has read a time past the expiry. Up to then the breaker stays open. */
  lemma {:induction false} FirstAdmissionPastExpiry(c: Config, w: World, steps: seq<Step>, e: int)
    requires c.Usable() && Inv(c, w) && w.b.state.Open? && e <= w.b.expiry.value
    requires forall s :: s in steps ==> KeepsExpiry(c, s, e)
    ensures Admissions(c, w, steps) != [] ==> Admissions(c, w, steps)[0] > e
    ensures Admissions(c, w, steps) == [] ==> RunFrom(c, w, steps).b.state.Open?
    decreases |steps|
  {
    if steps == [] {
    } else {
      var step, next := steps[0], Next(c, w, steps[0]);
      assert step in steps;
      StepKeeps(c, w, step);
      if (step.Begin? || step.Check?) && Admits(c, w.b, step.now) {
      } else {
        StaysOpen(c, w, step, e);
        FirstAdmissionPastExpiry(c, next, steps[1..], e);
      }
    }
  }

  lemma {:induction false} StaysOpen(c: Config, w: World, step: Step, e: int)
    requires c.Usable() && Inv(c, w) && w.b.state.Open? && e <= w.b.expiry.value && KeepsExpiry(c, step, e)
    requires step.Begin? || step.Check? ==> !Admits(c, w.b, step.now)
    ensures var b := Next(c, w, step).b; b.state.Open? && b.expiry.Some? && e <= b.expiry.value
    ensures !step.Commit? ==> Next(c, w, step).b == w.b
  {
    assert step.End? && step.caller < |w.callers| ==> w.callers[step.caller] in w.callers;
  }

  /** Without recorded outcomes nothing at all changes before the first admission. */
  lemma {:induction false} NoAdmissionNoChange(c: Config, w: World, steps: seq<Step>)
    requires c.Usable() && Inv(c, w) && w.b.state.Open? && Admissions(c, w, steps) == []
    requires forall s :: s in steps ==> !s.Reset? && !s.Commit?
    ensures RunFrom(c, w, steps).b == w.b
    decreases |steps|
  {
    if steps == [] {
    } else {
      assert steps[0] in steps;
      StepKeeps(c, w, steps[0]);
      StaysOpen(c, w, steps[0], w.b.expiry.value);
      NoAdmissionNoChange(c, Next(c, w, steps[0]), steps[1..]);
    }
  }

  /** As Quiet, with recorded outcomes whose failure is evaluated at a reading not
      before the trip. */
  predicate Orderly(c: Config, step: Step, e: int) {
    if step.Commit? then step.now + c.timeout >= e else Quiet(step, e)
  }

  /** RecordFailure carries the current generation even while the breaker is open,
      and can then push the expiry back, but never forward: still no one gets in
      at or before the first expiry. */
  lemma {:induction false} RecordingOnlyExtends(c: Config, w: World, steps: seq<Step>, e: int)
    requires c.Usable() && Inv(c, w) && w.b.state.Open? && e <= w.b.expiry.value
    requires forall s :: s in steps ==> Orderly(c, s, e)
    ensures RunFrom(c, w, steps).b.state.Open? && RunFrom(c, w, steps).b.expiry.Some?
    ensures e <= RunFrom(c, w, steps).b.expiry.value
    ensures Admissions(c, w, steps) == []
    decreases |steps|
  {
    if steps == [] {
    } else {
      assert steps[0] in steps;
      assert steps[0].End? && steps[0].caller < |w.callers| ==> w.callers[steps[0].caller] in w.callers;
      StepKeeps(c, w, steps[0]);
      RecordingOnlyExtends(c, Next(c, w, steps[0]), steps[1..], e);
    }
  }

  /** What a recorded outcome does while the breaker is open, in any run: it counts if
      its generation is current, and a failure that reaches the thresholds again moves
      the generation on and the expiry to its own reading plus the timeout. Nothing else
      moves either of them, and the breaker stays open. */
  lemma {:induction false} RecordedWhileOpen(c: Config, steps: seq<Step>, i: nat, success: bool, now: int)
    requires c.Usable() && Run(c, steps).b.state.Open? && i < |Run(c, steps).recorders|
    ensures var w, next := Run(c, steps), Next(c, Run(c, steps), Commit(i, success, now));
            var current := w.recorders[i] == w.b.generation;
            var trips := current && !success && Trips(c, w.b.requests + 1, w.b.successes);
            && w.b.expiry.Some? && next.b.state.Open?
            && (next.b.generation != w.b.generation <==> trips)
            && (next.b.expiry.Some? && next.b.expiry.value > w.b.expiry.value
                <==> trips && now + c.timeout > w.b.expiry.value)
            && next.b == w.b.(requests := if current then w.b.requests + 1 else w.b.requests,
                              successes := if current && success then w.b.successes + 1 else w.b.successes,
                              generation := if trips then w.b.generation + 1 else w.b.generation,
                              expiry := if trips then Some(now + c.timeout) else w.b.expiry)
  {
    RunKeeps(c, World(FRESH, [], []), steps);
  }

  /** n failures recorded one after the other, each read and committed at once. */
  function RecordedFailures(n: nat): seq<Step> {
    if n == 0 then [] else RecordedFailures(n - 1) + [ReadGeneration, Commit(0, false, 0)]
  }

  lemma {:induction false} RunConcat(c: Config, w: World, xs: seq<Step>, ys: seq<Step>)
    requires c.Usable()
    ensures RunFrom(c, w, xs + ys) == RunFrom(c, RunFrom(c, w, xs), ys)
    decreases |xs|
  {
    if xs == [] {
      assert xs + ys == ys;
    } else {
      assert (xs + ys)[0] == xs[0] && (xs + ys)[1..] == xs[1..] + ys;
      RunConcat(c, Next(c, w, xs[0]), xs[1..], ys);
    }
  }

  lemma {:induction false} RecordOne(c: Config, b: Breaker, now: int)
    requires c.Usable()
    ensures RunFrom(c, World(b, [], []), [ReadGeneration, Commit(0, false, now)])
            == World(AfterRequest(c, b, b.generation, false, now), [], [])
  {
    var w := Next(c, World(b, [], []), ReadGeneration);
    assert w == World(b, [], [b.generation]);
    assert [ReadGeneration, Commit(0, false, now)][1..] == [Commit(0, false, now)];
    assert Without([b.generation], 0) == [];
    assert RunFrom(c, w, [Commit(0, false, now)]) == Next(c, w, Commit(0, false, now));
  }

  /** Failures alone are all of the rate: the maxRequests-th opens the breaker. */
  lemma {:induction false} FailuresOpen(c: Config, n: nat)
    requires c.Usable() && c.readyToTrip <= 1.0 && n <= c.maxRequests
    ensures Run(c, RecordedFailures(n))
            == World(if n < c.maxRequests then Breaker(Closed, 0, n, 0, None)
                     else Breaker(Open, 1, n, 0, Some(c.timeout)), [], [])
  {
    if n == 0 {
    } else {
      FailuresOpen(c, n - 1);
      RunConcat(c, World(FRESH, [], []), RecordedFailures(n - 1), [ReadGeneration, Commit(0, false, 0)]);
      RecordOne(c, Breaker(Closed, 0, n - 1, 0, None), 0);
      RateAtMostOne(n, 0);
    }
  }

  /** Some run in which a step moves the expiry of an open breaker back. */
  ghost predicate CanExtend(c: Config)
    requires c.Usable()
  {
    exists steps: seq<Step>, step :: Extends(c, steps, step)
  }

  predicate Extends(c: Config, steps: seq<Step>, step: Step)
    requires c.Usable()
  {
    var b, next := Run(c, steps).b, Next(c, Run(c, steps), step).b;
    b.state.Open? && next.state.Open? && b.expiry.Some? && next.expiry.Some? && next.expiry.value > b.expiry.value
  }

  /** This does happen, for every configuration under which the breaker can open at all. */
  lemma {:induction false} ExpiryCanMoveBack(c: Config)
    requires c.Usable()
    ensures CanExtend(c) <==> c.readyToTrip <= 1.0
  {
    if c.readyToTrip <= 1.0 {
      var n := c.maxRequests;
      var steps := RecordedFailures(n) + [ReadGeneration];
      FailuresOpen(c, n);
      RunConcat(c, World(FRESH, [], []), RecordedFailures(n), [ReadGeneration]);
      var w := Run(c, RecordedFailures(n));
      assert RunFrom(c, w, [ReadGeneration]) == Next(c, w, ReadGeneration);
      assert Run(c, steps) == World(w.b, [], [w.b.generation]);
      RateAtMostOne(n + 1, 0);
      assert Extends(c, steps, Commit(0, false, 1));
    } else {
      forall steps: seq<Step>, step ensures !Extends(c, steps, step) {
        RunKeeps(c, World(FRESH, [], []), steps);
      }
    }
  }

  /** A trip puts every caller still inside out of date, and fixes the expiry. */
  lemma {:induction false} TripStalesEveryCaller(c: Config, steps: seq<Step>, step: Step)
    requires c.Usable()
    requires var w := Run(c, steps); !w.b.state.Open? && Next(c, w, step).b.state.Open?
    ensures var w, next := Run(c, steps), Next(c, Run(c, steps), step);
            && (step.End? || step.Commit?) && !step.success
            && next.b.generation == w.b.generation + 1
            && next.b.expiry == Some(step.now + c.timeout)
            && (forall t :: t in next.callers ==> t < next.b.generation)
            && (forall t, success, now :: t in next.callers ==> AfterRequest(c, next.b, t, success, now) == next.b)
  {
    RunKeeps(c, World(FRESH, [], []), steps);
    StepKeeps(c, Run(c, steps), step);
  }

  /** A reset, at any point of any run, closes and clears the breaker, lets the next
      caller in, and puts everyone inside, and everyone about to record, out of date. */
  lemma {:induction false} ResetStartsAnew(c: Config, steps: seq<Step>, now: int)
    requires c.Usable()
    ensures var w, next := Run(c, steps), Next(c, Run(c, steps), Step.Reset);
            && Cleared(next.b) && next.b.expiry.None? && Admits(c, next.b, now)
            && next.b.generation > w.b.generation
            && next.callers == w.callers && next.recorders == w.recorders
            && (forall t, success, at :: t in next.callers || t in next.recorders ==>
                  AfterRequest(c, next.b, t, success, at) == next.b)
  {
    RunKeeps(c, World(FRESH, [], []), steps);
  }

  // ---------- closed: the whole history since the last reset counts ----------

  function SuccessCount(outcomes: seq<bool>): nat {
    if outcomes == [] then 0
    else SuccessCount(outcomes[..|outcomes| - 1]) + if outcomes[|outcomes| - 1] then 1 else 0
  }

  /** The first k outcomes end in a failure, are at least maxRequests many, and
      their failure rate, since the last reset, reaches the threshold. */
  predicate TripsAt(c: Config, outcomes: seq<bool>, k: nat)
    requires c.Usable() && k <= |outcomes|
  {
    k > 0 && !outcomes[k - 1] && Trips(c, k, SuccessCount(outcomes[..k]))
  }

  ghost predicate NoTripUpTo(c: Config, outcomes: seq<bool>, n: nat)
    requires c.Usable() && n <= |outcomes|
  {
    forall k :: 0 <= k <= n ==> !TripsAt(c, outcomes, k)
  }

  /** A completion: how it came out, and the reading at which a failure is evaluated. */
  datatype Outcome = Outcome(success: bool, now: int)

  /** The completion that a step of `w` reports with the given token, if any. */
  function ReportOf(w: World, token: nat, step: Step): seq<Outcome> {
    match step
    case End(i, success, now) => if i < |w.callers| && w.callers[i] == token then [Outcome(success, now)] else []
    case Commit(i, success, now) =>
      if i < |w.recorders| && w.recorders[i] == token then [Outcome(success, now)] else []
    case _ => []
  }

  /** The completions reported with the generation of `w`, whatever comes between them. */
  function Reported(c: Config, w: World, steps: seq<Step>): seq<Outcome>
    requires c.Usable()
  {
    if steps == [] then []
    else
      var init := steps[..|steps| - 1];
      Reported(c, w, init) + ReportOf(RunFrom(c, w, init), w.b.generation, steps[|steps| - 1])
  }

  function Successes(outcomes: seq<Outcome>): seq<bool> {
    seq(|outcomes|, i requires 0 <= i < |outcomes| => outcomes[i].success)
  }

  lemma {:induction false} RunLast(c: Config, w: World, steps: seq<Step>)
    requires c.Usable() && steps != []
    ensures RunFrom(c, w, steps) == Next(c, RunFrom(c, w, steps[..|steps| - 1]), steps[|steps| - 1])
  {
    var init, last := steps[..|steps| - 1], steps[|steps| - 1];
    assert steps == init + [last];
    RunConcat(c, w, init, [last]);
    assert RunFrom(c, RunFrom(c, w, init), [last]) == Next(c, RunFrom(c, w, init), last);
  }

  /** Closed with cleared counts. */
  predicate Cleared(b: Breaker) { b.state.Closed? && b.requests == 0 && b.successes == 0 }

  /** Closed since `b`, having counted the outcomes. */
  predicate Counted(b: Breaker, next: Breaker, outcomes: seq<bool>) {
    next.state.Closed? && next.generation == b.generation
    && next.requests == |outcomes| && next.successes == SuccessCount(outcomes)
  }

  predicate ResetFree(steps: seq<Step>) {
    forall i :: 0 <= i < |steps| ==> !steps[i].Reset?
  }

  /** One step from a closed breaker that has counted `before`. */
  lemma {:induction false} CountStep(c: Config, b: Breaker, w: World, step: Step, before: seq<bool>)
    requires c.Usable() && !step.Reset? && Counted(b, w.b, before)
    ensures var after := before + Successes(ReportOf(w, b.generation, step));
            if after == before then Counted(b, Next(c, w, step).b, before)
            else
              && |after| == |before| + 1 && after[..|before|] == before
              && if TripsAt(c, after, |after|)
                 then Next(c, w, step).b == Breaker(Open, b.generation + 1, |after|, SuccessCount(after),
                                                    Some(ReportOf(w, b.generation, step)[0].now + c.timeout))
                 else Counted(b, Next(c, w, step).b, after)
  {
    var reported := ReportOf(w, b.generation, step);
    var after := before + Successes(reported);
    assert after[..|after|] == after;
    if reported == [] {
      assert after == before;
    } else {
      assert after == before + [reported[0].success] && after[..|before|] == before;
    }
  }

  lemma {:induction false} SuccessesConcat(xs: seq<Outcome>, ys: seq<Outcome>)
    ensures Successes(xs + ys) == Successes(xs) + Successes(ys)
  {
  }

  /** A closed breaker with clear counts stays closed as long as no prefix of the
      outcomes since then trips it, and has then counted every one. Requests that begin,
      checks, late completions and generations read in between change nothing of it. */
  lemma {:induction false} ClosedCountsEverything(c: Config, w: World, steps: seq<Step>)
    requires c.Usable() && Cleared(w.b) && ResetFree(steps)
    requires var outcomes := Successes(Reported(c, w, steps)); NoTripUpTo(c, outcomes, |outcomes|)
    ensures Counted(w.b, RunFrom(c, w, steps).b, Successes(Reported(c, w, steps)))
    decreases |steps|
  {
    if steps == [] {
    } else {
      var init, last := steps[..|steps| - 1], steps[|steps| - 1];
      var mid := RunFrom(c, w, init);
      var before, reported := Reported(c, w, init), ReportOf(mid, w.b.generation, last);
      SuccessesConcat(before, reported);
      var outcomes := Successes(Reported(c, w, steps));
      assert outcomes == Successes(before) + Successes(reported);
      NoTripBefore(c, Successes(before), Successes(reported));
      ClosedCountsEverything(c, w, init);
      RunLast(c, w, steps);
      CountStep(c, w.b, mid, last, Successes(before));
      assert !TripsAt(c, outcomes, |outcomes|);
    }
  }

  lemma {:induction false} NoTripBefore(c: Config, before: seq<bool>, more: seq<bool>)
    requires c.Usable() && NoTripUpTo(c, before + more, |before + more|)
    ensures NoTripUpTo(c, before, |before|)
  {
    forall k | 0 <= k <= |before| ensures !TripsAt(c, before, k) {
      assert before[..k] == (before + more)[..k];
      assert !TripsAt(c, before + more, k);
    }
  }

  /** The first p steps report k outcomes; the last of them opens the breaker, one
      generation on, which had been closed and had counted them up to then. */
  ghost predicate OpensAt(c: Config, w: World, steps: seq<Step>, k: nat, p: nat)
    requires c.Usable()
  {
    var reported := Reported(c, w, steps);
    && 0 < p <= |steps| && 0 < k <= |reported|
    && Reported(c, w, steps[..p]) == reported[..k]
    && Counted(w.b, RunFrom(c, w, steps[..p - 1]).b, Successes(reported[..k - 1]))
    && RunFrom(c, w, steps[..p]).b
       == Breaker(Open, w.b.generation + 1, k, SuccessCount(Successes(reported[..k])),
                  Some(reported[k - 1].now + c.timeout))
  }

  /** It opens with the first outcome that trips it. */
  lemma {:induction false} ClosedOpensAtFirstTrip(c: Config, w: World, steps: seq<Step>, k: nat) returns (p: nat)
    requires c.Usable() && Cleared(w.b) && ResetFree(steps)
    requires var outcomes := Successes(Reported(c, w, steps));
             0 < k <= |outcomes| && TripsAt(c, outcomes, k) && NoTripUpTo(c, outcomes, k - 1)
    ensures OpensAt(c, w, steps, k, p)
    decreases |steps|
  {
    var init, last := steps[..|steps| - 1], steps[|steps| - 1];
    var before := Reported(c, w, init);
    SuccessesConcat(before, ReportOf(RunFrom(c, w, init), w.b.generation, last));
    if |before| >= k {
      TripsInPrefix(c, Successes(before), Successes(Reported(c, w, steps)), k);
      p := ClosedOpensAtFirstTrip(c, w, init, k);
      OpensAtLater(c, w, steps, k, p);
    } else {
      p := |steps|;
      LastStepOpens(c, w, steps, k);
    }
  }

  lemma {:induction false} OpensAtLater(c: Config, w: World, steps: seq<Step>, k: nat, p: nat)
    requires c.Usable() && steps != [] && OpensAt(c, w, steps[..|steps| - 1], k, p)
    ensures OpensAt(c, w, steps, k, p)
  {
    var init := steps[..|steps| - 1];
    EarlierReports(c, w, steps, k);
    assert steps[..p] == init[..p] && steps[..p - 1] == init[..p - 1];
  }

  lemma {:induction false} EarlierReports(c: Config, w: World, steps: seq<Step>, k: nat)
    requires c.Usable() && steps != [] && 0 < k <= |Reported(c, w, steps[..|steps| - 1])|
    ensures var before, reported := Reported(c, w, steps[..|steps| - 1]), Reported(c, w, steps);
            && k <= |reported| && reported[k - 1] == before[k - 1]
            && reported[..k] == before[..k] && reported[..k - 1] == before[..k - 1]
  {
    var before, reported := Reported(c, w, steps[..|steps| - 1]), Reported(c, w, steps);
    assert reported[..k] == before[..k] && reported[..k - 1] == before[..k - 1];
  }

  lemma {:induction false} LastStepOpens(c: Config, w: World, steps: seq<Step>, k: nat)
    requires c.Usable() && Cleared(w.b) && ResetFree(steps) && steps != []
    requires |Reported(c, w, steps[..|steps| - 1])| < k <= |Reported(c, w, steps)|
    requires var outcomes := Successes(Reported(c, w, steps));
             TripsAt(c, outcomes, k) && NoTripUpTo(c, outcomes, k - 1)
    ensures OpensAt(c, w, steps, k, |steps|)
  {
    var init := steps[..|steps| - 1];
    var before, reported := Reported(c, w, init), Reported(c, w, steps);
    LastReport(c, w, steps);
    NoTripInPrefix(c, Successes(before), Successes(reported), k - 1);
    ClosedCountsEverything(c, w, init);
    LastReportOpens(c, w, steps);
    OpensAtEnd(c, w, steps);
  }

  lemma {:induction false} OpensAtEnd(c: Config, w: World, steps: seq<Step>)
    requires c.Usable() && steps != []
    requires var before, reported := Reported(c, w, steps[..|steps| - 1]), Reported(c, w, steps);
             && |reported| == |before| + 1 && reported[..|before|] == before
             && Counted(w.b, RunFrom(c, w, steps[..|steps| - 1]).b, Successes(before))
             && RunFrom(c, w, steps).b
                == Breaker(Open, w.b.generation + 1, |reported|, SuccessCount(Successes(reported)),
                           Some(reported[|reported| - 1].now + c.timeout))
    ensures OpensAt(c, w, steps, |Reported(c, w, steps)|, |steps|)
  {
    var reported := Reported(c, w, steps);
    assert steps[..|steps|] == steps && reported[..|reported|] == reported;
  }

  /** A step reports one outcome at most. */
  lemma {:induction false} LastReport(c: Config, w: World, steps: seq<Step>)
    requires c.Usable() && steps != []
    ensures var before, reported := Reported(c, w, steps[..|steps| - 1]), Reported(c, w, steps);
            && |before| <= |reported| <= |before| + 1 && reported[..|before|] == before
            && Successes(before) == Successes(reported)[..|before|]
  {
  }

  lemma {:induction false} LastReportOpens(c: Config, w: World, steps: seq<Step>)
    requires c.Usable() && ResetFree(steps) && steps != []
    requires var before, reported := Reported(c, w, steps[..|steps| - 1]), Reported(c, w, steps);
             && |before| < |reported| && TripsAt(c, Successes(reported), |reported|)
             && Counted(w.b, RunFrom(c, w, steps[..|steps| - 1]).b, Successes(before))
    ensures var reported := Reported(c, w, steps);
            RunFrom(c, w, steps).b == Breaker(Open, w.b.generation + 1, |reported|, SuccessCount(Successes(reported)),
                                              Some(reported[|reported| - 1].now + c.timeout))
  {
    var init, last := steps[..|steps| - 1], steps[|steps| - 1];
    var before, report := Reported(c, w, init), ReportOf(RunFrom(c, w, init), w.b.generation, last);
    SuccessesConcat(before, report);
    RunLast(c, w, steps);
    CountStep(c, w.b, RunFrom(c, w, init), last, Successes(before));
  }

  lemma {:induction false} TripsInPrefix(c: Config, before: seq<bool>, all: seq<bool>, k: nat)
    requires c.Usable() && before <= all && 0 < k <= |before|
    requires TripsAt(c, all, k) && NoTripUpTo(c, all, k - 1)
    ensures TripsAt(c, before, k) && NoTripUpTo(c, before, k - 1)
  {
    assert before[..k] == all[..k];
    NoTripInPrefix(c, before[..k - 1], all, k - 1);
    forall j | 0 <= j <= k - 1 ensures !TripsAt(c, before, j) {
      assert before[..j] == all[..j] && !TripsAt(c, all, j);
    }
  }

  lemma {:induction false} NoTripInPrefix(c: Config, before: seq<bool>, all: seq<bool>, n: nat)
    requires c.Usable() && before <= all && |before| <= n <= |all| && NoTripUpTo(c, all, n)
    ensures NoTripUpTo(c, before, |before|)
  {
    forall j | 0 <= j <= |before| ensures !TripsAt(c, before, j) {
      assert before[..j] == all[..j] && !TripsAt(c, all, j);
    }
  }

  // ---------- half-open: the next reports decide ----------

  /** The first k reports leave a half-open breaker undecided: all failures, and fewer
      than maxRequests together with those before. */
  predicate Undecided(c: Config, b: Breaker, reported: seq<Outcome>) {
    (forall i :: 0 <= i < |reported| ==> !reported[i].success) && b.requests + |reported| < c.maxRequests
  }

  /** One step of a half-open breaker. */
  lemma {:induction false} HalfOpenStep(c: Config, w: World, token: nat, step: Step)
    requires c.Usable() && BreakerInv(c, w.b) && w.b.state.HalfOpen? && token == w.b.generation && !step.Reset?
    ensures var reported := ReportOf(w, token, step);
            if reported == [] then Next(c, w, step).b == w.b
            else Next(c, w, step).b == Decided(c, w.b, reported[0])
  {
    if ReportOf(w, token, step) != [] && !ReportOf(w, token, step)[0].success {
      RateAtMostOne(w.b.requests + 1, w.b.successes);
    }
  }

  /** What a report makes of a half-open breaker: a success closes it, the failure that is
      the maxRequests-th opens it, any other is counted. */
  function Decided(c: Config, b: Breaker, o: Outcome): Breaker {
    if o.success then Breaker(Closed, b.generation, 0, 0, None)
    else if b.requests + 1 == c.maxRequests then
      Breaker(Open, b.generation + 1, b.requests + 1, 0, Some(o.now + c.timeout))
    else b.(requests := b.requests + 1)
  }

  lemma {:induction false} UndecidedBefore(c: Config, b: Breaker, before: seq<Outcome>, more: seq<Outcome>)
    requires Undecided(c, b, before + more)
    ensures Undecided(c, b, before) && (more != [] ==> !more[0].success)
  {
    forall i | 0 <= i < |before| ensures !before[i].success {
      assert (before + more)[i] == before[i];
    }
    assert more != [] ==> (before + more)[|before|] == more[0];
  }

  /** While the reports leave it undecided, a half-open breaker counts them and nothing
      else, whatever requests, checks, late completions and readings come between. */
  lemma {:induction false} HalfOpenCounts(c: Config, w: World, steps: seq<Step>)
    requires c.Usable() && BreakerInv(c, w.b) && w.b.state.HalfOpen? && ResetFree(steps)
    requires Undecided(c, w.b, Reported(c, w, steps))
    ensures RunFrom(c, w, steps).b == w.b.(requests := w.b.requests + |Reported(c, w, steps)|)
    decreases |steps|
  {
    if steps == [] {
    } else {
      var init, last := steps[..|steps| - 1], steps[|steps| - 1];
      var mid := RunFrom(c, w, init);
      UndecidedBefore(c, w.b, Reported(c, w, init), ReportOf(mid, w.b.generation, last));
      HalfOpenCounts(c, w, init);
      RunLast(c, w, steps);
      HalfOpenStep(c, mid, w.b.generation, last);
    }
  }

  /** After p steps k reports are in, and the last of them has decided; it was still
      half-open, and had counted the others, before that step. */
  ghost predicate DecidedAt(c: Config, w: World, steps: seq<Step>, k: nat, p: nat)
    requires c.Usable()
  {
    var reported := Reported(c, w, steps);
    && 0 < p <= |steps| && 0 < k <= |reported|
    && Reported(c, w, steps[..p]) == reported[..k]
    && RunFrom(c, w, steps[..p - 1]).b == w.b.(requests := w.b.requests + k - 1)
    && RunFrom(c, w, steps[..p]).b
       == if reported[k - 1].success then Breaker(Closed, w.b.generation, 0, 0, None)
          else Breaker(Open, w.b.generation + 1, c.maxRequests, 0, Some(reported[k - 1].now + c.timeout))
  }

  /** From half-open the first success closes the breaker, and failures reopen it with
      the one that brings the count to maxRequests, neither sooner nor later, in any
      Reset-free stretch. */
  lemma {:induction false} HalfOpenOutcome(c: Config, w: World, steps: seq<Step>, k: nat) returns (p: nat)
    requires c.Usable() && BreakerInv(c, w.b) && w.b.state.HalfOpen? && ResetFree(steps)
    requires 0 < k <= |Reported(c, w, steps)| && Undecided(c, w.b, Reported(c, w, steps)[..k - 1])
    requires Reported(c, w, steps)[k - 1].success || w.b.requests + k == c.maxRequests
    ensures DecidedAt(c, w, steps, k, p)
    decreases |steps|
  {
    var init, last := steps[..|steps| - 1], steps[|steps| - 1];
    var before, reported := Reported(c, w, init), Reported(c, w, steps);
    if |before| >= k {
      assert reported[..k - 1] == before[..k - 1] && reported[k - 1] == before[k - 1];
      p := HalfOpenOutcome(c, w, init, k);
      DecidedAtLater(c, w, steps, k, p);
    } else {
      p := |steps|;
      LastStepDecides(c, w, steps, k);
    }
  }

  lemma {:induction false} DecidedAtLater(c: Config, w: World, steps: seq<Step>, k: nat, p: nat)
    requires c.Usable() && steps != [] && DecidedAt(c, w, steps[..|steps| - 1], k, p)
    ensures DecidedAt(c, w, steps, k, p)
  {
    var init := steps[..|steps| - 1];
    EarlierReports(c, w, steps, k);
    assert steps[..p] == init[..p] && steps[..p - 1] == init[..p - 1];
  }

  lemma {:induction false} LastStepDecides(c: Config, w: World, steps: seq<Step>, k: nat)
    requires c.Usable() && BreakerInv(c, w.b) && w.b.state.HalfOpen? && ResetFree(steps) && steps != []
    requires |Reported(c, w, steps[..|steps| - 1])| < k <= |Reported(c, w, steps)|
    requires Undecided(c, w.b, Reported(c, w, steps)[..k - 1])
    requires Reported(c, w, steps)[k - 1].success || w.b.requests + k == c.maxRequests
    ensures DecidedAt(c, w, steps, k, |steps|)
  {
    LastReport(c, w, steps);
    HalfOpenCounts(c, w, steps[..|steps| - 1]);
    LastReportDecides(c, w, steps);
    DecidedAtEnd(c, w, steps);
  }

  lemma {:induction false} LastReportDecides(c: Config, w: World, steps: seq<Step>)
    requires c.Usable() && BreakerInv(c, w.b) && w.b.state.HalfOpen? && ResetFree(steps) && steps != []
    requires var before, reported := Reported(c, w, steps[..|steps| - 1]), Reported(c, w, steps);
             && |before| < |reported| && Undecided(c, w.b, before)
             && RunFrom(c, w, steps[..|steps| - 1]).b == w.b.(requests := w.b.requests + |before|)
    ensures var before, reported := Reported(c, w, steps[..|steps| - 1]), Reported(c, w, steps);
            RunFrom(c, w, steps).b
            == Decided(c, w.b.(requests := w.b.requests + |before|), reported[|reported| - 1])
  {
    var init, last := steps[..|steps| - 1], steps[|steps| - 1];
    RunLast(c, w, steps);
    HalfOpenStep(c, RunFrom(c, w, init), w.b.generation, last);
  }

  lemma {:induction false} DecidedAtEnd(c: Config, w: World, steps: seq<Step>)
    requires c.Usable() && steps != []
    requires var before, reported := Reported(c, w, steps[..|steps| - 1]), Reported(c, w, steps);
             && |reported| == |before| + 1
             && (reported[|before|].success || w.b.requests + |reported| == c.maxRequests)
             && RunFrom(c, w, steps[..|steps| - 1]).b == w.b.(requests := w.b.requests + |before|)
             && RunFrom(c, w, steps).b
                == Decided(c, w.b.(requests := w.b.requests + |before|), reported[|reported| - 1])
    requires w.b.successes == 0
    ensures DecidedAt(c, w, steps, |Reported(c, w, steps)|, |steps|)
  {
    var reported := Reported(c, w, steps);
    assert steps[..|steps|] == steps && reported[..|reported|] == reported;
  }

  // ---------- recovery ----------

  /** An open breaker stays open as long as no one is admitted, whatever else happens. */
  lemma {:induction false} OpenWhileNoneAdmitted(c: Config, w: World, steps: seq<Step>)
    requires c.Usable() && Inv(c, w) && w.b.state.Open? && ResetFree(steps) && Admissions(c, w, steps) == []
    ensures RunFrom(c, w, steps).b.state.Open? && Inv(c, RunFrom(c, w, steps))
    decreases |steps|
  {
    if steps == [] {
    } else {
      StepKeeps(c, w, steps[0]);
      assert Next(c, w, steps[0]).b.state.Open?;
      assert forall i :: 0 <= i < |steps| - 1 ==> steps[1..][i] == steps[i + 1];
      OpenWhileNoneAdmitted(c, Next(c, w, steps[0]), steps[1..]);
    }
  }

  /** The first one let in finds the timeout over, and leaves the breaker half-open with
      clear counts, under the generation the breaker had. */
  lemma {:induction false} FirstAdmissionHalfOpens(c: Config, w: World, steps: seq<Step>, entry: Step)
    requires c.Usable() && Inv(c, w) && w.b.state.Open? && ResetFree(steps) && Admissions(c, w, steps) == []
    requires (entry.Begin? || entry.Check?) && Admits(c, RunFrom(c, w, steps).b, entry.now)
    ensures var mid := RunFrom(c, w, steps);
            && mid.b.state.Open? && mid.b.expiry.Some? && entry.now > mid.b.expiry.value
            && Next(c, mid, entry).b == Breaker(HalfOpen, mid.b.generation, 0, 0, None)
            && (entry.Begin? ==> Next(c, mid, entry).callers == mid.callers + [mid.b.generation])
  {
    OpenWhileNoneAdmitted(c, w, steps);
  }

  /** The whole way back. After the first admission the first success among the reports
      closes the breaker with clear counts, and maxRequests failures before it open it
      again, with a new expiry; until one of the two it is half-open. */
  lemma {:induction false} Recovery(c: Config, w: World, steps: seq<Step>, entry: Step, more: seq<Step>, k: nat)
    returns (p: nat)
    requires c.Usable() && Inv(c, w) && w.b.state.Open? && ResetFree(steps) && Admissions(c, w, steps) == []
    requires (entry.Begin? || entry.Check?) && Admits(c, RunFrom(c, w, steps).b, entry.now) && ResetFree(more)
    requires var reported := Reported(c, Next(c, RunFrom(c, w, steps), entry), more);
             && 0 < k <= |reported| && k <= c.maxRequests
             && (forall i :: 0 <= i < k - 1 ==> !reported[i].success)
             && (reported[k - 1].success || k == c.maxRequests)
    ensures var g, inside := RunFrom(c, w, steps).b.generation, Next(c, RunFrom(c, w, steps), entry);
            var reported := Reported(c, inside, more);
            && 0 < p <= |more| && Reported(c, inside, more[..p]) == reported[..k]
            && RunFrom(c, inside, more[..p - 1]).b == Breaker(HalfOpen, g, k - 1, 0, None)
            && RunFrom(c, inside, more[..p]).b
               == if reported[k - 1].success then Breaker(Closed, g, 0, 0, None)
                  else Breaker(Open, g + 1, c.maxRequests, 0, Some(reported[k - 1].now + c.timeout))
  {
    FirstAdmissionHalfOpens(c, w, steps, entry);
    OpenWhileNoneAdmitted(c, w, steps);
    var inside := Next(c, RunFrom(c, w, steps), entry);
    StepKeeps(c, RunFrom(c, w, steps), entry);
    p := HalfOpenOutcome(c, inside, more, k);
  }

  /** The two breakers differ at most in the expiry of a closed state. */
  ghost predicate SameButInterval(b: Breaker, b': Breaker) {
    && b.state == b'.state && b.generation == b'.generation
    && b.requests == b'.requests && b.successes == b'.successes
    && (!b.state.Closed? ==> b.expiry == b'.expiry)
  }

  /** The statistics interval has no effect: breakers that differ only in it make
      the same decisions and go through the same states on every interleaving.
      The counts of a closed breaker are never cleared by time. */
  lemma {:induction false} IntervalHasNoEffect(c: Config, interval: int, w: World, w': World, steps: seq<Step>)
    requires c.Usable()
    requires SameButInterval(w.b, w'.b) && w.callers == w'.callers && w.recorders == w'.recorders
    ensures var c' := c.(interval := interval);
            && Admissions(c, w, steps) == Admissions(c', w', steps)
            && SameButInterval(RunFrom(c, w, steps).b, RunFrom(c', w', steps).b)
            && RunFrom(c, w, steps).callers == RunFrom(c', w', steps).callers
    decreases |steps|
  {
    if steps == [] {
    } else {
      IntervalUnfelt(c, interval, w, w', steps[0]);
      IntervalHasNoEffect(c, interval, Next(c, w, steps[0]), Next(c.(interval := interval), w', steps[0]), steps[1..]);
    }
  }

  lemma {:induction false} IntervalUnfelt(c: Config, interval: int, w: World, w': World, step: Step)
    requires c.Usable()
    requires SameButInterval(w.b, w'.b) && w.callers == w'.callers && w.recorders == w'.recorders
    ensures var c' := c.(interval := interval);
            var next, next' := Next(c, w, step), Next(c', w', step);
            && SameButInterval(next.b, next'.b) && next.callers == next'.callers && next.recorders == next'.recorders
            && (step.Begin? || step.Check? ==> (Admits(c, w.b, step.now) <==> Admits(c', w'.b, step.now)))
  {
  }

  // ---------- the breaker ----------

  const SECOND := 1_000_000_000

  class CircuitBreaker {
    const maxRequests: nat
    const interval: int
    const timeout: int
    const readyToTrip: real
    var state: State
    var generation: nat
    var requests: nat
    var successes: nat
    var expiry: Option<int>

    ghost function Cfg(): Config { Config(maxRequests, interval, timeout, readyToTrip) }

    ghost function View(): Breaker
      reads this
    {
      Breaker(state, generation, requests, successes, expiry)
    }

    ghost predicate Valid()
      reads this
    {
      Cfg().Usable() && BreakerInv(Cfg(), View())
    }

    constructor (maxRequests: nat, interval: int, timeout: int, readyToTrip: real)
      ensures Valid() && View() == FRESH
      ensures this.maxRequests == if maxRequests == 0 then 3 else maxRequests
      ensures this.interval == if interval == 0 then 10 * SECOND else interval
      ensures this.timeout == if timeout == 0 then 30 * SECOND else timeout
      ensures this.readyToTrip == if readyToTrip <= 0.0 then 0.5 else readyToTrip
    {
      this.maxRequests := if maxRequests == 0 then 3 else maxRequests;
      this.interval := if interval == 0 then 10 * SECOND else interval;
      this.timeout := if timeout == 0 then 30 * SECOND else timeout;
      this.readyToTrip := if readyToTrip <= 0.0 then 0.5 else readyToTrip;
      state := Closed;
      generation, requests, successes, expiry := 0, 0, 0, None;
    }

    method ResetCounts(now: Option<int>)
      modifies this`requests, this`successes, this`expiry
      ensures requests == 0 && successes == 0
      ensures expiry == if now.Some? then Some(now.value + interval) else None
    {
      requests, successes := 0, 0;
      if now.Some? {
        expiry := Some(now.value + interval);
      } else {
        expiry := None;
      }
    }

    /** Returns the token of the caller, and whether it may go on. In a valid state
        it may not exactly when the breaker is open and `now` is not past the expiry. */
    method Before(now: int) returns (token: nat, ok: bool)
      requires Valid()
      modifies this
      ensures Valid() && View() == BeforeRequest(Cfg(), old(View()), now)
      ensures token == old(generation) && generation == old(generation)
      ensures ok == Admits(Cfg(), old(View()), now)
      ensures !ok <==> old(state.Open?) && now <= old(expiry).value
      ensures old(state.Open?) && ok ==> View() == Breaker(HalfOpen, old(generation), 0, 0, None)
      ensures (old(state.Open?) && !ok) || old(state.HalfOpen?) ==> View() == old(View())
      ensures old(state.Closed?) ==> state.Closed? && requests == old(requests) && successes == old(successes)
    {
      token := generation;
      match state
      case Closed =>
        if expiry.None? {
          expiry := Some(now + interval);
        }
        return token, true;
      case HalfOpen =>
        return token, requests < maxRequests;
      case Open =>
        if now > expiry.value {
          state := HalfOpen;
          ResetCounts(None);
          return token, true;
        }
        return token, false;
    }

    method After(token: nat, success: bool, now: int)
      requires Valid()
      modifies this
      ensures Valid() && View() == AfterRequest(Cfg(), old(View()), token, success, now)
    {
      AfterRequestKeeps(Cfg(), View(), token, success, now);
      if token != generation {
        return;
      }
      requests := requests + 1;
      if success {
        successes := successes + 1;
        if state == HalfOpen {
          state := Closed;
          ResetCounts(None);
        }
      } else {
        Evaluate(now);
      }
    }

    method Evaluate(now: int)
      requires Cfg().Usable()
      modifies this`state, this`generation, this`expiry
      ensures View() == EvaluateAndTrip(Cfg(), old(View()), now)
    {
      if requests < maxRequests {
        return;
      }
      var failureRate := (requests - successes) as real / requests as real;
      if failureRate >= readyToTrip {
        state := Open;
        expiry := Some(now + timeout);
        generation := generation + 1;
      }
    }

    method Allow(now: int) returns (ok: bool)
      requires Valid()
      modifies this
      ensures Valid() && View() == BeforeRequest(Cfg(), old(View()), now)
      ensures ok == Admits(Cfg(), old(View()), now)
    {
      var _, admitted := Before(now);
      return admitted;
    }

    /** RecordSuccess and RecordFailure when no other step comes between reading
        the generation and taking the lock: the outcome always counts. */
    method Record(success: bool, now: int)
      requires Valid()
      modifies this
      ensures Valid() && View() == AfterRequest(Cfg(), old(View()), old(generation), success, now)
    {
      After(generation, success, now);
    }

    method Reset()
      requires Valid()
      modifies this
      ensures Valid() && View() == ForceReset(old(View()))
    {
      ResetCounts(None);
      generation := generation + 1;
      state := Closed;
    }
  }
}
