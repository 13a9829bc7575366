/** The token-bucket rate limiter: tokens are topped up lazily, when a call comes.
    Every reading is taken while the lock is held, so readings never decrease. */
module TokenBucket {
  import opened Options
  import opened Division

  datatype Config = Config(refill: int, max: int, interval: int) {
    predicate Usable() { 0 < refill <= max && interval != 0 }
  }

  /** `last` is the interval boundary up to which tokens were credited; None
      stands for the zero time, before the first reading. */
  datatype Bucket = Bucket(tokens: int, last: Option<int>)

  datatype Call = AllowN(now: int, n: int) | Stats(now: int) | WaitN(now: int, n: int) | Reset

  // ---------- one call ----------

  /** Integer division that rounds toward zero, as Go's does. */
  function TruncQuot(x: int, y: int): int
    requires y != 0
  {
    var q := (if x < 0 then -x else x) / (if y < 0 then -y else y);
    if (x < 0) == (y < 0) then q else -q
  }

  function Min(x: int, y: int): int { if x < y then x else y }

  function Refill(c: Config, b: Bucket, now: int): Bucket
    requires c.Usable()
  {
    match b.last
    case None => b.(last := Some(now))
    case Some(last) =>
      var intervals := TruncQuot(now - last, c.interval);
      if intervals <= 0 then b
      else Bucket(Min(c.max, b.tokens + intervals * c.refill), Some(last + intervals * c.interval))
  }

  /** Calls for no tokens, or for more than the bucket can hold, never touch it. */
  predicate Servable(c: Config, n: int) { 0 < n <= c.max }

  predicate Grants(c: Config, b: Bucket, now: int, n: int)
    requires c.Usable()
  {
    Servable(c, n) && Refill(c, b, now).tokens >= n
  }

  function After(c: Config, b: Bucket, call: Call): Bucket
    requires c.Usable()
  {
    match call
    case AllowN(now, n) =>
      if !Servable(c, n) then b
      else
        var full := Refill(c, b, now);
        if full.tokens >= n then full.(tokens := full.tokens - n) else full
    case Stats(now) => Refill(c, b, now)
    case WaitN(now, n) => if Servable(c, n) then Refill(c, b, now) else b
    case Reset => Bucket(c.max, None)
  }

  // ---------- whole runs ----------

  /** The state after `calls`, from state `b`. */
  function RunFrom(c: Config, b: Bucket, calls: seq<Call>): Bucket
    requires c.Usable()
    decreases |calls|
  {
    if calls == [] then b else RunFrom(c, After(c, b, calls[0]), calls[1..])
  }

  function Run(c: Config, calls: seq<Call>): Bucket
    requires c.Usable()
  {
    RunFrom(c, Bucket(c.max, None), calls)
  }

  lemma {:induction false} RunSnoc(c: Config, b: Bucket, calls: seq<Call>, call: Call)
    requires c.Usable()
    ensures RunFrom(c, b, calls + [call]) == After(c, RunFrom(c, b, calls), call)
    decreases |calls|
  {
    if calls == [] {
      assert ([] + [call])[1..] == [];
    } else {
      assert (calls + [call])[1..] == calls[1..] + [call];
      RunSnoc(c, After(c, b, calls[0]), calls[1..], call);
    }
  }

  /** The answers to the AllowN calls, in order. */
  function Verdicts(c: Config, b: Bucket, calls: seq<Call>): seq<bool>
    requires c.Usable()
    decreases |calls|
  {
    if calls == [] then []
    else
      var answer :=
        if !calls[0].AllowN? then []
        else if calls[0].n <= 0 then [true]
        else [Grants(c, b, calls[0].now, calls[0].n)];
      answer + Verdicts(c, After(c, b, calls[0]), calls[1..])
  }

  /** The tokens handed out. */
  function Granted(c: Config, b: Bucket, calls: seq<Call>): int
    requires c.Usable()
    decreases |calls|
  {
    if calls == [] then 0
    else
      var call := calls[0];
      (if call.AllowN? && Grants(c, b, call.now, call.n) then call.n else 0)
      + Granted(c, After(c, b, call), calls[1..])
  }

  /** Readings start at `t` or later and do not decrease, and no call resets. */
  ghost predicate InOrderFrom(calls: seq<Call>, t: int) {
    calls != [] ==> !calls[0].Reset? && t <= calls[0].now && InOrderFrom(calls[1..], calls[0].now)
  }

  /** As InOrderFrom, with Resets allowed. */
  ghost predicate ReadingsFrom(calls: seq<Call>, t: int) {
    calls != [] ==>
      if calls[0].Reset? then ReadingsFrom(calls[1..], t)
      else t <= calls[0].now && ReadingsFrom(calls[1..], calls[0].now)
  }

  /** Tokens stay within the bucket, and a bucket that was never refilled is full. */
  ghost predicate Inv(c: Config, b: Bucket) {
    0 <= b.tokens <= c.max && (b.last.None? ==> b.tokens == c.max)
  }

  /** The bucket was not credited for time after `t`. */
  ghost predicate Behind(b: Bucket, t: int) {
    b.last.Some? ==> b.last.value <= t
  }

  lemma {:induction false} RefillKeeps(c: Config, b: Bucket, now: int)
    requires c.Usable() && Inv(c, b)
    ensures Inv(c, Refill(c, b, now)) && Refill(c, b, now).last.Some?
    ensures Behind(b, now) ==> Behind(Refill(c, b, now), now)
  {
    if b.last.Some? {
      var k := TruncQuot(now - b.last.value, c.interval);
      if k > 0 {
        MulMonotone(0, k, c.refill);
        if Behind(b, now) {
          QuotAtLeast(now - b.last.value, c.interval, k);
        }
      }
    }
  }

  lemma {:induction false} CallKeeps(c: Config, b: Bucket, call: Call)
    requires c.Usable() && Inv(c, b)
    ensures Inv(c, After(c, b, call))
    ensures !call.Reset? && Behind(b, call.now) ==> Behind(After(c, b, call), call.now)
  {
    if !call.Reset? {
      RefillKeeps(c, b, call.now);
    }
  }

  /** 0 <= tokens <= max after every run, whatever the clock does. */
  lemma {:induction false} TokensInRange(c: Config, b: Bucket, calls: seq<Call>)
    requires c.Usable() && Inv(c, b)
    ensures Inv(c, RunFrom(c, b, calls))
    decreases |calls|
  {
    if calls == [] {
    } else {
      CallKeeps(c, b, calls[0]);
      TokensInRange(c, After(c, b, calls[0]), calls[1..]);
    }
  }

  // ---------- lazy refill is eager ticking ----------

  /** The bucket `k` intervals later, capped once. */
  function Credit(c: Config, b: Bucket, k: int): Bucket
    requires b.last.Some?
  {
    Bucket(Min(c.max, b.tokens + k * c.refill), Some(b.last.value + k * c.interval))
  }

  lemma {:induction false} RefillIsCredit(c: Config, b: Bucket, now: int)
    requires c.Usable() && c.interval > 0 && b.last.Some? && b.tokens <= c.max && b.last.value <= now
    ensures 0 <= (now - b.last.value) / c.interval
    ensures Refill(c, b, now) == Credit(c, b, (now - b.last.value) / c.interval)
  {
    QuotAtLeast(now - b.last.value, c.interval, 0);
  }

  /** Capping after each of two credits is capping once after both. */
  lemma {:induction false} CreditTwice(c: Config, b: Bucket, j: int, k: int)
    requires c.refill > 0 && b.last.Some? && 0 <= k
    ensures Credit(c, Credit(c, b, j), k) == Credit(c, b, j + k)
  {
    MulMonotone(0, k, c.refill);
    assert (j + k) * c.refill == j * c.refill + k * c.refill;
    assert (j + k) * c.interval == j * c.interval + k * c.interval;
  }

  lemma {:induction false} CreditThenRefill(c: Config, b: Bucket, j: int, u: int)
    requires c.Usable() && c.interval > 0 && b.last.Some?
    requires 0 <= j && b.last.value + j * c.interval <= u
    ensures Refill(c, Credit(c, b, j), u) == Credit(c, b, (u - b.last.value) / c.interval)
  {
    var x := u - b.last.value;
    RefillIsCredit(c, Credit(c, b, j), u);
    QuotShift(x, j, c.interval);
    QuotAtLeast(x, c.interval, j);
    CreditTwice(c, b, j, x / c.interval - j);
  }

  /** Refilling on the way changes nothing: at t and then at u is once at u. */
  lemma {:induction false} RefillTwice(c: Config, b: Bucket, t: int, u: int)
    requires c.Usable() && b.last.Some? && b.tokens <= c.max && b.last.value <= t <= u
    ensures Refill(c, Refill(c, b, t), u) == Refill(c, b, u)
  {
    if c.interval > 0 {
      var j := (t - b.last.value) / c.interval;
      RefillIsCredit(c, b, t);
      RefillIsCredit(c, b, u);
      QuotAtLeast(t - b.last.value, c.interval, j);
      CreditThenRefill(c, b, j, u);
    } else {
      NoRefill(c, b, t);
      NoRefill(c, b, u);
    }
  }

  /** The constructor keeps a negative interval; such a bucket is never refilled. */
  lemma {:induction false} NoRefill(c: Config, b: Bucket, now: int)
    requires c.Usable() && c.interval < 0 && b.last.Some? && b.last.value <= now
    ensures Refill(c, b, now) == b
  {
    QuotAtLeast(now - b.last.value, -c.interval, 0);
  }

  /** The obvious limiter: at every interval boundary up to `now`, one at a time,
      add the refill and cap. */
  function TickUntil(c: Config, b: Bucket, now: int): (r: Bucket)
    requires c.Usable() && c.interval > 0 && b.last.Some?
    ensures r.last.Some?
    decreases if now > b.last.value then now - b.last.value else 0
  {
    if now < b.last.value + c.interval then b
    else TickUntil(c, Credit(c, b, 1), now)
  }

  /** One lazy refill gives the bucket that eager ticking gives. */
  lemma {:induction false} LazyIsEager(c: Config, b: Bucket, now: int)
    requires c.Usable() && c.interval > 0 && b.tokens <= c.max && b.last.Some? && b.last.value <= now
    ensures Refill(c, b, now) == TickUntil(c, b, now)
    decreases now - b.last.value
  {
    var k := (now - b.last.value) / c.interval;
    RefillIsCredit(c, b, now);
    QuotAtLeast(now - b.last.value, c.interval, 1);
    if k == 0 {
    } else {
      var next := Credit(c, b, 1);
      LazyIsEager(c, next, now);
      RefillIsCredit(c, next, now);
      QuotShift(now - b.last.value, 1, c.interval);
      CreditTwice(c, b, 1, k - 1);
    }
  }

  /** The answers of a limiter that ticks eagerly before every call, whatever the
      call, and keeps no record of when it last did. */
  function EagerVerdicts(c: Config, b: Bucket, calls: seq<Call>): seq<bool>
    requires c.Usable() && c.interval > 0 && b.last.Some?
    decreases |calls|
  {
    if calls == [] then []
    else if calls[0].Reset? then EagerVerdicts(c, b, calls[1..])
    else
      var ticked := TickUntil(c, b, calls[0].now);
      if !calls[0].AllowN? then EagerVerdicts(c, ticked, calls[1..])
      else if calls[0].n <= 0 then [true] + EagerVerdicts(c, ticked, calls[1..])
      else if calls[0].n > ticked.tokens then [false] + EagerVerdicts(c, ticked, calls[1..])
      else [true] + EagerVerdicts(c, ticked.(tokens := ticked.tokens - calls[0].n), calls[1..])
  }

  /** A refill before the calls does not change any answer. */
  lemma {:induction false} RefillInvisible(c: Config, b: Bucket, t: int, calls: seq<Call>)
    requires c.Usable() && Inv(c, b) && b.last.Some? && b.last.value <= t && InOrderFrom(calls, t)
    ensures Verdicts(c, Refill(c, b, t), calls) == Verdicts(c, b, calls)
    decreases |calls|
  {
    RefillKeeps(c, b, t);
    if calls == [] {
    } else {
      RefillTwice(c, b, t, calls[0].now);
      if !calls[0].Stats? && !Servable(c, calls[0].n) {
        InOrderLater(calls[1..], t, calls[0].now);
        RefillInvisible(c, b, t, calls[1..]);
      }
    }
  }

  lemma {:induction false} InOrderLater(calls: seq<Call>, t: int, u: int)
    requires t <= u && InOrderFrom(calls, u)
    ensures InOrderFrom(calls, t)
  {
  }

  /** On every run without Reset the lazy limiter answers as the eager one. */
  lemma {:induction false} LazyRefinesEager(c: Config, b: Bucket, calls: seq<Call>, t: int)
    requires c.Usable() && c.interval > 0 && Inv(c, b)
    requires b.last.Some? && b.last.value <= t && InOrderFrom(calls, t)
    ensures Verdicts(c, b, calls) == EagerVerdicts(c, b, calls)
    decreases |calls|
  {
    if calls == [] {
    } else {
      var call, rest := calls[0], calls[1..];
      LazyIsEager(c, b, call.now);
      RefillKeeps(c, b, call.now);
      CallKeeps(c, b, call);
      RefillInvisible(c, b, call.now, rest);
      var ticked := Refill(c, b, call.now);
      LazyRefinesEager(c, if call.AllowN? && 0 < call.n <= ticked.tokens
                          then ticked.(tokens := ticked.tokens - call.n) else ticked, rest, call.now);
    }
  }

  /** Calls that read the clock. */
  predicate Reads(c: Config, call: Call) { call.Stats? || (!call.Reset? && Servable(c, call.n)) }

  /** The first reading, or a later instant if no call takes one. */
  function FirstReading(c: Config, calls: seq<Call>): int
    requires calls != [] && forall i :: 0 <= i < |calls| ==> !calls[i].Reset?
  {
    if |calls| == 1 || Reads(c, calls[0]) then calls[0].now else FirstReading(c, calls[1..])
  }

  lemma {:induction false} FirstReadingLater(c: Config, calls: seq<Call>, t: int)
    requires calls != [] && InOrderFrom(calls, t) && forall i :: 0 <= i < |calls| ==> !calls[i].Reset?
    ensures t <= FirstReading(c, calls)
  {
    if |calls| == 1 || Reads(c, calls[0]) {
    } else {
      FirstReadingLater(c, calls[1..], calls[0].now);
    }
  }

  /** A new limiter answers as the eager one whose ticks start at the first reading. */
  lemma {:induction false} NewRefinesEager(c: Config, calls: seq<Call>, t: int)
    requires c.Usable() && c.interval > 0 && calls != [] && InOrderFrom(calls, t)
    requires forall i :: 0 <= i < |calls| ==> !calls[i].Reset?
    ensures Verdicts(c, Bucket(c.max, None), calls)
            == EagerVerdicts(c, Bucket(c.max, Some(FirstReading(c, calls))), calls)
    decreases |calls|
  {
    var call, rest := calls[0], calls[1..];
    var first := FirstReading(c, calls);
    if Reads(c, call) {
      QuotAtLeast(0, c.interval, 0);
      assert TruncQuot(0, c.interval) == 0;
      assert Verdicts(c, Bucket(c.max, None), calls) == Verdicts(c, Bucket(c.max, Some(first)), calls);
      LazyRefinesEager(c, Bucket(c.max, Some(first)), calls, first);
    } else {
      FirstReadingLater(c, calls, call.now);
      assert calls == [call] + rest;
      NotYetTicking(c, call, rest, first);
      if rest != [] {
        assert forall i :: 0 <= i < |rest| ==> rest[i] == calls[i + 1];
        NewRefinesEager(c, rest, call.now);
      }
    }
  }

  /** A call that takes no reading is answered alike, and no tick is due before it. */
  lemma {:induction false} NotYetTicking(c: Config, call: Call, rest: seq<Call>, first: int)
    requires c.Usable() && c.interval > 0 && !call.Reset? && !Reads(c, call) && call.now <= first
    ensures var answer := if call.AllowN? then [call.n <= 0] else [];
            && Verdicts(c, Bucket(c.max, None), [call] + rest) == answer + Verdicts(c, Bucket(c.max, None), rest)
            && EagerVerdicts(c, Bucket(c.max, Some(first)), [call] + rest)
               == answer + EagerVerdicts(c, Bucket(c.max, Some(first)), rest)
  {
    assert ([call] + rest)[1..] == rest;
    assert TickUntil(c, Bucket(c.max, Some(first)), call.now) == Bucket(c.max, Some(first));
  }

  /** The AllowN calls alone. */
  function Requests(calls: seq<Call>): seq<Call> {
    if calls == [] then []
    else (if calls[0].AllowN? then [calls[0]] else []) + Requests(calls[1..])
  }

  /** Once a first reading was taken, Stats, Wait and WaitN calls in between do not
      change the answer to any later request, although each refills the bucket. */
  lemma {:induction false} ObserversInvisible(c: Config, b: Bucket, calls: seq<Call>, t: int)
    requires c.Usable() && Inv(c, b)
    requires b.last.Some? && b.last.value <= t && InOrderFrom(calls, t)
    ensures Verdicts(c, b, calls) == Verdicts(c, b, Requests(calls))
    decreases |calls|
  {
    if calls == [] {
    } else {
      var call, rest := calls[0], calls[1..];
      CallKeeps(c, b, call);
      RefillKeeps(c, b, call.now);
      if call.AllowN? {
        ObserversInvisible(c, After(c, b, call), rest, call.now);
        assert Requests(calls) == [call] + Requests(rest);
        assert Requests(calls)[1..] == Requests(rest);
      } else {
        RefillInvisible(c, b, call.now, rest);
        InOrderLater(rest, b.last.value, call.now);
        ObserversInvisible(c, b, rest, b.last.value);
        assert Requests(calls) == Requests(rest);
      }
    }
  }

  /** Before the first reading, if an interval lasts two instants or more, they are
      visible at any time: a Stats call starts the intervals early, and a request that
      would have been turned away is granted. */
  lemma {:induction false} FirstStatsIsVisible(c: Config, s: int)
    requires c.Usable() && c.interval >= 2
    ensures var r1, r2 := AllowN(s + c.interval - 1, c.max), AllowN(s + c.interval, 1);
            && InOrderFrom([Stats(s), r1, r2], s) && Requests([Stats(s), r1, r2]) == [r1, r2]
            && Verdicts(c, Bucket(c.max, None), [Stats(s), r1, r2]) == [true, true]
            && Verdicts(c, Bucket(c.max, None), [r1, r2]) == [true, false]
  {
    var r1, r2 := AllowN(s + c.interval - 1, c.max), AllowN(s + c.interval, 1);
    assert [Stats(s), r1, r2][1..] == [r1, r2] && [r1, r2][1..] == [r2] && [r2][1..] == [];
    assert [r2] == [r2] + [] && [r1, r2] == [r1] + [r2] && [Stats(s), r1, r2] == [Stats(s)] + [r1, r2];
    assert InOrderFrom([r2], r1.now) && InOrderFrom([r1, r2], s);
    RequestsCons(r2, []);
    RequestsCons(r1, [r2]);
    RequestsCons(Stats(s), [r1, r2]);
    IntervalsPassed(c, s);
    TwoVerdicts(c, Bucket(c.max, Some(s)), r1, r2);
    TwoVerdicts(c, Bucket(c.max, None), r1, r2);
  }

  lemma {:induction false} RequestsCons(call: Call, rest: seq<Call>)
    ensures Requests([call] + rest) == (if call.AllowN? then [call] else []) + Requests(rest)
    ensures Requests(rest) == rest ==> Requests([call] + rest) == if call.AllowN? then [call] + rest else rest
  {
    assert ([call] + rest)[1..] == rest;
  }

  lemma {:induction false} VerdictsCons(c: Config, b: Bucket, call: Call, rest: seq<Call>)
    requires c.Usable()
    ensures var answer := if !call.AllowN? then [] else [call.n <= 0 || Grants(c, b, call.now, call.n)];
            Verdicts(c, b, [call] + rest) == answer + Verdicts(c, After(c, b, call), rest)
  {
    assert ([call] + rest)[1..] == rest;
  }

  lemma {:induction false} TwoVerdicts(c: Config, b: Bucket, r1: Call, r2: Call)
    requires c.Usable() && r1.AllowN? && r2.AllowN? && r1.n > 0 && r2.n > 0
    ensures Verdicts(c, b, [r1, r2]) == [Grants(c, b, r1.now, r1.n), Grants(c, After(c, b, r1), r2.now, r2.n)]
  {
    assert [r1, r2][1..] == [r2] && [r2][1..] == [];
    assert Verdicts(c, After(c, b, r1), [r2]) == [Grants(c, After(c, b, r1), r2.now, r2.n)];
  }

  /** One interval after s a bucket that counts from s is refilled, one that counts from
      the last instant before is not. */
  lemma {:induction false} IntervalsPassed(c: Config, s: int)
    requires c.Usable() && c.interval >= 2
    ensures Refill(c, Bucket(c.max, Some(s)), s + c.interval - 1) == Bucket(c.max, Some(s))
    ensures Refill(c, Bucket(0, Some(s)), s + c.interval) == Bucket(c.refill, Some(s + c.interval))
    ensures Refill(c, Bucket(0, Some(s + c.interval - 1)), s + c.interval) == Bucket(0, Some(s + c.interval - 1))
  {
    QuotAtLeast(c.interval - 1, c.interval, 1);
    QuotAtLeast(c.interval, c.interval, 1);
    QuotAtLeast(c.interval, c.interval, 2);
    QuotAtLeast(1, c.interval, 1);
    assert c.interval / c.interval == 1;
  }

  /** A bucket that is never refilled grants by its tokens alone. */
  lemma {:induction false} LastReadingUnused(c: Config, b: Bucket, d: Bucket, calls: seq<Call>, t: int)
    requires c.Usable() && c.interval < 0 && b.tokens == d.tokens && b.last.Some? && d.last.Some?
    requires b.last.value <= t && d.last.value <= t && InOrderFrom(calls, t)
    ensures Verdicts(c, b, calls) == Verdicts(c, d, calls)
    decreases |calls|
  {
    if calls == [] {
    } else {
      var call := calls[0];
      NoRefill(c, b, call.now);
      NoRefill(c, d, call.now);
      LastReadingUnused(c, After(c, b, call), After(c, d, call), calls[1..], call.now);
    }
  }

  /** Instants are intervals: an early first reading leaves no trace in the next one. */
  lemma {:induction false} EachInstantRefills(c: Config, s: int, now: int)
    requires c.Usable() && c.interval == 1 && s <= now
    ensures Refill(c, Bucket(c.max, Some(s)), now) == Bucket(c.max, Some(now))
  {
    MulMonotone(0, now - s, c.refill);
  }

  /** Without intervals of two instants or more no later call sees a first reading. */
  lemma {:induction false} FirstReadingUnseen(c: Config, s: int, calls: seq<Call>)
    requires c.Usable() && c.interval < 2 && InOrderFrom(calls, s)
    ensures Verdicts(c, Bucket(c.max, Some(s)), calls) == Verdicts(c, Bucket(c.max, None), calls)
    decreases |calls|
  {
    if calls == [] {
    } else {
      var call, rest := calls[0], calls[1..];
      if !call.Stats? && !Servable(c, call.n) {
        InOrderLater(rest, s, call.now);
        FirstReadingUnseen(c, s, rest);
      } else if c.interval == 1 {
        EachInstantRefills(c, s, call.now);
      } else {
        var b, d := Bucket(c.max, Some(s)), Bucket(c.max, None);
        NoRefill(c, b, call.now);
        LastReadingUnused(c, After(c, b, call), After(c, d, call), rest, call.now);
      }
    }
  }

  /** Nor does it show whether the observers were there. */
  lemma {:induction false} FirstObserversInvisible(c: Config, b: Bucket, calls: seq<Call>, t: int)
    requires c.Usable() && c.interval < 2 && b == Bucket(c.max, None) && InOrderFrom(calls, t)
    ensures Verdicts(c, b, calls) == Verdicts(c, b, Requests(calls))
    decreases |calls|
  {
    if calls == [] {
    } else {
      var call, rest := calls[0], calls[1..];
      if !call.Stats? && !Servable(c, call.n) {
        FirstObserversInvisible(c, b, rest, call.now);
        VerdictsCons(c, b, call, rest);
        VerdictsCons(c, b, call, Requests(rest));
        assert calls == [call] + rest && After(c, b, call) == b;
        assert Requests(calls) == (if call.AllowN? then [call] else []) + Requests(rest);
        assert [] + Requests(rest) == Requests(rest);
      } else {
        CallKeeps(c, b, call);
        ObserversInvisible(c, After(c, b, call), rest, call.now);
        if call.AllowN? {
          assert calls == [call] + rest;
          VerdictsCons(c, b, call, rest);
          VerdictsCons(c, b, call, Requests(rest));
          assert Requests(calls) == [call] + Requests(rest);
        } else {
          RequestsInOrder(rest, call.now);
          FirstReadingUnseen(c, call.now, Requests(rest));
        }
      }
    }
  }

  lemma {:induction false} RequestsInOrder(calls: seq<Call>, t: int)
    requires InOrderFrom(calls, t)
    ensures InOrderFrom(Requests(calls), t)
  {
    if calls == [] {
    } else {
      RequestsInOrder(calls[1..], calls[0].now);
      if calls[0].AllowN? {
        var requests := [calls[0]] + Requests(calls[1..]);
        assert requests[0] == calls[0] && requests[1..] == Requests(calls[1..]);
        assert Requests(calls) == requests;
      } else {
        assert Requests(calls) == Requests(calls[1..]);
        InOrderLater(Requests(calls[1..]), t, calls[0].now);
      }
    }
  }

  /** Stats, Wait and WaitN calls change no answer. */
  ghost predicate Unobserved(c: Config, b: Bucket, calls: seq<Call>)
    requires c.Usable()
  {
    Verdicts(c, b, calls) == Verdicts(c, b, Requests(calls))
  }

  /** Exactly when observing is free: after a first reading, or if an interval does not
      last two instants. */
  lemma {:induction false} InvisibleExactly(c: Config, b: Bucket)
    requires c.Usable() && Inv(c, b)
    ensures (forall calls, t :: Behind(b, t) && InOrderFrom(calls, t) ==> Unobserved(c, b, calls))
            <==> b.last.Some? || c.interval < 2
  {
    if b.last.Some? || c.interval < 2 {
      forall calls, t | Behind(b, t) && InOrderFrom(calls, t)
        ensures Unobserved(c, b, calls)
      {
        UnobservedIf(c, b, calls, t);
      }
    } else {
      var calls := FirstStatsObserved(c);
      assert b == Bucket(c.max, None) && Behind(b, 0) && InOrderFrom(calls, 0) && !Unobserved(c, b, calls);
    }
  }

  lemma {:induction false} UnobservedIf(c: Config, b: Bucket, calls: seq<Call>, t: int)
    requires c.Usable() && Inv(c, b) && Behind(b, t) && InOrderFrom(calls, t)
    requires b.last.Some? || c.interval < 2
    ensures Unobserved(c, b, calls)
  {
    if b.last.Some? {
      ObserversInvisible(c, b, calls, t);
    } else {
      FirstObserversInvisible(c, b, calls, t);
    }
  }

  lemma {:induction false} FirstStatsObserved(c: Config) returns (calls: seq<Call>)
    requires c.Usable() && c.interval >= 2
    ensures InOrderFrom(calls, 0) && !Unobserved(c, Bucket(c.max, None), calls)
  {
    FirstStatsIsVisible(c, 0);
    calls := [Stats(0), AllowN(c.interval - 1, c.max), AllowN(c.interval, 1)];
  }

  // ---------- arrival curve ----------

  /** What a bucket can still hand out up to `t`: its tokens and the refills due. */
  function Potential(c: Config, b: Bucket, t: int): int
    requires c.Usable() && c.interval > 0 && b.last.Some?
  {
    b.tokens + c.refill * ((t - b.last.value) / c.interval)
  }

  lemma {:induction false} RefillPotential(c: Config, b: Bucket, now: int, t: int)
    requires c.Usable() && c.interval > 0 && Inv(c, b) && b.last.Some? && b.last.value <= now <= t
    ensures Refill(c, b, now).last.Some?
    ensures Potential(c, Refill(c, b, now), t) <= Potential(c, b, t)
  {
    var k := (now - b.last.value) / c.interval;
    RefillIsCredit(c, b, now);
    QuotShift(t - b.last.value, k, c.interval);
    var q := (t - b.last.value) / c.interval;
    assert c.refill * (q - k) == c.refill * q - k * c.refill;
  }

  lemma {:induction false} GrantedWithinPotential(c: Config, b: Bucket, calls: seq<Call>, s: int, t: int)
    requires c.Usable() && c.interval > 0 && Inv(c, b) && b.last.Some? && b.last.value <= s
    requires InOrderFrom(calls, s) && s <= t && (forall i :: 0 <= i < |calls| && !calls[i].Reset? ==> calls[i].now <= t)
    ensures Granted(c, b, calls) <= Potential(c, b, t)
    decreases |calls|
  {
    if calls == [] {
      QuotAtLeast(t - b.last.value, c.interval, 0);
      MulMonotone(0, (t - b.last.value) / c.interval, c.refill);
    } else {
      var call, rest := calls[0], calls[1..];
      CallKeeps(c, b, call);
      RefillKeeps(c, b, call.now);
      RefillPotential(c, b, call.now, t);
      assert forall i :: 0 <= i < |rest| ==> rest[i] == calls[i + 1];
      GrantedWithinPotential(c, After(c, b, call), rest, call.now, t);
    }
  }

  function CeilQuot(x: int, y: int): int
    requires y > 0
  {
    (x + y - 1) / y
  }

  /** The arrival curve. From any state, the calls of a Reset-free stretch whose
      readings lie in [s, t] are granted at most a full bucket and one refill for
      each started interval of t - s. */
  lemma {:induction false} ArrivalCurve(c: Config, b: Bucket, calls: seq<Call>, s: int, t: int)
    requires c.Usable() && c.interval > 0 && Inv(c, b) && Behind(b, s)
    requires InOrderFrom(calls, s) && s <= t && (forall i :: 0 <= i < |calls| && !calls[i].Reset? ==> calls[i].now <= t)
    ensures Granted(c, b, calls) <= c.max + c.refill * CeilQuot(t - s, c.interval)
    decreases |calls|
  {
    if calls == [] {
      QuotAtLeast(t - s + c.interval - 1, c.interval, 0);
      MulMonotone(0, CeilQuot(t - s, c.interval), c.refill);
    } else {
      var call, rest := calls[0], calls[1..];
      assert forall i :: 0 <= i < |rest| ==> rest[i] == calls[i + 1];
      CallKeeps(c, b, call);
      if !call.Stats? && !Servable(c, call.n) {
        InOrderLater(rest, s, call.now);
        ArrivalCurve(c, b, rest, s, t);
      } else {
        var full := Refill(c, b, call.now);
        FreshlyRefilled(c, b, call.now);
        assert Granted(c, b, calls) == Granted(c, full, calls);
        GrantedFromFull(c, full, calls, s, t);
      }
    }
  }

  lemma {:induction false} GrantedFromFull(c: Config, full: Bucket, calls: seq<Call>, s: int, t: int)
    requires c.Usable() && c.interval > 0 && Inv(c, full) && full.last.Some?
    requires calls != [] && InOrderFrom(calls, s)
    requires full.last.value <= calls[0].now < full.last.value + c.interval
    requires forall i :: 0 <= i < |calls| && !calls[i].Reset? ==> calls[i].now <= t
    ensures Granted(c, full, calls) <= c.max + c.refill * CeilQuot(t - s, c.interval)
  {
    GrantedWithinPotential(c, full, calls, calls[0].now, t);
    var k, m := (t - full.last.value) / c.interval, CeilQuot(t - s, c.interval);
    QuotMonotone(t - full.last.value, t - s + c.interval - 1, c.interval);
    MulMonotone(k, m, c.refill);
    assert c.refill * k == k * c.refill && c.refill * m == m * c.refill;
  }

  /** A bucket that was just refilled is credited up to less than an interval ago,
      and refilling it again changes nothing. */
  lemma {:induction false} FreshlyRefilled(c: Config, b: Bucket, now: int)
    requires c.Usable() && c.interval > 0 && Inv(c, b) && Behind(b, now)
    ensures var full := Refill(c, b, now);
            && Inv(c, full) && full.last.Some? && full.last.value <= now < full.last.value + c.interval
            && Refill(c, full, now) == full
  {
    RefillKeeps(c, b, now);
    if b.last.Some? {
      var k := (now - b.last.value) / c.interval;
      RefillIsCredit(c, b, now);
      QuotAtLeast(now - b.last.value, c.interval, k + 1);
      QuotAtLeast(now - b.last.value, c.interval, k);
      assert (k + 1) * c.interval == k * c.interval + c.interval;
      RefillTwice(c, b, now, now);
    }
  }

  lemma {:induction false} RunKeeps(c: Config, b: Bucket, calls: seq<Call>, u: int, t: int)
    requires c.Usable() && Inv(c, b) && Behind(b, u) && ReadingsFrom(calls, u) && u <= t
    requires forall i :: 0 <= i < |calls| && !calls[i].Reset? ==> calls[i].now <= t
    ensures Inv(c, RunFrom(c, b, calls)) && Behind(RunFrom(c, b, calls), t)
    decreases |calls|
  {
    if calls == [] {
    } else {
      CallKeeps(c, b, calls[0]);
      assert forall i :: 0 <= i < |calls[1..]| ==> calls[1..][i] == calls[i + 1];
      RunKeeps(c, After(c, b, calls[0]), calls[1..], if calls[0].Reset? then u else calls[0].now, t);
    }
  }

  /** The arrival curve in a run: whatever came `before`, with whatever Resets, the
      calls of a later stretch with readings in [s, t] are granted at most
      max + refill * ceil((t - s) / interval). */
  lemma {:induction false} RunArrivalCurve(c: Config, before: seq<Call>, stretch: seq<Call>, start: int, s: int, t: int)
    requires c.Usable() && c.interval > 0
    requires ReadingsFrom(before, start) && start <= s <= t && InOrderFrom(stretch, s)
    requires forall i :: 0 <= i < |before| && !before[i].Reset? ==> before[i].now <= s
    requires forall i :: 0 <= i < |stretch| && !stretch[i].Reset? ==> stretch[i].now <= t
    ensures Granted(c, Run(c, before), stretch) <= c.max + c.refill * CeilQuot(t - s, c.interval)
  {
    RunKeeps(c, Bucket(c.max, None), before, start, s);
    ArrivalCurve(c, Run(c, before), stretch, s, t);
  }

  // ---------- waiting ----------

  /** The first instant at which a bucket short of `n` tokens holds that many. */
  function FirstInstant(c: Config, b: Bucket, n: int): int
    requires c.Usable() && b.last.Some?
  {
    b.last.value + ((n - b.tokens - 1) / c.refill + 1) * c.interval
  }

  /** With no other consumer the tokens are there from FirstInstant on, and not
      before: as many intervals as the shortfall needs, rounded up. */
  lemma {:induction false} EnoughFrom(c: Config, b: Bucket, n: int, t: int)
    requires c.Usable() && c.interval > 0 && Inv(c, b) && b.last.Some? && b.last.value <= t
    requires b.tokens < n <= c.max
    ensures Grants(c, b, t, n) <==> FirstInstant(c, b, n) <= t
  {
    var k := (t - b.last.value) / c.interval;
    RefillIsCredit(c, b, t);
    var needed := n - b.tokens;
    var m := (needed - 1) / c.refill + 1;
    QuotAtLeast(needed - 1, c.refill, k);
    QuotAtLeast(t - b.last.value, c.interval, m);
  }

  /** The wait that is answered, measured from the reading `second`. */
  function WaitTime(c: Config, b: Bucket, n: int, second: int): int
    requires c.Usable() && b.last.Some?
  {
    var remaining := c.interval - (second - b.last.value);
    (if remaining < 0 then 0 else remaining) + (n - b.tokens - 1) / c.refill * c.interval
  }

  /** By how much `second` is past the boundary. */
  function Overshoot(second: int, boundary: int): (d: int)
    ensures d >= 0 && (d == 0 <==> second <= boundary)
  {
    if second <= boundary then 0 else second - boundary
  }

  /** It never ends before the first instant, and on it unless an interval boundary
      went by before it was computed. */
  lemma {:induction false} WaitReaches(c: Config, b: Bucket, n: int, second: int)
    requires c.Usable() && c.interval > 0 && b.last.Some?
    ensures FirstInstant(c, b, n) <= second + WaitTime(c, b, n, second)
    ensures second + WaitTime(c, b, n, second)
            == FirstInstant(c, b, n) + Overshoot(second, b.last.value + c.interval)
  {
    var k := (n - b.tokens - 1) / c.refill;
    assert (k + 1) * c.interval == k * c.interval + c.interval;
  }

  lemma {:induction false} FirstInstantLater(c: Config, b: Bucket, n: int, first: int)
    requires c.Usable() && c.interval > 0 && Inv(c, b) && b.last.Some?
    requires b.last.value <= first < b.last.value + c.interval && b.tokens < n <= c.max
    ensures first < FirstInstant(c, b, n)
  {
    FreshlyRefilled(c, b, first);
    EnoughFrom(c, b, n, first);
    QuotAtLeast(first - b.last.value, c.interval, 1);
    RefillIsCredit(c, b, first);
  }

  /** With a negative interval there is no right answer to a wait: the tokens never come. */
  lemma {:induction false} NeverEnough(c: Config, b: Bucket, n: int, t: int)
    requires c.Usable() && c.interval < 0 && b.last.Some? && b.last.value <= t
    requires b.tokens < n
    ensures !Grants(c, b, t, n)
  {
    NoRefill(c, b, t);
  }

  // ---------- the limiter ----------

  const SECOND := 1_000_000_000

  class TokenBucketLimiter {
    const refillTokens: int
    const maxTokens: int
    const interval: int
    var tokens: int
    var lastRefill: Option<int>
    ghost var calls: seq<Call>

    ghost function Cfg(): Config { Config(refillTokens, maxTokens, interval) }

    ghost function View(): Bucket
      reads this
    {
      Bucket(tokens, lastRefill)
    }

    ghost predicate Valid()
      reads this
    {
      && Cfg().Usable()
      && View() == Run(Cfg(), calls)
      && Inv(Cfg(), View())
    }

    constructor (capacity: int, burst: int, interval: int)
      ensures Valid() && calls == []
      ensures refillTokens == if capacity <= 0 then 60 else capacity
      ensures maxTokens == if burst <= refillTokens then refillTokens else burst
      ensures this.interval == if interval == 0 then SECOND else interval
    {
      var refill := if capacity <= 0 then 60 else capacity;
      var max := if burst <= 0 then refill else burst;
      if max < refill {
        max := refill;
      }
      refillTokens := refill;
      maxTokens := max;
      tokens := max;
      lastRefill := None;
      this.interval := if interval == 0 then SECOND else interval;
      calls := [];
    }

    method RefillNow(now: int)
      requires Cfg().Usable()
      modifies this`tokens, this`lastRefill
      ensures View() == Refill(Cfg(), old(View()), now)
    {
      if lastRefill.None? {
        lastRefill := Some(now);
        return;
      }
      var elapsed := now - lastRefill.value;
      var intervals := TruncQuot(elapsed, interval);
      if intervals <= 0 {
        return;
      }
      tokens := tokens + intervals * refillTokens;
      if tokens > maxTokens {
        tokens := maxTokens;
      }
      lastRefill := Some(lastRefill.value + intervals * interval);
    }

    method AllowN(now: int, n: int) returns (ok: bool)
      requires Valid()
      modifies this
      ensures Valid() && calls == old(calls) + [Call.AllowN(now, n)]
      ensures ok == (n <= 0 || Grants(Cfg(), old(View()), now, n))
      ensures View() == After(Cfg(), old(View()), Call.AllowN(now, n))
    {
      Record(Call.AllowN(now, n));
      if n <= 0 {
        return true;
      }
      if n > maxTokens {
        return false;
      }
      RefillNow(now);
      if tokens >= n {
        tokens := tokens - n;
        return true;
      }
      return false;
    }

    ghost method Record(call: Call)
      requires Valid()
      modifies this`calls
      ensures calls == old(calls) + [call]
      ensures Run(Cfg(), calls) == After(Cfg(), View(), call)
      ensures Inv(Cfg(), After(Cfg(), View(), call))
    {
      RunSnoc(Cfg(), Bucket(maxTokens, None), calls, call);
      CallKeeps(Cfg(), View(), call);
      calls := calls + [call];
    }

    /** `first` is the reading of the refill, `second` the one the wait is measured
        from. A caller who lacks tokens is told a time that never undershoots the
        first instant `free` at which they are there; it is exact unless an
        interval boundary went by between the two readings, so with a single
        reading it is exact. A bucket with a negative interval never has them. */
    method WaitN(n: int, first: int, second: int) returns (d: int, ghost free: int)
      requires Valid() && Behind(View(), first) && first <= second
      modifies this
      ensures Valid() && calls == old(calls) + [Call.WaitN(first, n)]
      ensures View() == After(Cfg(), old(View()), Call.WaitN(first, n))
      ensures !Servable(Cfg(), n) || Grants(Cfg(), old(View()), first, n) ==> d == 0
      ensures Servable(Cfg(), n) && !Grants(Cfg(), old(View()), first, n) && interval > 0 ==>
                && first < free
                && (forall t :: first <= t ==> (Grants(Cfg(), View(), t, n) <==> free <= t))
                && lastRefill.Some? && first < lastRefill.value + interval
                && second + d == free + Overshoot(second, lastRefill.value + interval)
      ensures Servable(Cfg(), n) && !Grants(Cfg(), old(View()), first, n) && interval < 0 ==>
                forall t :: first <= t ==> !Grants(Cfg(), View(), t, n)
    {
      free := first;
      Record(Call.WaitN(first, n));
      if n <= 0 || n > maxTokens {
        return 0, free;
      }
      RefillKeeps(Cfg(), View(), first);
      RefillNow(first);
      if tokens >= n {
        return 0, free;
      }
      if interval > 0 {
        FreshlyRefilled(Cfg(), old(View()), first);
        free := FirstInstant(Cfg(), View(), n);
        forall t | first <= t
          ensures Grants(Cfg(), View(), t, n) <==> free <= t
        {
          EnoughFrom(Cfg(), View(), n, t);
        }
        FirstInstantLater(Cfg(), View(), n, first);
        WaitReaches(Cfg(), View(), n, second);
      } else {
        forall t | first <= t
          ensures !Grants(Cfg(), View(), t, n)
        {
          NeverEnough(Cfg(), View(), n, t);
        }
      }
      var needed := n - tokens;
      var elapsed := second - lastRefill.value;
      var remaining := interval - elapsed;
      if remaining < 0 {
        remaining := 0;
      }
      var additionalIntervals := (needed - 1) / refillTokens;
      return remaining + additionalIntervals * interval, free;
    }

    method Wait(first: int, second: int) returns (d: int, ghost free: int)
      requires Valid() && Behind(View(), first) && first <= second
      modifies this
      ensures Valid() && calls == old(calls) + [Call.WaitN(first, 1)]
      ensures Grants(Cfg(), old(View()), first, 1) ==> d == 0
      ensures !Grants(Cfg(), old(View()), first, 1) && interval > 0 ==>
                && (forall t :: first <= t ==> (Grants(Cfg(), View(), t, 1) <==> free <= t))
                && free <= second + d && (first == second ==> free == second + d)
    {
      d, free := WaitN(1, first, second);
    }

    method Reset()
      requires Valid()
      modifies this
      ensures Valid() && calls == old(calls) + [Call.Reset]
      ensures View() == Bucket(maxTokens, None)
    {
      Record(Call.Reset);
      tokens := maxTokens;
      lastRefill := None;
    }

    method Stats(now: int) returns (available: int)
      requires Valid()
      modifies this
      ensures Valid() && calls == old(calls) + [Call.Stats(now)]
      ensures View() == Refill(Cfg(), old(View()), now)
      ensures available == tokens && 0 <= available <= maxTokens
    {
      Record(Call.Stats(now));
      RefillNow(now);
      return tokens;
    }
  }
}
