/** The sliding-window rate limiter: a pruned bucket of admission times per key,
    and the proof that it decides as the full admission history would. */
module SlidingWindow {
  import opened LimiterCalls

  datatype Config = Config(limit: int, window: int)

  type Buckets = map<string, seq<int>>

  // ---------- one call ----------

  /** The times that lie after `cutoff`, in order. */
  function Live(times: seq<int>, cutoff: int): seq<int> {
    if times == [] then []
    else
      var last := times[|times| - 1];
      Live(times[..|times| - 1], cutoff) + if last > cutoff then [last] else []
  }

  function Copies(n: int, t: int): seq<int> {
    seq(if n < 0 then 0 else n, _ => t)
  }

  function BucketOf(buckets: Buckets, key: string): seq<int> {
    if key in buckets then buckets[key] else []
  }

  predicate Allows(c: Config, buckets: Buckets, key: string, now: int, n: int) {
    |Live(BucketOf(buckets, key), now - c.window)| + n <= c.limit
  }

  function After(c: Config, buckets: Buckets, call: Call): Buckets {
    match call
    case AllowN(key, now, n) =>
      if Allows(c, buckets, key, now, n)
      then buckets[key := Live(BucketOf(buckets, key), now - c.window) + Copies(n, now)]
      else buckets
    case Reset(key) => buckets - {key}
  }

  // ---------- whole runs ----------

  function Run(c: Config, calls: seq<Call>): Buckets {
    if calls == [] then map[]
    else After(c, Run(c, calls[..|calls| - 1]), calls[|calls| - 1])
  }

  /** The full history the bucket compresses: the time of every request admitted
      for `key` since its last Reset, nothing ever forgotten. */
  function Log(c: Config, calls: seq<Call>, key: string): seq<int> {
    if calls == [] then []
    else
      var before := calls[..|calls| - 1];
      match calls[|calls| - 1]
      case AllowN(k, now, n) =>
        if k == key && Allows(c, Run(c, before), k, now, n)
        then Log(c, before, key) + Copies(n, now)
        else Log(c, before, key)
      case Reset(k) => if k == key then [] else Log(c, before, key)
  }

  /** How many of `times` lie in the half-open span (a, b]. */
  function Within(times: seq<int>, a: int, b: int): nat {
    if times == [] then 0
    else
      var last := times[|times| - 1];
      Within(times[..|times| - 1], a, b) + if a < last <= b then 1 else 0
  }

  /** The readings of the key since its last Reset do not decrease in lock order. */
  ghost predicate InOrder(calls: seq<Call>, key: string) {
    forall i, j :: i < j && Current(calls, key, i) && Current(calls, key, j) ==> calls[i].now <= calls[j].now
  }

  /** None of them is later than `t`. */
  ghost predicate ReadBy(calls: seq<Call>, key: string, t: int) {
    forall i :: Current(calls, key, i) ==> calls[i].now <= t
  }

  ghost predicate Sorted(times: seq<int>) {
    forall i, j :: 0 <= i < j < |times| ==> times[i] <= times[j]
  }

  // ---------- lemmas about Live and Within ----------

  lemma {:induction false} LiveConcat(xs: seq<int>, ys: seq<int>, cutoff: int)
    ensures Live(xs + ys, cutoff) == Live(xs, cutoff) + Live(ys, cutoff)
  {
    if ys == [] {
      assert xs + ys == xs;
    } else {
      var zs := xs + ys;
      assert zs[..|zs| - 1] == xs + ys[..|ys| - 1];
      LiveConcat(xs, ys[..|ys| - 1], cutoff);
    }
  }

  lemma {:induction false} LiveTwice(times: seq<int>, first: int, second: int)
    requires first <= second
    ensures Live(Live(times, first), second) == Live(times, second)
  {
    if times == [] {
    } else {
      var init, last := times[..|times| - 1], times[|times| - 1];
      LiveTwice(init, first, second);
      LiveConcat(Live(init, first), if last > first then [last] else [], second);
    }
  }

  /** Pruning keeps exactly the entries after the cutoff, never grows the bucket,
      and removes nothing just when every entry is live. */
  lemma {:induction false} LiveIsSublist(times: seq<int>, cutoff: int)
    ensures |Live(times, cutoff)| <= |times|
    ensures forall x :: x in Live(times, cutoff) <==> x in times && x > cutoff
    ensures |Live(times, cutoff)| == |times| <==> forall x :: x in times ==> x > cutoff
  {
    if times == [] {
    } else {
      var init, last := times[..|times| - 1], times[|times| - 1];
      LiveIsSublist(init, cutoff);
      assert times == init + [last];
      assert last in times;
      assert forall x :: x in init ==> x in times;
    }
  }

  lemma {:induction false} LiveSorted(times: seq<int>, cutoff: int)
    requires Sorted(times)
    ensures Sorted(Live(times, cutoff))
  {
    if times == [] {
    } else {
      var init, last := times[..|times| - 1], times[|times| - 1];
      LiveSorted(init, cutoff);
      LiveIsSublist(init, cutoff);
      forall x | x in init ensures x <= last {
        var i :| 0 <= i < |init| && init[i] == x;
        assert times[i] == x;
      }
      SortedConcat(Live(init, cutoff), if last > cutoff then [last] else []);
    }
  }

  lemma {:induction false} SortedConcat(xs: seq<int>, ys: seq<int>)
    requires Sorted(xs) && Sorted(ys)
    requires forall x, y :: x in xs && y in ys ==> x <= y
    ensures Sorted(xs + ys)
  {
    forall i, j | 0 <= i < j < |xs + ys| ensures (xs + ys)[i] <= (xs + ys)[j] {
      if i < |xs| <= j {
        assert xs[i] in xs && ys[j - |xs|] in ys;
      }
    }
  }

  lemma {:induction false} WithinConcat(xs: seq<int>, ys: seq<int>, a: int, b: int)
    ensures Within(xs + ys, a, b) == Within(xs, a, b) + Within(ys, a, b)
  {
    if ys == [] {
      assert xs + ys == xs;
    } else {
      var zs := xs + ys;
      assert zs[..|zs| - 1] == xs + ys[..|ys| - 1];
      WithinConcat(xs, ys[..|ys| - 1], a, b);
    }
  }

  lemma {:induction false} WithinCopies(n: int, t: int, a: int, b: int)
    ensures Within(Copies(n, t), a, b) == if a < t <= b && n > 0 then n else 0
  {
    if n <= 0 {
    } else {
      assert Copies(n, t)[..n - 1] == Copies(n - 1, t);
      WithinCopies(n - 1, t, a, b);
    }
  }

  /** Counting a span whose left end is at or after the cutoff counts live
      entries only, and counts all of them when the span is (cutoff, b]. */
  lemma {:induction false} WithinLive(times: seq<int>, cutoff: int, a: int, b: int)
    requires cutoff <= a
    ensures Within(times, a, b) <= |Live(times, cutoff)|
    ensures a == cutoff && (forall x :: x in times ==> x <= b) ==> Within(times, a, b) == |Live(times, cutoff)|
  {
    if times == [] {
    } else {
      var init, last := times[..|times| - 1], times[|times| - 1];
      WithinLive(init, cutoff, a, b);
      assert last in times;
      assert forall x :: x in init ==> x in times;
    }
  }

  // ---------- the invariant that ties bucket to history ----------

  ghost predicate ReadUpTo(times: seq<int>, t: int) {
    forall x :: x in times ==> x <= t
  }

  /** What ties a bucket to the full log once every reading is at most `t`: the
      bucket holds at most `limit` times, sorted, none later than `t`, and it
      agrees with the log about everything still live at `t`. */
  ghost predicate Tracks(c: Config, bucket: seq<int>, log: seq<int>, t: int) {
    && |bucket| <= c.limit
    && Sorted(bucket)
    && ReadUpTo(bucket, t) && ReadUpTo(log, t)
    && Live(bucket, t - c.window) == Live(log, t - c.window)
  }

  lemma {:induction false} TracksLater(c: Config, bucket: seq<int>, log: seq<int>, now: int, t: int)
    requires Tracks(c, bucket, log, now) && now <= t
    ensures Tracks(c, bucket, log, t)
  {
    LiveTwice(bucket, now - c.window, t - c.window);
    LiveTwice(log, now - c.window, t - c.window);
  }

  lemma {:induction false} AdmissionTracks(c: Config, bucket: seq<int>, log: seq<int>, now: int, n: int)
    requires Tracks(c, bucket, log, now) && |Live(bucket, now - c.window)| + n <= c.limit
    ensures Tracks(c, Live(bucket, now - c.window) + Copies(n, now), log + Copies(n, now), now)
  {
    AdmissionSorted(bucket, now, n, now - c.window);
    AdmissionReadings(bucket, log, now, n, now - c.window);
    AdmissionLive(bucket, log, Copies(n, now), now - c.window);
  }

  lemma {:induction false} AdmissionSorted(bucket: seq<int>, now: int, n: int, cutoff: int)
    requires Sorted(bucket) && ReadUpTo(bucket, now)
    ensures Sorted(Live(bucket, cutoff) + Copies(n, now))
  {
    LiveIsSublist(bucket, cutoff);
    LiveSorted(bucket, cutoff);
    SortedConcat(Live(bucket, cutoff), Copies(n, now));
  }

  lemma {:induction false} AdmissionReadings(bucket: seq<int>, log: seq<int>, now: int, n: int, cutoff: int)
    requires ReadUpTo(bucket, now) && ReadUpTo(log, now)
    ensures ReadUpTo(Live(bucket, cutoff) + Copies(n, now), now) && ReadUpTo(log + Copies(n, now), now)
    ensures |Live(bucket, cutoff)| <= |bucket|
  {
    LiveIsSublist(bucket, cutoff);
  }

  lemma {:induction false} AdmissionLive(bucket: seq<int>, log: seq<int>, added: seq<int>, cutoff: int)
    requires Live(bucket, cutoff) == Live(log, cutoff)
    ensures Live(Live(bucket, cutoff) + added, cutoff) == Live(log + added, cutoff)
  {
    LiveConcat(Live(bucket, cutoff), added, cutoff);
    LiveConcat(log, added, cutoff);
    LiveTwice(bucket, cutoff, cutoff);
  }

  lemma {:induction false} OrderBefore(before: seq<Call>, call: Call, key: string, t: int)
    requires call != Call.Reset(key) && InOrder(before + [call], key) && ReadBy(before + [call], key, t)
    ensures InOrder(before, key) && ReadBy(before, key, t)
    ensures call.AllowN? && call.key == key ==> ReadBy(before, key, call.now) && call.now <= t
  {
    var calls := before + [call];
    AllCurrent(before, call, key);
  }

  /** While a key's readings come in order its bucket tracks its full log. */
  lemma {:induction false} BucketTracksLog(c: Config, calls: seq<Call>, key: string, t: int)
    requires c.limit > 0 && InOrder(calls, key) && ReadBy(calls, key, t)
    ensures Tracks(c, BucketOf(Run(c, calls), key), Log(c, calls, key), t)
  {
    if calls == [] || calls[|calls| - 1] == Call.Reset(key) {
    } else {
      var before, call := calls[..|calls| - 1], calls[|calls| - 1];
      assert calls == before + [call];
      OrderBefore(before, call, key, t);
      if call.AllowN? && call.key == key && Allows(c, Run(c, before), key, call.now, call.n) {
        var bucket, log := BucketOf(Run(c, before), key), Log(c, before, key);
        BucketTracksLog(c, before, key, call.now);
        AdmissionTracks(c, bucket, log, call.now, call.n);
        TracksLater(c, Live(bucket, call.now - c.window) + Copies(call.n, call.now),
                    log + Copies(call.n, call.now), call.now, t);
      } else {
        BucketTracksLog(c, before, key, t);
      }
    }
  }

  // ---------- main results ----------

  /** Call k is late: j has dropped what i left, and k reads a time less than a window
      away from i. */
  predicate Late(c: Config, calls: seq<Call>, key: string, i: int, j: int, k: int) {
    && i < j < k && Current(calls, key, i) && Current(calls, key, j) && Current(calls, key, k)
    && calls[i].now + c.window <= calls[j].now
    && Near(c, calls[i].now, calls[k].now)
  }

  /** Some span of the length of a window holds both times. */
  predicate Near(c: Config, x: int, y: int) { x < y + c.window && y < x + c.window }

  ghost predicate NoneLate(c: Config, calls: seq<Call>, key: string) {
    forall i, j, k :: !Late(c, calls, key, i, j, k)
  }

  /** A call that reads `t` would not be late. */
  ghost predicate InTime(c: Config, calls: seq<Call>, key: string, t: int) {
    forall i, j :: i < j && Current(calls, key, i) && Current(calls, key, j) && calls[i].now + c.window <= calls[j].now
                   ==> !Near(c, calls[i].now, t)
  }

  lemma {:induction false} LateBefore(c: Config, before: seq<Call>, call: Call, key: string, i: int, j: int)
    requires call != Call.Reset(key) && NoneLate(c, before + [call], key)
    ensures NoneLate(c, before, key)
    ensures call.AllowN? && call.key == key ==> InTime(c, before, key, call.now)
  {
    var calls := before + [call];
    AllCurrent(before, call, key);
    forall i, j, k ensures !Late(c, before, key, i, j, k) {
      assert !Late(c, calls, key, i, j, k);
    }
    if call.AllowN? && call.key == key {
      forall i, j | i < j && Current(before, key, i) && Current(before, key, j)
                    && before[i].now + c.window <= before[j].now
        ensures !Near(c, before[i].now, call.now)
      {
        assert !Late(c, calls, key, i, j, |before|);
      }
    }
  }

  /** Ordered readings are never late. */
  lemma {:induction false} OrderedNoneLate(c: Config, calls: seq<Call>, key: string)
    requires InOrder(calls, key)
    ensures NoneLate(c, calls, key)
  {
  }

  /** `x` is a reading of the key since its last Reset. */
  ghost predicate ReadAt(calls: seq<Call>, key: string, x: int) {
    exists i :: Current(calls, key, i) && calls[i].now == x
  }

  lemma {:induction false} ReadAtSnoc(before: seq<Call>, call: Call, key: string, x: int)
    requires call != Call.Reset(key)
    ensures ReadAt(before, key, x) ==> ReadAt(before + [call], key, x)
    ensures call.AllowN? && call.key == key && x == call.now ==> ReadAt(before + [call], key, x)
  {
    var calls := before + [call];
    if ReadAt(before, key, x) {
      var i :| Current(before, key, i) && before[i].now == x;
      CurrentSnoc(before, call, key, i);
      assert Current(calls, key, i) && calls[i].now == x;
    }
    if call.AllowN? && call.key == key && x == call.now {
      CurrentSnoc(before, call, key, |before|);
      assert calls[|before|] == call;
    }
  }

  lemma {:induction false} BucketReadings(c: Config, calls: seq<Call>, key: string)
    ensures forall x :: x in BucketOf(Run(c, calls), key) ==> ReadAt(calls, key, x)
  {
    if calls == [] || calls[|calls| - 1] == Call.Reset(key) {
    } else {
      var before, call := calls[..|calls| - 1], calls[|calls| - 1];
      assert calls == before + [call];
      BucketReadings(c, before, key);
      if call.AllowN? && call.key == key {
        LiveIsSublist(BucketOf(Run(c, before), key), call.now - c.window);
      }
      forall x | x in BucketOf(Run(c, calls), key)
        ensures ReadAt(calls, key, x)
      {
        ReadAtSnoc(before, call, key, x);
      }
    }
  }

  lemma {:induction false} WithinPruned(times: seq<int>, cutoff: int, a: int, b: int)
    requires forall x :: x in times && a < x <= b ==> x > cutoff
    ensures Within(Live(times, cutoff), a, b) == Within(times, a, b)
  {
    if times == [] {
    } else {
      var init, last := times[..|times| - 1], times[|times| - 1];
      assert last in times && forall x :: x in init ==> x in times;
      WithinPruned(init, cutoff, a, b);
      WithinConcat(Live(init, cutoff), if last > cutoff then [last] else [], a, b);
      assert [last][..0] == [];
    }
  }

  lemma {:induction false} WithinGrows(times: seq<int>, a: int, b: int, a': int, b': int)
    requires a' <= a && b <= b'
    ensures Within(times, a, b) <= Within(times, a', b')
  {
    if times == [] {
    } else {
      WithinGrows(times[..|times| - 1], a, b, a', b');
    }
  }

  /** Bucket and log count alike in every window that holds `t`. */
  ghost predicate SameCount(c: Config, calls: seq<Call>, key: string, t: int) {
    Within(Log(c, calls, key), t - c.window, t + c.window - 1)
    == Within(BucketOf(Run(c, calls), key), t - c.window, t + c.window - 1)
  }

  /** Around a time that is not late nothing was dropped. */
  lemma {:induction false} NothingDropped(c: Config, calls: seq<Call>, key: string, t: int)
    requires InTime(c, calls, key, t)
    ensures SameCount(c, calls, key, t)
  {
    if calls == [] || calls[|calls| - 1] == Call.Reset(key) {
    } else {
      var before, call := calls[..|calls| - 1], calls[|calls| - 1];
      assert calls == before + [call];
      InTimeBefore(c, before, call, key, t);
      NothingDropped(c, before, key, t);
      NextSameCount(c, before, call, key, t);
    }
  }

  lemma {:induction false} NextSameCount(c: Config, before: seq<Call>, call: Call, key: string, t: int)
    requires call != Call.Reset(key) && InTime(c, before + [call], key, t) && SameCount(c, before, key, t)
    ensures SameCount(c, before + [call], key, t)
  {
    InTimeBefore(c, before, call, key, t);
    NextDropsNothing(c, before, call, key, t - c.window, t + c.window - 1);
  }

  lemma {:induction false} NextDropsNothing(c: Config, before: seq<Call>, call: Call, key: string, a: int, b: int)
    requires call != Call.Reset(key)
    requires Within(Log(c, before, key), a, b) == Within(BucketOf(Run(c, before), key), a, b)
    requires call.AllowN? && call.key == key ==>
               forall x :: x in BucketOf(Run(c, before), key) && a < x <= b ==> x > call.now - c.window
    ensures Within(Log(c, before + [call], key), a, b) == Within(BucketOf(Run(c, before + [call]), key), a, b)
  {
    if call.AllowN? && call.key == key && Allows(c, Run(c, before), key, call.now, call.n) {
      AdmissionDropsNothing(c, before, call, a, b);
    } else {
      UnchangedNext(c, before, call, key);
    }
  }

  lemma {:induction false} AdmissionDropsNothing(c: Config, before: seq<Call>, call: Call, a: int, b: int)
    requires call.AllowN? && Allows(c, Run(c, before), call.key, call.now, call.n)
    requires Within(Log(c, before, call.key), a, b) == Within(BucketOf(Run(c, before), call.key), a, b)
    requires forall x :: x in BucketOf(Run(c, before), call.key) && a < x <= b ==> x > call.now - c.window
    ensures Within(Log(c, before + [call], call.key), a, b) == Within(BucketOf(Run(c, before + [call]), call.key), a, b)
  {
    AdmittedNext(c, before, call);
    PrunedAndLogged(BucketOf(Run(c, before), call.key), Log(c, before, call.key), Copies(call.n, call.now),
                    call.now - c.window, a, b);
  }

  lemma {:induction false} AdmittedNext(c: Config, before: seq<Call>, call: Call)
    requires call.AllowN? && Allows(c, Run(c, before), call.key, call.now, call.n)
    ensures BucketOf(Run(c, before + [call]), call.key)
            == Live(BucketOf(Run(c, before), call.key), call.now - c.window) + Copies(call.n, call.now)
    ensures Log(c, before + [call], call.key) == Log(c, before, call.key) + Copies(call.n, call.now)
  {
    assert (before + [call])[..|before|] == before;
  }

  lemma {:induction false} UnchangedNext(c: Config, before: seq<Call>, call: Call, key: string)
    requires call.AllowN? && call.key == key ==> !Allows(c, Run(c, before), key, call.now, call.n)
    requires call != Call.Reset(key)
    ensures BucketOf(Run(c, before + [call]), key) == BucketOf(Run(c, before), key)
    ensures Log(c, before + [call], key) == Log(c, before, key)
  {
    assert (before + [call])[..|before|] == before;
  }

  lemma {:induction false} PrunedAndLogged(bucket: seq<int>, log: seq<int>, added: seq<int>, cutoff: int, a: int,
                                           b: int)
    requires Within(log, a, b) == Within(bucket, a, b)
    requires forall x :: x in bucket && a < x <= b ==> x > cutoff
    ensures Within(log + added, a, b) == Within(Live(bucket, cutoff) + added, a, b)
  {
    WithinPruned(bucket, cutoff, a, b);
    WithinConcat(Live(bucket, cutoff), added, a, b);
    WithinConcat(log, added, a, b);
  }

  lemma {:induction false} InTimeBefore(c: Config, before: seq<Call>, call: Call, key: string, t: int)
    requires call != Call.Reset(key) && InTime(c, before + [call], key, t)
    ensures InTime(c, before, key, t)
    ensures call.AllowN? && call.key == key ==>
              forall x :: x in BucketOf(Run(c, before), key) && t - c.window < x <= t + c.window - 1 ==>
                x > call.now - c.window
  {
    var calls := before + [call];
    AllCurrent(before, call, key);
    if call.AllowN? && call.key == key {
      BucketReadings(c, before, key);
      forall x | x in BucketOf(Run(c, before), key) && t - c.window < x <= t + c.window - 1
        ensures x > call.now - c.window
      {
        var i :| Current(before, key, i) && before[i].now == x;
        assert Current(calls, key, i) && Current(calls, key, |before|);
      }
    }
  }

  /** The sliding-window theorem. At every instant `a` the requests admitted for a
      key with timestamp in (a, a + window] number at most `limit`, although only
      a pruned bucket is kept and the limit is checked only when calls arrive. */
  lemma {:induction false} AdmissionBound(c: Config, calls: seq<Call>, key: string, a: int)
    requires c.limit > 0 && NoneLate(c, calls, key)
    ensures Within(Log(c, calls, key), a, a + c.window) <= c.limit
  {
    if calls == [] || calls[|calls| - 1] == Call.Reset(key) {
    } else {
      var before, call := calls[..|calls| - 1], calls[|calls| - 1];
      assert calls == before + [call];
      LateBefore(c, before, call, key, 0, 0);
      AdmissionBound(c, before, key, a);
      if call.AllowN? && call.key == key && Allows(c, Run(c, before), key, call.now, call.n) {
        NothingDropped(c, before, key, call.now);
        AdmissionFits(c, BucketOf(Run(c, before), key), Log(c, before, key), call.now, call.n, a);
      }
    }
  }

  lemma {:induction false} AdmissionFits(c: Config, bucket: seq<int>, log: seq<int>, now: int, n: int, a: int)
    requires |Live(bucket, now - c.window)| + n <= c.limit
    requires Within(log, now - c.window, now + c.window - 1) == Within(bucket, now - c.window, now + c.window - 1)
    requires Within(log, a, a + c.window) <= c.limit
    ensures Within(log + Copies(n, now), a, a + c.window) <= c.limit
  {
    WithinConcat(log, Copies(n, now), a, a + c.window);
    WithinCopies(n, now, a, a + c.window);
    if a < now <= a + c.window {
      WithinGrows(log, a, a + c.window, now - c.window, now + c.window - 1);
      WithinLive(bucket, now - c.window, now - c.window, now + c.window - 1);
    }
  }

  /** A call is admitted exactly when the full history leaves room for it: the
      admissions in (now - window, now] plus n do not exceed the limit. What is
      left before the call is never negative. */
  lemma {:induction false} DecisionMatchesHistory(c: Config, calls: seq<Call>, key: string, now: int, n: int)
    requires c.limit > 0 && InOrder(calls, key) && ReadBy(calls, key, now)
    ensures Allows(c, Run(c, calls), key, now, n)
            <==> Within(Log(c, calls, key), now - c.window, now) + n <= c.limit
    ensures |Live(BucketOf(Run(c, calls), key), now - c.window)| == Within(Log(c, calls, key), now - c.window, now)
    ensures 0 <= c.limit - Within(Log(c, calls, key), now - c.window, now) <= c.limit
  {
    BucketTracksLog(c, calls, key, now);
    WithinLive(Log(c, calls, key), now - c.window, now - c.window, now);
    LiveIsSublist(BucketOf(Run(c, calls), key), now - c.window);
  }

  /** When a single request is rejected, the bucket is full of live entries, and
      the oldest one, though the bucket was not pruned, fixes the first instant
      at which a request is admitted again. */
  lemma {:induction false} FirstAdmission(c: Config, calls: seq<Call>, key: string, now: int, t: int)
    requires c.limit > 0 && InOrder(calls, key) && ReadBy(calls, key, now) && now <= t
    requires !Allows(c, Run(c, calls), key, now, 1)
    ensures var bucket := BucketOf(Run(c, calls), key);
            && bucket != []
            && now < bucket[0] + c.window <= now + c.window
            && (Allows(c, Run(c, calls), key, t, 1) <==> bucket[0] + c.window <= t)
  {
    var bucket := BucketOf(Run(c, calls), key);
    BucketTracksLog(c, calls, key, now);
    LiveIsSublist(bucket, now - c.window);
    LiveIsSublist(bucket, t - c.window);
    assert |Live(bucket, now - c.window)| == |bucket|;
    assert bucket[0] in bucket;
  }

  /** A bucket never holds more than the limit, in whatever order the readings come. */
  lemma {:induction false} BucketWithinLimit(c: Config, calls: seq<Call>, key: string)
    requires c.limit > 0
    ensures |BucketOf(Run(c, calls), key)| <= c.limit
  {
    if calls == [] {
    } else {
      var before, call := calls[..|calls| - 1], calls[|calls| - 1];
      assert calls == before + [call];
      BucketWithinLimit(c, before, key);
      if call == Call.Reset(key) {
      } else if call.AllowN? && call.key == key && Allows(c, Run(c, before), key, call.now, call.n) {
        LiveIsSublist(BucketOf(Run(c, before), key), call.now - c.window);
        AdmittedNext(c, before, call);
      } else {
        UnchangedNext(c, before, call, key);
      }
    }
  }

  /** The calls that concern one key. */
  function Only(calls: seq<Call>, key: string): seq<Call> {
    if calls == [] then []
    else
      var call := calls[|calls| - 1];
      Only(calls[..|calls| - 1], key) + if call.key == key then [call] else []
  }

  /** Keys do not share quota: a key is admitted as if no other key existed. */
  lemma {:induction false} KeysAreIndependent(c: Config, calls: seq<Call>, key: string)
    ensures BucketOf(Run(c, calls), key) == BucketOf(Run(c, Only(calls, key)), key)
    ensures Log(c, calls, key) == Log(c, Only(calls, key), key)
  {
    if calls == [] {
    } else {
      var before, call := calls[..|calls| - 1], calls[|calls| - 1];
      assert calls == before + [call];
      KeysAreIndependent(c, before, key);
      if call.key == key {
        OwnCall(c, before, Only(before, key), call);
      } else {
        UnchangedNext(c, before, call, key);
        assert Only(calls, key) == Only(before, key);
      }
    }
  }

  lemma {:induction false} OwnCall(c: Config, before: seq<Call>, only: seq<Call>, call: Call)
    requires BucketOf(Run(c, before), call.key) == BucketOf(Run(c, only), call.key)
    requires Log(c, before, call.key) == Log(c, only, call.key)
    ensures BucketOf(Run(c, before + [call]), call.key) == BucketOf(Run(c, only + [call]), call.key)
    ensures Log(c, before + [call], call.key) == Log(c, only + [call], call.key)
  {
    assert (before + [call])[..|before|] == before;
    assert (only + [call])[..|only|] == only;
  }

  // ---------- the condition on the readings is exact ----------

  ghost predicate Bounded(c: Config, calls: seq<Call>, key: string) {
    forall a :: CountAfter(c, Log(c, calls, key), a) <= c.limit
  }

  /** How many of `times` lie in the window after `a`. */
  ghost function CountAfter(c: Config, times: seq<int>, a: int): nat { Within(times, a, a + c.window) }

  lemma {:induction false} SameNoneLate(c: Config, calls: seq<Call>, other: seq<Call>, key: string)
    requires SameReadings(calls, other) && NoneLate(c, calls, key)
    ensures NoneLate(c, other, key)
  {
    forall x | 0 <= x < |calls| ensures SameReading(other[x], calls[x]) {
      assert SameReading(calls[x], other[x]);
    }
    SameCurrent(other, calls, key);
    forall i, j, k ensures !Late(c, other, key, i, j, k) {
      assert !Late(c, calls, key, i, j, k);
    }
  }

  /** The same calls, of which i and k ask for the whole limit and all others for nothing. */
  function Burst(calls: seq<Call>, limit: int, i: int, k: int): seq<Call> {
    seq(|calls|, x requires 0 <= x < |calls| =>
      if calls[x].Reset? then calls[x] else AllowN(calls[x].key, calls[x].now, if x == i || x == k then limit else 0))
  }

  lemma {:induction false} LiveCopies(n: int, t: int, cutoff: int)
    ensures Live(Copies(n, t), cutoff) == if t > cutoff then Copies(n, t) else []
  {
    if n <= 0 {
    } else {
      assert Copies(n, t)[..n - 1] == Copies(n - 1, t);
      LiveCopies(n - 1, t, cutoff);
    }
  }

  lemma {:induction false} FullOrEmpty(c: Config, was: seq<int>, t: int, cutoff: int)
    requires c.limit > 0 && (was == [] || was == Copies(c.limit, t))
    ensures |Live(was, cutoff)| <= c.limit && (Live(was, cutoff) == [] || Live(was, cutoff) == was)
    ensures t <= cutoff ==> Live(was, cutoff) == []
  {
    LiveCopies(c.limit, t, cutoff);
  }

  lemma {:induction false} NothingLogged(c: Config, before: seq<Call>, call: Call, key: string)
    requires call != Call.Reset(key) && (call.AllowN? ==> call.n == 0)
    ensures Log(c, before + [call], key) == Log(c, before, key)
  {
    assert (before + [call])[..|before|] == before;
    if call.AllowN? {
      assert Copies(0, call.now) == [];
    }
  }

  /** A call that asks for nothing adds nothing. It may drop what it finds, and does if
      that is a window old. */
  lemma {:induction false} EmptyCall(c: Config, before: seq<Call>, call: Call, key: string, t: int)
    requires c.limit > 0 && call != Call.Reset(key) && (call.AllowN? ==> call.n == 0)
    requires var bucket := BucketOf(Run(c, before), key); bucket == [] || bucket == Copies(c.limit, t)
    ensures var was, bucket := BucketOf(Run(c, before), key), BucketOf(Run(c, before + [call]), key);
            && (bucket == [] || bucket == was)
            && (call.AllowN? && call.key == key && t + c.window <= call.now ==> bucket == [])
  {
    if call.AllowN? && call.key == key {
      FullOrEmpty(c, BucketOf(Run(c, before), key), t, call.now - c.window);
      EmptyOwnCall(c, before, key, call.now);
    } else {
      UnchangedNext(c, before, call, key);
    }
  }

  lemma {:induction false} EmptyOwnCall(c: Config, before: seq<Call>, key: string, now: int)
    requires |Live(BucketOf(Run(c, before), key), now - c.window)| <= c.limit
    ensures BucketOf(Run(c, before + [AllowN(key, now, 0)]), key) == Live(BucketOf(Run(c, before), key), now - c.window)
  {
    AdmittedNext(c, before, AllowN(key, now, 0));
    assert Copies(0, now) == [];
  }

  /** A call for the whole limit on an empty bucket. */
  lemma {:induction false} FullCall(c: Config, before: seq<Call>, key: string, now: int)
    requires BucketOf(Run(c, before), key) == []
    ensures var calls := before + [AllowN(key, now, c.limit)];
            && BucketOf(Run(c, calls), key) == Copies(c.limit, now)
            && Log(c, calls, key) == Log(c, before, key) + Copies(c.limit, now)
  {
    var call := AllowN(key, now, c.limit);
    assert (before + [call])[..|before|] == before;
    assert Live([], now - c.window) == [];
    assert [] + Copies(c.limit, now) == Copies(c.limit, now);
  }

  lemma {:induction false} BurstSnoc(calls: seq<Call>, limit: int, i: int, k: int, p: nat)
    requires 0 < p <= |calls|
    ensures Burst(calls, limit, i, k)[..p] == Burst(calls, limit, i, k)[..p - 1] + [Burst(calls, limit, i, k)[p - 1]]
  {
  }

  lemma {:induction false} QuietCall(calls: seq<Call>, key: string, limit: int, i: int, k: int, x: int)
    requires Since(calls, key) <= x < |calls| && x != i && x != k
    ensures var call := Burst(calls, limit, i, k)[x];
            call != Call.Reset(key) && SameReading(calls[x], call) && (call.AllowN? ==> call.n == 0)
  {
    NoResetSince(calls, key, x);
  }

  /** Before call i nothing is held. */
  lemma {:induction false} BurstStart(c: Config, calls: seq<Call>, key: string, i: int, k: int, p: nat)
    requires c.limit > 0 && p <= |calls| && p <= i < k
    ensures var run := Burst(calls, c.limit, i, k)[..p];
            BucketOf(Run(c, run), key) == [] && Log(c, run, key) == []
  {
    var burst := Burst(calls, c.limit, i, k);
    if p == 0 {
    } else {
      BurstStart(c, calls, key, i, k, p - 1);
      BurstSnoc(calls, c.limit, i, k, p);
      if burst[p - 1] != Call.Reset(key) {
        EmptyCall(c, burst[..p - 1], burst[p - 1], key, 0);
        NothingLogged(c, burst[..p - 1], burst[p - 1], key);
      } else {
        assert burst[..p][..p - 1] == burst[..p - 1];
      }
    }
  }

  /** From i on its grant is on record; once j was there the bucket is empty. */
  ghost predicate GrantOnRecord(c: Config, run: seq<Call>, key: string, t: int, dropped: bool) {
    var bucket := BucketOf(Run(c, run), key);
    && Log(c, run, key) == Copies(c.limit, t)
    && (bucket == [] || (!dropped && bucket == Copies(c.limit, t)))
  }

  lemma {:induction false} BurstBetween(c: Config, calls: seq<Call>, key: string, i: int, j: int, k: int, p: nat)
    requires c.limit > 0 && Late(c, calls, key, i, j, k) && i < p <= k
    ensures GrantOnRecord(c, Burst(calls, c.limit, i, k)[..p], key, calls[i].now, j < p)
  {
    var burst := Burst(calls, c.limit, i, k);
    BurstSnoc(calls, c.limit, i, k, p);
    if p == i + 1 {
      BurstStart(c, calls, key, i, k, i);
      FullCall(c, burst[..i], key, calls[i].now);
      assert [] + Copies(c.limit, calls[i].now) == Copies(c.limit, calls[i].now);
    } else {
      BurstBetween(c, calls, key, i, j, k, p - 1);
      QuietCall(calls, key, c.limit, i, k, p - 1);
      StaysOnRecord(c, burst[..p - 1], burst[p - 1], key, calls[i].now, j < p - 1);
    }
  }

  lemma {:induction false} StaysOnRecord(c: Config, before: seq<Call>, call: Call, key: string, t: int, dropped: bool)
    requires c.limit > 0 && call != Call.Reset(key) && (call.AllowN? ==> call.n == 0)
    requires GrantOnRecord(c, before, key, t, dropped)
    ensures var drops := call.AllowN? && call.key == key && t + c.window <= call.now;
            GrantOnRecord(c, before + [call], key, t, dropped || drops)
  {
    EmptyCall(c, before, call, key, t);
    NothingLogged(c, before, call, key);
  }

  lemma {:induction false} BurstEnd(c: Config, calls: seq<Call>, key: string, i: int, j: int, k: int, p: nat)
    requires c.limit > 0 && Late(c, calls, key, i, j, k) && k < p <= |calls|
    ensures Log(c, Burst(calls, c.limit, i, k)[..p], key)
            == Copies(c.limit, calls[i].now) + Copies(c.limit, calls[k].now)
  {
    var burst := Burst(calls, c.limit, i, k);
    BurstSnoc(calls, c.limit, i, k, p);
    if p == k + 1 {
      BurstBetween(c, calls, key, i, j, k, k);
      FullCall(c, burst[..k], key, calls[k].now);
    } else {
      BurstEnd(c, calls, key, i, j, k, p - 1);
      QuietCall(calls, key, c.limit, i, k, p - 1);
      assert burst[..p][..p - 1] == burst[..p - 1];
      NothingLogged(c, burst[..p - 1], burst[p - 1], key);
    }
  }

  /** Readings are taken before the lock, so a late reader may enter with an early
      reading. Wherever that makes a call late, some amounts asked for by the same calls
      let twice the limit into one window. */
  lemma {:induction false} OutOfOrderReadingsBreakBound(c: Config, calls: seq<Call>, key: string, i: int, j: int,
                                                        k: int)
    requires c.limit > 0 && Late(c, calls, key, i, j, k)
    ensures var burst := Burst(calls, c.limit, i, k);
            var x, y := calls[i].now, calls[k].now;
            var a := (if x < y then y else x) - c.window;
            SameReadings(calls, burst) && Within(Log(c, burst, key), a, a + c.window) == 2 * c.limit
  {
    var burst := Burst(calls, c.limit, i, k);
    BurstSame(calls, c.limit, i, k);
    BurstEnd(c, calls, key, i, j, k, |calls|);
    assert burst[..|calls|] == burst;
    TwoBursts(c, calls[i].now, calls[k].now);
  }

  lemma {:induction false} BurstSame(calls: seq<Call>, limit: int, i: int, k: int)
    ensures SameReadings(calls, Burst(calls, limit, i, k))
  {
  }

  lemma {:induction false} TwoBursts(c: Config, x: int, y: int)
    requires c.limit > 0 && Near(c, x, y)
    ensures var a := (if x < y then y else x) - c.window;
            Within(Copies(c.limit, x) + Copies(c.limit, y), a, a + c.window) == 2 * c.limit
  {
    var a := (if x < y then y else x) - c.window;
    WithinConcat(Copies(c.limit, x), Copies(c.limit, y), a, a + c.window);
    WithinCopies(c.limit, x, a, a + c.window);
    WithinCopies(c.limit, y, a, a + c.window);
  }

  /** The bound holds, whatever the calls ask for, if and only if no reading is late. */
  lemma {:induction false} BoundedExactly(c: Config, calls: seq<Call>, key: string)
    requires c.limit > 0
    ensures (forall other :: SameReadings(calls, other) ==> Bounded(c, other, key)) <==> NoneLate(c, calls, key)
  {
    if NoneLate(c, calls, key) {
      forall other | SameReadings(calls, other)
        ensures Bounded(c, other, key)
      {
        SameNoneLate(c, calls, other, key);
        forall a ensures CountAfter(c, Log(c, other, key), a) <= c.limit {
          AdmissionBound(c, other, key, a);
        }
      }
    } else {
      var i, j, k :| Late(c, calls, key, i, j, k);
      OutOfOrderReadingsBreakBound(c, calls, key, i, j, k);
      var x, y := calls[i].now, calls[k].now;
      assert CountAfter(c, Log(c, Burst(calls, c.limit, i, k), key), (if x < y then y else x) - c.window) > c.limit;
    }
  }

  // ---------- the limiter ----------

  /** What the full history leaves of the limit. */
  ghost function Room(c: Config, calls: seq<Call>, key: string, now: int): int {
    c.limit - Within(Log(c, calls, key), now - c.window, now)
  }

  lemma {:induction false} RoomInOrder(c: Config, calls: seq<Call>, key: string, now: int)
    requires c.limit > 0
    ensures InOrder(calls, key) && ReadBy(calls, key, now)
            ==> Room(c, calls, key, now) == c.limit - |Live(BucketOf(Run(c, calls), key), now - c.window)|
  {
    if InOrder(calls, key) && ReadBy(calls, key, now) {
      DecisionMatchesHistory(c, calls, key, now, 0);
    }
  }

  /** What an answer owes the full history of its key. In any order, a call is admitted if
      all logged times after now - window leave room for it; and only then, unless one of
      them was dropped by a later reading. If the readings came in order those times are the
      ones in (now - window, now]. */
  ghost predicate MeetsHistory(c: Config, calls: seq<Call>, key: string, now: int, n: int, ok: bool) {
    var live := |Live(Log(c, calls, key), now - c.window)|;
    && (live + n <= c.limit ==> ok)
    && (NoneForgotten(c, calls, key, now) ==> (ok <==> live + n <= c.limit))
    && (InOrder(calls, key) && ReadBy(calls, key, now) ==>
          NoneForgotten(c, calls, key, now) && live == Within(Log(c, calls, key), now - c.window, now))
  }

  /** Whatever a later reading has dropped is no longer live at `now` either. */
  ghost predicate NoneForgotten(c: Config, calls: seq<Call>, key: string, now: int) {
    forall i, j :: i < j && Current(calls, key, i) && Current(calls, key, j) && calls[i].now + c.window <= calls[j].now
                   ==> calls[i].now <= now - c.window
  }

  lemma {:induction false} VerdictMeetsHistory(c: Config, calls: seq<Call>, key: string, now: int, n: int)
    requires c.limit > 0
    ensures MeetsHistory(c, calls, key, now, n, Allows(c, Run(c, calls), key, now, n))
  {
    BucketWithinLog(c, calls, key, now - c.window);
    if NoneForgotten(c, calls, key, now) {
      NothingForgotten(c, calls, key, now);
    }
    if InOrder(calls, key) && ReadBy(calls, key, now) {
      BucketTracksLog(c, calls, key, now);
      WithinLive(Log(c, calls, key), now - c.window, now - c.window, now);
    }
  }

  lemma {:induction false} LiveTwiceStep(times: seq<int>, cut: int, cutoff: int)
    requires times != []
    ensures var init, last := times[..|times| - 1], times[|times| - 1];
            Live(Live(times, cut), cutoff)
            == Live(Live(init, cut), cutoff) + if last > cut && last > cutoff then [last] else []
  {
    var init, last := times[..|times| - 1], times[|times| - 1];
    LiveConcat(Live(init, cut), if last > cut then [last] else [], cutoff);
    LiveOne(last, cut, cutoff);
  }

  lemma {:induction false} LiveShrinks(times: seq<int>, cut: int, cutoff: int)
    ensures |Live(Live(times, cut), cutoff)| <= |Live(times, cutoff)|
  {
    if times == [] {
    } else {
      LiveShrinks(times[..|times| - 1], cut, cutoff);
      LiveTwiceStep(times, cut, cutoff);
    }
  }

  lemma {:induction false} LiveSame(times: seq<int>, cut: int, cutoff: int)
    requires forall x :: x in times && x <= cut ==> x <= cutoff
    ensures Live(Live(times, cut), cutoff) == Live(times, cutoff)
  {
    if times == [] {
    } else {
      var init, last := times[..|times| - 1], times[|times| - 1];
      assert last in times && forall x :: x in init ==> x in times;
      LiveSame(init, cut, cutoff);
      LiveTwiceStep(times, cut, cutoff);
    }
  }

  lemma {:induction false} LiveOne(x: int, cut: int, cutoff: int)
    ensures Live(if x > cut then [x] else [], cutoff) == if x > cut && x > cutoff then [x] else []
  {
    assert [x][..0] == [];
  }

  /** In any order, no more is live in the bucket than in the log. */
  lemma {:induction false} BucketWithinLog(c: Config, calls: seq<Call>, key: string, cutoff: int)
    ensures |Live(BucketOf(Run(c, calls), key), cutoff)| <= |Live(Log(c, calls, key), cutoff)|
  {
    if calls == [] || calls[|calls| - 1] == Call.Reset(key) {
    } else {
      var before, call := calls[..|calls| - 1], calls[|calls| - 1];
      assert calls == before + [call];
      BucketWithinLog(c, before, key, cutoff);
      if call.AllowN? && call.key == key && Allows(c, Run(c, before), key, call.now, call.n) {
        AdmittedNext(c, before, call);
        PrunedWithinLogged(BucketOf(Run(c, before), key), Log(c, before, key), Copies(call.n, call.now),
                           call.now - c.window, cutoff);
      } else {
        UnchangedNext(c, before, call, key);
      }
    }
  }

  lemma {:induction false} PrunedWithinLogged(bucket: seq<int>, log: seq<int>, added: seq<int>, cut: int, cutoff: int)
    requires |Live(bucket, cutoff)| <= |Live(log, cutoff)|
    ensures |Live(Live(bucket, cut) + added, cutoff)| <= |Live(log + added, cutoff)|
  {
    LiveShrinks(bucket, cut, cutoff);
    LiveConcat(Live(bucket, cut), added, cutoff);
    LiveConcat(log, added, cutoff);
  }

  /** Bucket and log agree on what is live at `now`. */
  ghost predicate SameLive(c: Config, calls: seq<Call>, key: string, now: int) {
    Live(BucketOf(Run(c, calls), key), now - c.window) == Live(Log(c, calls, key), now - c.window)
  }

  /** If nothing live was dropped, they do. */
  lemma {:induction false} NothingForgotten(c: Config, calls: seq<Call>, key: string, now: int)
    requires NoneForgotten(c, calls, key, now)
    ensures SameLive(c, calls, key, now)
  {
    if calls == [] || calls[|calls| - 1] == Call.Reset(key) {
    } else {
      var before, call := calls[..|calls| - 1], calls[|calls| - 1];
      assert calls == before + [call];
      ForgottenBefore(c, before, call, key, now);
      NothingForgotten(c, before, key, now);
      SameLiveNext(c, before, call, key, now);
    }
  }

  lemma {:induction false} SameLiveNext(c: Config, before: seq<Call>, call: Call, key: string, now: int)
    requires call != Call.Reset(key) && NoneForgotten(c, before + [call], key, now) && SameLive(c, before, key, now)
    ensures SameLive(c, before + [call], key, now)
  {
    ForgottenBefore(c, before, call, key, now);
    NextSameLive(c, before, call, key, now - c.window);
  }

  lemma {:induction false} NextSameLive(c: Config, before: seq<Call>, call: Call, key: string, cutoff: int)
    requires call != Call.Reset(key)
    requires Live(BucketOf(Run(c, before), key), cutoff) == Live(Log(c, before, key), cutoff)
    requires call.AllowN? && call.key == key ==>
               forall x :: x in BucketOf(Run(c, before), key) && x <= call.now - c.window ==> x <= cutoff
    ensures Live(BucketOf(Run(c, before + [call]), key), cutoff) == Live(Log(c, before + [call], key), cutoff)
  {
    if call.AllowN? && call.key == key && Allows(c, Run(c, before), key, call.now, call.n) {
      AdmissionSameLive(c, before, call, cutoff);
    } else {
      UnchangedNext(c, before, call, key);
    }
  }

  lemma {:induction false} AdmissionSameLive(c: Config, before: seq<Call>, call: Call, cutoff: int)
    requires call.AllowN? && Allows(c, Run(c, before), call.key, call.now, call.n)
    requires Live(BucketOf(Run(c, before), call.key), cutoff) == Live(Log(c, before, call.key), cutoff)
    requires forall x :: x in BucketOf(Run(c, before), call.key) && x <= call.now - c.window ==> x <= cutoff
    ensures Live(BucketOf(Run(c, before + [call]), call.key), cutoff) == Live(Log(c, before + [call], call.key), cutoff)
  {
    AdmittedNext(c, before, call);
    PrunedSameLive(BucketOf(Run(c, before), call.key), Log(c, before, call.key), Copies(call.n, call.now),
                   call.now - c.window, cutoff);
  }

  lemma {:induction false} PrunedSameLive(bucket: seq<int>, log: seq<int>, added: seq<int>, cut: int, cutoff: int)
    requires Live(bucket, cutoff) == Live(log, cutoff) && forall x :: x in bucket && x <= cut ==> x <= cutoff
    ensures Live(Live(bucket, cut) + added, cutoff) == Live(log + added, cutoff)
  {
    LiveSame(bucket, cut, cutoff);
    LiveConcat(Live(bucket, cut), added, cutoff);
    LiveConcat(log, added, cutoff);
  }

  lemma {:induction false} ForgottenBefore(c: Config, before: seq<Call>, call: Call, key: string, now: int)
    requires call != Call.Reset(key) && NoneForgotten(c, before + [call], key, now)
    ensures NoneForgotten(c, before, key, now)
    ensures call.AllowN? && call.key == key ==>
              forall x :: x in BucketOf(Run(c, before), key) && x <= call.now - c.window ==> x <= now - c.window
  {
    var calls := before + [call];
    AllCurrent(before, call, key);
    if call.AllowN? && call.key == key {
      BucketReadings(c, before, key);
      forall x | x in BucketOf(Run(c, before), key) && x <= call.now - c.window
        ensures x <= now - c.window
      {
        var i :| Current(before, key, i) && before[i].now == x;
        assert Current(calls, key, i) && Current(calls, key, |before|);
      }
    }
  }

  lemma {:induction false} RunSnoc(c: Config, calls: seq<Call>, call: Call)
    ensures Run(c, calls + [call]) == After(c, Run(c, calls), call)
    ensures call.Reset? ==> Log(c, calls + [call], call.key) == []
  {
    assert (calls + [call])[..|calls|] == calls;
  }

  class SlidingWindowLimiter {
    const limit: int
    const window: int
    var buckets: Buckets
    ghost var calls: seq<Call>

    ghost function Cfg(): Config { Config(limit, window) }

    ghost predicate Valid()
      reads this
    {
      limit > 0 && buckets == Run(Cfg(), calls)
    }

    constructor (limit: int, window: int)
      ensures Valid() && calls == []
      ensures this.limit == if limit <= 0 then 60 else limit
      ensures this.window == if window == 0 then MINUTE else window
    {
      this.limit := if limit <= 0 then 60 else limit;
      this.window := if window == 0 then MINUTE else window;
      buckets := map[];
      calls := [];
    }

    method AllowN(key: string, now: int, n: int) returns (ok: bool)
      requires Valid()
      modifies this
      ensures Valid() && calls == old(calls) + [Call.AllowN(key, now, n)]
      ensures ok == Allows(Cfg(), old(buckets), key, now, n)
      ensures !ok ==> buckets == old(buckets)
      ensures MeetsHistory(Cfg(), old(calls), key, now, n, ok)
    {
      VerdictMeetsHistory(Cfg(), calls, key, now, n);
      Record(Call.AllowN(key, now, n));
      ok := Admit(key, now, n);
    }

    ghost method Record(call: Call)
      requires Valid()
      modifies this`calls
      ensures calls == old(calls) + [call]
      ensures Run(Cfg(), calls) == After(Cfg(), buckets, call)
      ensures call.Reset? ==> Log(Cfg(), calls, call.key) == []
    {
      RunSnoc(Cfg(), calls, call);
      calls := calls + [call];
    }

    /** The critical section. */
    method Admit(key: string, now: int, n: int) returns (ok: bool)
      modifies this`buckets
      ensures ok == Allows(Cfg(), old(buckets), key, now, n)
      ensures buckets == After(Cfg(), old(buckets), Call.AllowN(key, now, n))
    {
      var cutoff := now - window;
      var bucket := if key in buckets then buckets[key] else [];
      var valid := Prune(bucket, cutoff);
      if |valid| + n > limit {
        return false;
      }
      valid := AppendCopies(valid, n, now);
      buckets := buckets[key := valid];
      return true;
    }

    method Prune(bucket: seq<int>, cutoff: int) returns (valid: seq<int>)
      ensures valid == Live(bucket, cutoff)
    {
      valid := [];
      for i := 0 to |bucket|
        invariant valid == Live(bucket[..i], cutoff)
      {
        assert bucket[..i + 1][..i] == bucket[..i];
        if bucket[i] > cutoff {
          valid := valid + [bucket[i]];
        }
      }
      assert bucket[..|bucket|] == bucket;
    }

    method AppendCopies(bucket: seq<int>, n: int, now: int) returns (longer: seq<int>)
      ensures longer == bucket + Copies(n, now)
    {
      longer := bucket;
      var i := 0;
      while i < n
        invariant 0 <= i && (i <= n || i == 0)
        invariant longer == bucket + Copies(i, now)
      {
        longer := longer + [now];
        i := i + 1;
      }
      assert Copies(i, now) == Copies(n, now);
    }

    /** Waits on one key. `first` is the reading of the attempt, `second` the
        reading taken after it failed; no other call comes between the two. For a
        rejected caller `free` is the first instant at which one request gets in,
        and the answer is the time still left until then: with a single reading
        it is positive, at most the window, and neither too long nor too short. */
    method Wait(key: string, first: int, second: int) returns (d: int, ghost free: int)
      requires Valid() && first <= second
      modifies this
      ensures Valid() && calls == old(calls) + [Call.AllowN(key, first, 1)]
      ensures Allows(Cfg(), old(buckets), key, first, 1) ==> d == 0
      ensures !Allows(Cfg(), old(buckets), key, first, 1) ==> buckets == old(buckets)
      ensures !Allows(Cfg(), old(buckets), key, first, 1)
              && InOrder(old(calls), key) && ReadBy(old(calls), key, first) ==>
                && first < free <= first + window
                && (forall t :: first <= t ==> (Allows(Cfg(), buckets, key, t, 1) <==> free <= t))
                && d == if second < free then free - second else 0
    {
      var ok := AllowN(key, first, 1);
      free := first;
      if ok {
        return 0, free;
      }
      if InOrder(old(calls), key) && ReadBy(old(calls), key, first) {
        FirstAdmission(Cfg(), old(calls), key, first, first);
        free := BucketOf(buckets, key)[0] + window;
        forall t | first <= t
          ensures Allows(Cfg(), buckets, key, t, 1) <==> free <= t
        {
          FirstAdmission(Cfg(), old(calls), key, first, t);
        }
      }
      var bucket := if key in buckets then buckets[key] else [];
      if |bucket| > 0 {
        var available := bucket[0] + window;
        if available > second {
          return available - second, free;
        }
      }
      return 0, free;
    }

    method Reset(key: string)
      requires Valid()
      modifies this
      ensures Valid() && calls == old(calls) + [Call.Reset(key)]
      ensures buckets == old(buckets) - {key}
      ensures Log(Cfg(), calls, key) == []
    {
      Record(Call.Reset(key));
      buckets := buckets - {key};
    }

    /** Room left at `now`: the limit less the admissions in (now - window, now],
        and never negative. */
    method Stats(key: string, now: int) returns (available: int)
      requires Valid()
      ensures available == limit - |Live(BucketOf(buckets, key), now - window)|
      ensures InOrder(calls, key) && ReadBy(calls, key, now) ==>
                available == Room(Cfg(), calls, key, now)
      ensures 0 <= available <= limit
    {
      BucketWithinLimit(Cfg(), calls, key);
      LiveIsSublist(BucketOf(buckets, key), now - window);
      RoomInOrder(Cfg(), calls, key, now);
      if key !in buckets {
        return limit;
      }
      var bucket := buckets[key];
      var cutoff := now - window;
      var validCount := CountLive(bucket, cutoff);
      return limit - validCount;
    }

    method CountLive(bucket: seq<int>, cutoff: int) returns (validCount: nat)
      ensures validCount == |Live(bucket, cutoff)|
    {
      validCount := 0;
      for i := 0 to |bucket|
        invariant validCount == |Live(bucket[..i], cutoff)|
      {
        assert bucket[..i + 1][..i] == bucket[..i];
        if bucket[i] > cutoff {
          validCount := validCount + 1;
        }
      }
      assert bucket[..|bucket|] == bucket;
    }
  }
}
