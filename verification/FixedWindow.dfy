/** The fixed-window rate limiter: one counter per key for the current aligned
    window, and what that bounds over the whole admission history. */
module FixedWindow {
  import opened Division
  import opened LimiterCalls

  datatype Config = Config(limit: int, window: int) {
    predicate Usable() { limit > 0 && window > 0 }
  }

  datatype Counter = Counter(start: int, count: int, rejected: int)

  type Windows = map<string, Counter>

  /** `n` requests at time `now`. */
  datatype Grant = Grant(now: int, n: int)

  // ---------- one call ----------

  /** The start of the aligned window that contains `t`. */
  function Truncate(t: int, window: int): (start: int)
    requires window > 0
    ensures start <= t < start + window
  {
    t - t % window
  }

  predicate FreshWindow(c: Config, windows: Windows, key: string, now: int)
    requires c.Usable()
  {
    key !in windows || windows[key].start != Truncate(now, c.window)
  }

  predicate Allows(c: Config, windows: Windows, key: string, now: int, n: int)
    requires c.Usable()
  {
    n <= 0 || (n <= c.limit && (FreshWindow(c, windows, key, now) || windows[key].count + n <= c.limit))
  }

  function After(c: Config, windows: Windows, call: Call): Windows
    requires c.Usable()
  {
    match call
    case AllowN(key, now, n) =>
      if n <= 0 || n > c.limit then windows
      else if FreshWindow(c, windows, key, now) then windows[key := Counter(Truncate(now, c.window), n, 0)]
      else if windows[key].count + n > c.limit then
        windows[key := windows[key].(rejected := windows[key].rejected + 1)]
      else windows[key := windows[key].(count := windows[key].count + n)]
    case Reset(key) => windows - {key}
  }

  // ---------- whole runs ----------

  function Run(c: Config, calls: seq<Call>): Windows
    requires c.Usable()
  {
    if calls == [] then map[]
    else After(c, Run(c, calls[..|calls| - 1]), calls[|calls| - 1])
  }

  /** Everything granted to `key` since its last Reset. */
  function Log(c: Config, calls: seq<Call>, key: string): seq<Grant>
    requires c.Usable()
  {
    if calls == [] then []
    else
      var before := calls[..|calls| - 1];
      match calls[|calls| - 1]
      case AllowN(k, now, n) =>
        if k == key && n > 0 && Allows(c, Run(c, before), k, now, n)
        then Log(c, before, key) + [Grant(now, n)]
        else Log(c, before, key)
      case Reset(k) => if k == key then [] else Log(c, before, key)
  }

  /** The calls for `key` turned away since its last Reset, one unit each. A call
      for more than the limit is not among them. */
  function Refusals(c: Config, calls: seq<Call>, key: string): seq<Grant>
    requires c.Usable()
  {
    if calls == [] then []
    else
      var before := calls[..|calls| - 1];
      match calls[|calls| - 1]
      case AllowN(k, now, n) =>
        if k == key && n <= c.limit && !Allows(c, Run(c, before), k, now, n)
        then Refusals(c, before, key) + [Grant(now, 1)]
        else Refusals(c, before, key)
      case Reset(k) => if k == key then [] else Refusals(c, before, key)
  }

  /** The units of `log` whose time lies in the closed span [from, until]. */
  function Total(log: seq<Grant>, from: int, until: int): int {
    if log == [] then 0
    else
      var g := log[|log| - 1];
      Total(log[..|log| - 1], from, until) + if from <= g.now <= until then g.n else 0
  }

  // ---------- readings ----------

  /** Calls for nothing, or for more than the limit, never read the clock. */
  predicate ReadsClock(c: Config, call: Call) { call.AllowN? && 0 < call.n <= c.limit }

  /** Call x reads the clock for the key, which was not reset since. */
  predicate Reading(c: Config, calls: seq<Call>, key: string, x: int) {
    Current(calls, key, x) && ReadsClock(c, calls[x])
  }

  lemma {:induction false} ReadingSnoc(c: Config, before: seq<Call>, call: Call, key: string, x: int)
    ensures Reading(c, before + [call], key, x)
            <==> if x == |before| then call.AllowN? && call.key == key && ReadsClock(c, call)
                 else call != Call.Reset(key) && Reading(c, before, key, x)
    ensures 0 <= x < |before| ==> (before + [call])[x] == before[x]
  {
    CurrentSnoc(before, call, key, x);
  }

  /** Call k reads a time in the window of i after j has read one in another window. */
  predicate Returns(c: Config, calls: seq<Call>, key: string, i: int, j: int, k: int)
    requires c.Usable()
  {
    && i < j < k && Reading(c, calls, key, i) && Reading(c, calls, key, j) && Reading(c, calls, key, k)
    && Truncate(calls[i].now, c.window) == Truncate(calls[k].now, c.window) != Truncate(calls[j].now, c.window)
  }

  ghost predicate NoReturn(c: Config, calls: seq<Call>, key: string)
    requires c.Usable()
  {
    forall i, j, k :: !Returns(c, calls, key, i, j, k)
  }

  /** Readings in order never return to a window they have left. */
  lemma {:induction false} OrderedNoReturn(c: Config, calls: seq<Call>, key: string)
    requires c.Usable()
    requires forall i, j :: i < j && Reading(c, calls, key, i) && Reading(c, calls, key, j)
                            ==> calls[i].now <= calls[j].now
    ensures NoReturn(c, calls, key)
  {
    forall i, j, k ensures !Returns(c, calls, key, i, j, k) {
      if Returns(c, calls, key, i, j, k) {
        WindowsApart(calls[i].now, calls[j].now, c.window);
      }
    }
  }

  /** The last call that read the clock for the key, or -1. */
  function LastReading(c: Config, calls: seq<Call>, key: string): (r: int)
    ensures -1 <= r < |calls|
  {
    if calls == [] || calls[|calls| - 1] == Call.Reset(key) then -1
    else if calls[|calls| - 1].key == key && ReadsClock(c, calls[|calls| - 1]) then |calls| - 1
    else LastReading(c, calls[..|calls| - 1], key)
  }

  lemma {:induction false} LastReadingIsLast(c: Config, calls: seq<Call>, key: string)
    ensures var r := LastReading(c, calls, key);
            (r >= 0 ==> Reading(c, calls, key, r)) && forall i :: Reading(c, calls, key, i) ==> i <= r
  {
    if calls == [] {
    } else {
      var before, call := calls[..|calls| - 1], calls[|calls| - 1];
      assert calls == before + [call];
      LastReadingIsLast(c, before, key);
      forall i
        ensures Reading(c, calls, key, i)
                <==> if i == |before| then call.AllowN? && call.key == key && ReadsClock(c, call)
                     else call != Call.Reset(key) && Reading(c, before, key, i)
      {
        ReadingSnoc(c, before, call, key, i);
      }
    }
  }

  // ---------- lemmas about Total ----------

  ghost predicate Positive(log: seq<Grant>) {
    forall g :: g in log ==> g.n > 0
  }

  lemma {:induction false} TotalStep(log: seq<Grant>, g: Grant, from: int, until: int)
    ensures Total(log + [g], from, until) == Total(log, from, until) + if from <= g.now <= until then g.n else 0
  {
    assert (log + [g])[..|log|] == log;
  }

  lemma {:induction false} TotalSplit(log: seq<Grant>, from: int, cut: int, until: int)
    requires from <= cut <= until + 1
    ensures Total(log, from, until) == Total(log, from, cut - 1) + Total(log, cut, until)
  {
    if log == [] {
    } else {
      TotalSplit(log[..|log| - 1], from, cut, until);
    }
  }

  lemma {:induction false} TotalGrows(log: seq<Grant>, from: int, until: int, from': int, until': int)
    requires Positive(log) && from' <= from && until <= until'
    ensures 0 <= Total(log, from, until) <= Total(log, from', until')
  {
    if log == [] {
    } else {
      assert log[|log| - 1] in log;
      TotalGrows(log[..|log| - 1], from, until, from', until');
    }
  }

  // ---------- the invariant that ties counter to history ----------

  /** The counter of a key accounts for exactly what was granted and refused in its own
      window, which is the window of the last grant; without a counter nothing was
      granted or refused. */
  ghost predicate Tracks(c: Config, windows: Windows, key: string, log: seq<Grant>, refused: seq<Grant>)
    requires c.Usable()
  {
    if key !in windows then log == [] && refused == []
    else
      var w := windows[key];
      && log != [] && w.start == Truncate(log[|log| - 1].now, c.window)
      && w.count == WindowTotal(c, log, w.start)
      && w.rejected == WindowTotal(c, refused, w.start)
      && 0 < w.count <= c.limit
  }

  /** The units granted in the aligned window that contains `t`. */
  ghost function WindowTotal(c: Config, log: seq<Grant>, t: int): int
    requires c.Usable()
  {
    Total(log, Truncate(t, c.window), Truncate(t, c.window) + c.window - 1)
  }

  /** No aligned window was granted more than the limit. */
  ghost predicate EachWindowBounded(c: Config, log: seq<Grant>)
    requires c.Usable()
  {
    forall t :: WindowTotal(c, log, t) <= c.limit
  }

  lemma {:induction false} TruncateAligned(t: int, window: int)
    requires window > 0
    ensures Truncate(t, window) == (t / window) * window
  {
  }

  /** Windows do not overlap: two windows are the same or one ends before the
      other starts. */
  lemma {:induction false} WindowsApart(t: int, u: int, window: int)
    requires window > 0
    ensures var s, r := Truncate(t, window), Truncate(u, window);
            s == r || s + window <= r || r + window <= s
  {
    TruncateAligned(t, window);
    TruncateAligned(u, window);
    MultiplesApart(t / window, u / window, window);
  }

  /** None of the entries lies in the window of `t`. */
  ghost predicate NoneIn(c: Config, log: seq<Grant>, t: int)
    requires c.Usable()
  {
    forall g :: g in log ==> Truncate(g.now, c.window) != Truncate(t, c.window)
  }

  lemma {:induction false} TruncateTwice(t: int, window: int)
    requires window > 0
    ensures Truncate(Truncate(t, window), window) == Truncate(t, window)
  {
    TruncateAligned(t, window);
    DivModOf(t / window, 0, window);
  }

  lemma {:induction false} WindowTotalStep(c: Config, log: seq<Grant>, g: Grant, t: int)
    requires c.Usable()
    ensures WindowTotal(c, log + [g], t)
            == WindowTotal(c, log, t) + if Truncate(g.now, c.window) == Truncate(t, c.window) then g.n else 0
  {
    var s := Truncate(t, c.window);
    TotalStep(log, g, s, s + c.window - 1);
    WindowsApart(g.now, t, c.window);
  }

  lemma {:induction false} WindowTotalNone(c: Config, log: seq<Grant>, t: int)
    requires c.Usable() && NoneIn(c, log, t)
    ensures WindowTotal(c, log, t) == 0
  {
    if log == [] {
    } else {
      var init, last := log[..|log| - 1], log[|log| - 1];
      assert log == init + [last] && last in log;
      assert forall g :: g in init ==> g in log;
      WindowTotalNone(c, init, t);
      WindowTotalStep(c, init, last, t);
    }
  }

  lemma {:induction false} WindowTotalStart(c: Config, log: seq<Grant>, t: int)
    requires c.Usable()
    ensures WindowTotal(c, log, Truncate(t, c.window)) == WindowTotal(c, log, t)
  {
    TruncateTwice(t, c.window);
  }

  lemma {:induction false} GrantTracks(c: Config, windows: Windows, key: string, log: seq<Grant>, refused: seq<Grant>,
                                       now: int, n: int)
    requires c.Usable() && Tracks(c, windows, key, log, refused)
    requires 0 < n <= c.limit && Allows(c, windows, key, now, n)
    requires FreshWindow(c, windows, key, now) ==> NoneIn(c, log, now) && NoneIn(c, refused, now)
    ensures Tracks(c, After(c, windows, AllowN(key, now, n)), key, log + [Grant(now, n)], refused)
  {
    WindowTotalStep(c, log, Grant(now, n), now);
    WindowTotalStart(c, log + [Grant(now, n)], now);
    WindowTotalStart(c, log, now);
    WindowTotalStart(c, refused, now);
    if FreshWindow(c, windows, key, now) {
      WindowTotalNone(c, log, now);
      WindowTotalNone(c, refused, now);
    }
  }

  lemma {:induction false} RefusalTracks(c: Config, windows: Windows, key: string, log: seq<Grant>,
                                         refused: seq<Grant>, now: int, n: int)
    requires c.Usable() && Tracks(c, windows, key, log, refused)
    requires 0 < n <= c.limit && !Allows(c, windows, key, now, n)
    ensures Tracks(c, After(c, windows, AllowN(key, now, n)), key, log, refused + [Grant(now, 1)])
  {
    WindowTotalStep(c, refused, Grant(now, 1), now);
    WindowTotalStart(c, refused + [Grant(now, 1)], now);
    WindowTotalStart(c, refused, now);
  }

  lemma {:induction false} GrantBounded(c: Config, windows: Windows, key: string, log: seq<Grant>,
                                        refused: seq<Grant>, now: int, n: int)
    requires c.Usable() && EachWindowBounded(c, log)
    requires Tracks(c, After(c, windows, AllowN(key, now, n)), key, log + [Grant(now, n)], refused)
    ensures EachWindowBounded(c, log + [Grant(now, n)])
  {
    var longer := log + [Grant(now, n)];
    WindowTotalStart(c, longer, now);
    forall t ensures WindowTotal(c, longer, t) <= c.limit {
      WindowTotalStep(c, log, Grant(now, n), t);
      assert WindowTotal(c, log, t) <= c.limit;
      WindowTotalStart(c, longer, t);
    }
  }

  /** `t` is a reading for the key since its last Reset. */
  ghost predicate ReadAt(c: Config, calls: seq<Call>, key: string, t: int) {
    exists i :: Reading(c, calls, key, i) && calls[i].now == t
  }

  lemma {:induction false} ReadAtSnoc(c: Config, before: seq<Call>, call: Call, key: string, t: int)
    requires call != Call.Reset(key)
    ensures ReadAt(c, before, key, t) ==> ReadAt(c, before + [call], key, t)
    ensures call.AllowN? && call.key == key && ReadsClock(c, call) && t == call.now ==>
              ReadAt(c, before + [call], key, t)
  {
    var calls := before + [call];
    if ReadAt(c, before, key, t) {
      var i :| Reading(c, before, key, i) && before[i].now == t;
      ReadingSnoc(c, before, call, key, i);
      assert Reading(c, calls, key, i) && calls[i].now == t;
    }
    if call.AllowN? && call.key == key && ReadsClock(c, call) && t == call.now {
      ReadingSnoc(c, before, call, key, |before|);
      assert calls[|before|] == call;
    }
  }

  /** Grants and refusals happen at readings. */
  lemma {:induction false} LoggedAtReadings(c: Config, calls: seq<Call>, key: string)
    requires c.Usable()
    ensures forall g :: g in Log(c, calls, key) ==> ReadAt(c, calls, key, g.now)
    ensures forall g :: g in Refusals(c, calls, key) ==> ReadAt(c, calls, key, g.now)
  {
    if calls == [] || calls[|calls| - 1] == Call.Reset(key) {
    } else {
      var before, call := calls[..|calls| - 1], calls[|calls| - 1];
      assert calls == before + [call];
      LoggedAtReadings(c, before, key);
      forall g | g in Log(c, calls, key) || g in Refusals(c, calls, key)
        ensures ReadAt(c, calls, key, g.now)
      {
        ReadAtSnoc(c, before, call, key, g.now);
      }
    }
  }

  /** The counter of a key is for the window that was read last. */
  lemma {:induction false} CounterIsLast(c: Config, calls: seq<Call>, key: string)
    requires c.Usable()
    ensures var r := LastReading(c, calls, key);
            (key in Run(c, calls) <==> r >= 0)
            && (r >= 0 ==> calls[r].AllowN? && Run(c, calls)[key].start == Truncate(calls[r].now, c.window))
  {
    LastReadingIsLast(c, calls, key);
    if calls == [] {
    } else {
      CounterIsLast(c, calls[..|calls| - 1], key);
      LastReadingIsLast(c, calls[..|calls| - 1], key);
    }
  }

  /** Without returns a window that has no counter has nothing on record. */
  lemma {:induction false} FreshIsNew(c: Config, before: seq<Call>, call: Call)
    requires c.Usable() && ReadsClock(c, call) && NoReturn(c, before + [call], call.key)
    requires FreshWindow(c, Run(c, before), call.key, call.now)
    ensures NoneIn(c, Log(c, before, call.key), call.now) && NoneIn(c, Refusals(c, before, call.key), call.now)
  {
    var key := call.key;
    LoggedAtReadings(c, before, key);
    forall g | g in Log(c, before, key) || g in Refusals(c, before, key)
      ensures Truncate(g.now, c.window) != Truncate(call.now, c.window)
    {
      NotReadBefore(c, before, call, g.now);
    }
  }

  lemma {:induction false} NotReadBefore(c: Config, before: seq<Call>, call: Call, t: int)
    requires c.Usable() && ReadsClock(c, call) && NoReturn(c, before + [call], call.key)
    requires FreshWindow(c, Run(c, before), call.key, call.now) && ReadAt(c, before, call.key, t)
    ensures Truncate(t, c.window) != Truncate(call.now, c.window)
  {
    var calls, key := before + [call], call.key;
    var i :| Reading(c, before, key, i) && before[i].now == t;
    var j := LastReading(c, before, key);
    CounterIsLast(c, before, key);
    LastReadingIsLast(c, before, key);
    ReadingSnoc(c, before, call, key, i);
    ReadingSnoc(c, before, call, key, j);
    ReadingSnoc(c, before, call, key, |before|);
    assert calls[|before|] == call && !Returns(c, calls, key, i, j, |before|);
  }

  lemma {:induction false} NoReturnBefore(c: Config, before: seq<Call>, call: Call, key: string)
    requires c.Usable() && call != Call.Reset(key) && NoReturn(c, before + [call], key)
    ensures NoReturn(c, before, key)
  {
    var calls := before + [call];
    forall i, j, k ensures !Returns(c, before, key, i, j, k) {
      ReadingSnoc(c, before, call, key, i);
      ReadingSnoc(c, before, call, key, j);
      ReadingSnoc(c, before, call, key, k);
      assert !Returns(c, calls, key, i, j, k);
    }
  }

  /** While readings do not return to a window they have left, the counter tracks the
      history of its key. */
  lemma {:induction false} CounterTracksLog(c: Config, calls: seq<Call>, key: string)
    requires c.Usable() && NoReturn(c, calls, key)
    ensures Tracks(c, Run(c, calls), key, Log(c, calls, key), Refusals(c, calls, key))
    ensures EachWindowBounded(c, Log(c, calls, key)) && Positive(Log(c, calls, key))
  {
    if calls == [] || calls[|calls| - 1] == Call.Reset(key) {
    } else {
      var before, call := calls[..|calls| - 1], calls[|calls| - 1];
      assert calls == before + [call];
      NoReturnBefore(c, before, call, key);
      CounterTracksLog(c, before, key);
      if call.key == key && ReadsClock(c, call) {
        ReadingTracks(c, before, call);
      }
    }
  }

  lemma {:induction false} ReadingTracks(c: Config, before: seq<Call>, call: Call)
    requires c.Usable() && ReadsClock(c, call) && NoReturn(c, before + [call], call.key)
    requires Tracks(c, Run(c, before), call.key, Log(c, before, call.key), Refusals(c, before, call.key))
    requires EachWindowBounded(c, Log(c, before, call.key)) && Positive(Log(c, before, call.key))
    ensures var calls := before + [call];
            && Tracks(c, Run(c, calls), call.key, Log(c, calls, call.key), Refusals(c, calls, call.key))
            && EachWindowBounded(c, Log(c, calls, call.key)) && Positive(Log(c, calls, call.key))
  {
    var calls, key := before + [call], call.key;
    assert calls[..|before|] == before;
    var windows, log, refused := Run(c, before), Log(c, before, key), Refusals(c, before, key);
    if Allows(c, windows, key, call.now, call.n) {
      if FreshWindow(c, windows, key, call.now) {
        FreshIsNew(c, before, call);
      }
      GrantTracks(c, windows, key, log, refused, call.now, call.n);
      GrantBounded(c, windows, key, log, refused, call.now, call.n);
    } else {
      RefusalTracks(c, windows, key, log, refused, call.now, call.n);
    }
  }

  // ---------- main results ----------

  /** Over any closed span a key is granted at most the limit once for every
      aligned window the span touches. */
  lemma {:induction false} SpanBound(c: Config, calls: seq<Call>, key: string, from: int, until: int)
    requires c.Usable() && NoReturn(c, calls, key) && from <= until
    ensures Total(Log(c, calls, key), from, until) <= (until / c.window - from / c.window + 1) * c.limit
  {
    CounterTracksLog(c, calls, key);
    WindowsCover(c, Log(c, calls, key), from, until);
  }

  lemma {:induction false} WindowsCover(c: Config, log: seq<Grant>, from: int, until: int)
    requires c.Usable() && EachWindowBounded(c, log) && Positive(log) && from <= until
    ensures Total(log, from, until) <= (until / c.window - from / c.window + 1) * c.limit
    decreases until - from
  {
    var s := Truncate(until, c.window);
    if from < s {
      LastWindow(c, log, s, until);
      TotalSplit(log, from, s, until);
      WindowsCover(c, log, from, s - 1);
      PreviousWindow(until, c.window);
      OneMore((s - 1) / c.window - from / c.window, c.limit);
    } else {
      LastWindow(c, log, from, until);
      SameWindow(from, until, c.window);
    }
  }

  lemma {:induction false} LastWindow(c: Config, log: seq<Grant>, from: int, until: int)
    requires c.Usable() && EachWindowBounded(c, log) && Positive(log)
    requires Truncate(until, c.window) <= from <= until
    ensures Total(log, from, until) <= c.limit
  {
    var s := Truncate(until, c.window);
    assert WindowTotal(c, log, until) <= c.limit;
    TotalGrows(log, from, until, s, s + c.window - 1);
  }

  lemma {:induction false} OneMore(k: int, limit: int)
    ensures (k + 1) * limit + limit == (k + 1 + 1) * limit
  {
  }

  lemma {:induction false} PreviousWindow(t: int, window: int)
    requires window > 0
    ensures (Truncate(t, window) - 1) / window == t / window - 1
  {
    TruncateAligned(t, window);
    var j := t / window;
    assert Truncate(t, window) - 1 == (j - 1) * window + (window - 1);
    DivModOf(j - 1, window - 1, window);
  }

  lemma {:induction false} SameWindow(from: int, until: int, window: int)
    requires window > 0 && Truncate(until, window) <= from <= until
    ensures from / window == until / window
  {
    TruncateAligned(until, window);
    var q := until / window;
    DivModOf(q, from - q * window, window);
  }

  /** A closed span k windows long is granted at most (k + 1) limits. */
  lemma {:induction false} AdmissionBound(c: Config, calls: seq<Call>, key: string, from: int, k: nat)
    requires c.Usable() && NoReturn(c, calls, key)
    ensures Total(Log(c, calls, key), from, from + k * c.window) <= (k + 1) * c.limit
  {
    QuotAfter(from, k, c.window);
    SpanBound(c, calls, key, from, from + k * c.window);
    var windows := (from + k * c.window) / c.window - from / c.window + 1;
    assert windows == k + 1;
  }

  lemma {:induction false} QuotAfter(from: int, k: nat, window: int)
    requires window > 0
    ensures k * window >= 0 && (from + k * window) / window == from / window + k
  {
    var q, r := from / window, from % window;
    assert from + k * window == (q + k) * window + r;
    DivModOf(q + k, r, window);
  }

  /** Two bursts in different windows are both granted in full. */
  lemma {:induction false} TwoBursts(c: Config, t: int, u: int)
    requires c.Usable() && t <= u && Truncate(t, c.window) != Truncate(u, c.window)
    ensures Total(Log(c, [AllowN("k", t, c.limit), AllowN("k", u, c.limit)], "k"), t, u) == 2 * c.limit
  {
    var c1, c2 := AllowN("k", t, c.limit), AllowN("k", u, c.limit);
    var g1, g2 := Grant(t, c.limit), Grant(u, c.limit);
    assert [c1][..0] == [] && [c1, c2][..1] == [c1];
    assert Run(c, [c1]) == map["k" := Counter(Truncate(t, c.window), c.limit, 0)];
    assert Log(c, [c1], "k") == [] + [g1];
    assert Log(c, [c1, c2], "k") == [] + [g1] + [g2];
    TotalStep([] + [g1], g2, t, u);
    TotalStep([], g1, t, u);
  }

  /** The bound is reached: bursts on either side of a window boundary, one
      instant apart, are both granted, for every usable configuration. */
  lemma {:induction false} BoundaryDoubleBurst(c: Config)
    requires c.Usable()
    ensures var calls := [AllowN("k", c.window - 1, c.limit), AllowN("k", c.window, c.limit)];
            && NoReturn(c, calls, "k")
            && Total(Log(c, calls, "k"), c.window - 1, c.window) == 2 * c.limit
  {
    DivModOf(0, c.window - 1, c.window);
    DivModOf(1, 0, c.window);
    TwoBursts(c, c.window - 1, c.window);
  }

  /** In any state, a rejected single request is admitted again exactly from the end of
      the current window on, whatever the rejection itself counted. */
  lemma {:induction false} FirstAdmission(c: Config, windows: Windows, key: string, now: int, t: int)
    requires c.Usable() && now <= t && !Allows(c, windows, key, now, 1)
    ensures key in windows
    ensures var free := windows[key].start + c.window;
            && now < free <= now + c.window
            && (Allows(c, After(c, windows, AllowN(key, now, 1)), key, t, 1) <==> free <= t)
  {
    WindowsApart(now, t, c.window);
  }

  // ---------- what is granted ----------

  /** In any order, a counter holds no more than was granted in its window. */
  lemma {:induction false} CountAtMostLogged(c: Config, calls: seq<Call>, key: string)
    requires c.Usable()
    ensures Positive(Log(c, calls, key))
    ensures key in Run(c, calls) ==>
              Run(c, calls)[key].count <= WindowTotal(c, Log(c, calls, key), Run(c, calls)[key].start)
  {
    if calls == [] {
    } else {
      var before, call := calls[..|calls| - 1], calls[|calls| - 1];
      assert calls == before + [call];
      CountAtMostLogged(c, before, key);
      CountNext(c, before, call, key);
    }
  }

  lemma {:induction false} CountNext(c: Config, before: seq<Call>, call: Call, key: string)
    requires c.Usable() && Positive(Log(c, before, key))
    requires key in Run(c, before) ==>
               Run(c, before)[key].count <= WindowTotal(c, Log(c, before, key), Run(c, before)[key].start)
    ensures var calls := before + [call];
            && Positive(Log(c, calls, key))
            && (key in Run(c, calls) ==>
                  Run(c, calls)[key].count <= WindowTotal(c, Log(c, calls, key), Run(c, calls)[key].start))
  {
    assert (before + [call])[..|before|] == before;
    var log := Log(c, before, key);
    if call.AllowN? && call.key == key && call.n > 0 && Allows(c, Run(c, before), key, call.now, call.n) {
      var s := Truncate(call.now, c.window);
      WindowTotalStep(c, log, Grant(call.now, call.n), call.now);
      WindowTotalStart(c, log + [Grant(call.now, call.n)], call.now);
      WindowTotalStart(c, log, call.now);
      TotalGrows(log, s, s + c.window - 1, s, s + c.window - 1);
    }
  }

  /** What an answer owes the history of its key. A call for nothing is granted and a call
      for more than the limit is not. Otherwise a call that still fits into its window is
      granted, in whatever order the readings come, and one that does not fit is not,
      unless a reading has returned to a window that was left. */
  ghost predicate MeetsHistory(c: Config, calls: seq<Call>, key: string, now: int, n: int, ok: bool)
    requires c.Usable()
  {
    if n <= 0 then ok
    else if n > c.limit then !ok
    else
      var total := WindowTotal(c, Log(c, calls, key), now);
      && (total + n <= c.limit ==> ok)
      && (NoReturn(c, calls + [AllowN(key, now, n)], key) ==> (ok <==> total + n <= c.limit))
  }

  lemma {:induction false} DecisionMatchesHistory(c: Config, calls: seq<Call>, key: string, now: int, n: int)
    requires c.Usable()
    ensures MeetsHistory(c, calls, key, now, n, Allows(c, Run(c, calls), key, now, n))
  {
    if 0 < n <= c.limit {
      var log := Log(c, calls, key);
      CountAtMostLogged(c, calls, key);
      WindowTotalStart(c, log, now);
      if NoReturn(c, calls + [AllowN(key, now, n)], key) {
        DecisionWithoutReturn(c, calls, key, now, n);
      }
    }
  }

  lemma {:induction false} DecisionWithoutReturn(c: Config, calls: seq<Call>, key: string, now: int, n: int)
    requires c.Usable() && 0 < n <= c.limit && NoReturn(c, calls + [AllowN(key, now, n)], key)
    ensures Allows(c, Run(c, calls), key, now, n) <==> WindowTotal(c, Log(c, calls, key), now) + n <= c.limit
  {
    var call := AllowN(key, now, n);
    NoReturnBefore(c, calls, call, key);
    CounterTracksLog(c, calls, key);
    WindowTotalStart(c, Log(c, calls, key), now);
    if FreshWindow(c, Run(c, calls), key, now) {
      FreshIsNew(c, calls, call);
      WindowTotalNone(c, Log(c, calls, key), now);
    }
  }

  /** What a call adds to the total of a window: what it asks for if it is granted and
      the window is its own, else nothing. */
  ghost predicate AddsTo(c: Config, calls: seq<Call>, call: Call, ok: bool, key: string, t: int)
    requires c.Usable() && call.AllowN?
  {
    var own := key == call.key && Truncate(call.now, c.window) == Truncate(t, c.window);
    WindowTotal(c, Log(c, calls + [call], key), t)
    == WindowTotal(c, Log(c, calls, key), t) + if ok && own && call.n > 0 then call.n else 0
  }

  ghost predicate Adds(c: Config, calls: seq<Call>, call: Call, ok: bool)
    requires c.Usable() && call.AllowN?
  {
    forall key, t :: AddsTo(c, calls, call, ok, key, t)
  }

  lemma {:induction false} GrantAdds(c: Config, calls: seq<Call>, call: Call)
    requires c.Usable() && call.AllowN?
    ensures Adds(c, calls, call, Allows(c, Run(c, calls), call.key, call.now, call.n))
  {
    assert (calls + [call])[..|calls|] == calls;
    forall key, t
      ensures AddsTo(c, calls, call, Allows(c, Run(c, calls), call.key, call.now, call.n), key, t)
    {
      WindowTotalStep(c, Log(c, calls, key), Grant(call.now, call.n), t);
    }
  }

  // ---------- the condition on the readings is exact ----------

  /** The same calls, asking for other amounts; the same ones of them read the clock. */
  ghost predicate SameClock(c: Config, calls: seq<Call>, other: seq<Call>) {
    && SameReadings(calls, other)
    && forall x :: 0 <= x < |calls| ==> (ReadsClock(c, calls[x]) <==> ReadsClock(c, other[x]))
  }

  lemma {:induction false} SameNoReturn(c: Config, calls: seq<Call>, other: seq<Call>, key: string)
    requires c.Usable() && SameClock(c, calls, other) && NoReturn(c, calls, key)
    ensures NoReturn(c, other, key)
  {
    forall x | 0 <= x < |calls| ensures SameReading(other[x], calls[x]) {
      assert SameReading(calls[x], other[x]);
    }
    SameCurrent(other, calls, key);
    forall i, j, k ensures !Returns(c, other, key, i, j, k) {
      assert !Returns(c, calls, key, i, j, k);
    }
  }

  /** Every call that reads the clock asks for the whole limit. */
  function Full(c: Config, calls: seq<Call>): seq<Call> {
    seq(|calls|, x requires 0 <= x < |calls| =>
      if ReadsClock(c, calls[x]) then AllowN(calls[x].key, calls[x].now, c.limit) else calls[x])
  }

  /** What one call of such a run does. */
  ghost predicate FullStep(c: Config, before: seq<Call>, call: Call, key: string)
    requires c.Usable()
  {
    var was, next := Run(c, before), Run(c, before + [call]);
    var log, longer := Log(c, before, key), Log(c, before + [call], key);
    if call.key == key && ReadsClock(c, call) && FreshWindow(c, was, key, call.now) then
      && next == was[key := Counter(Truncate(call.now, c.window), c.limit, 0)]
      && longer == log + [Grant(call.now, c.limit)]
    else
      && longer == log && (key in next <==> key in was)
      && (key in was ==> next[key].start == was[key].start && next[key].count == was[key].count)
      && (call.key == key && ReadsClock(c, call) ==> key in was && was[key].start == Truncate(call.now, c.window))
  }

  lemma {:induction false} FullNext(c: Config, before: seq<Call>, call: Call, key: string)
    requires c.Usable() && call != Call.Reset(key) && (ReadsClock(c, call) ==> call.n == c.limit)
    requires key in Run(c, before) ==> Run(c, before)[key].count == c.limit
    ensures FullStep(c, before, call, key)
  {
    assert (before + [call])[..|before|] == before;
  }

  /** Every counter of such a run is full, and so is the log of its window. */
  ghost predicate FullCounter(c: Config, windows: Windows, key: string, log: seq<Grant>)
    requires c.Usable()
  {
    key in windows ==>
      && windows[key].count == c.limit && WindowTotal(c, log, windows[key].start) >= c.limit
      && windows[key].start == Truncate(windows[key].start, c.window)
  }

  lemma {:induction false} FullCounters(c: Config, calls: seq<Call>, key: string, p: nat)
    requires c.Usable() && p <= |calls|
    ensures var run := Full(c, calls)[..p];
            FullCounter(c, Run(c, run), key, Log(c, run, key)) && Positive(Log(c, run, key))
  {
    if p == 0 {
    } else {
      var run := Full(c, calls)[..p];
      var before, call := Full(c, calls)[..p - 1], Full(c, calls)[p - 1];
      assert run == before + [call] && run[..p - 1] == before;
      FullCounters(c, calls, key, p - 1);
      if call != Call.Reset(key) {
        FullNext(c, before, call, key);
        FullStepCounter(c, before, call, key);
      }
    }
  }

  lemma {:induction false} FullStepCounter(c: Config, before: seq<Call>, call: Call, key: string)
    requires c.Usable() && FullStep(c, before, call, key)
    requires FullCounter(c, Run(c, before), key, Log(c, before, key)) && Positive(Log(c, before, key))
    ensures var run := before + [call];
            FullCounter(c, Run(c, run), key, Log(c, run, key)) && Positive(Log(c, run, key))
  {
    if call.AllowN? {
      var log := Log(c, before, key);
      TruncateTwice(call.now, c.window);
      WindowTotalStep(c, log, Grant(call.now, c.limit), Truncate(call.now, c.window));
      TotalGrows(log, Truncate(call.now, c.window), Truncate(call.now, c.window) + c.window - 1,
                 Truncate(call.now, c.window), Truncate(call.now, c.window) + c.window - 1);
    }
  }

  /** Once i was granted its window holds a limit, and once j was there too, either the
      counter is for another window or the window holds two limits. */
  ghost predicate HoldsLimits(c: Config, calls: seq<Call>, key: string, t: int, left: bool, p: nat)
    requires c.Usable() && p <= |calls|
  {
    var run := Full(c, calls)[..p];
    var total := WindowTotal(c, Log(c, run, key), t);
    && key in Run(c, run) && total >= c.limit
    && (left ==> Run(c, run)[key].start != Truncate(t, c.window) || total >= 2 * c.limit)
  }

  lemma {:induction false} FullBetween(c: Config, calls: seq<Call>, key: string, i: int, j: int, k: int, p: nat)
    requires c.Usable() && Returns(c, calls, key, i, j, k) && i < p <= |calls|
    ensures HoldsLimits(c, calls, key, calls[i].now, j < p, p)
  {
    if p == i + 1 {
      FullFirst(c, calls, key, i);
    } else {
      FullBetween(c, calls, key, i, j, k, p - 1);
      NoResetSince(calls, key, p - 1);
      HoldsLimitsNext(c, calls, key, calls[i].now, j < p - 1, p);
    }
  }

  /** A call that reads another window leaves this one. */
  lemma {:induction false} HoldsLimitsNext(c: Config, calls: seq<Call>, key: string, t: int, left: bool, p: nat)
    requires c.Usable() && 0 < p <= |calls| && calls[p - 1] != Call.Reset(key)
    requires HoldsLimits(c, calls, key, t, left, p - 1)
    ensures var call := calls[p - 1];
            var leaves := call.key == key && ReadsClock(c, call)
                          && Truncate(call.now, c.window) != Truncate(t, c.window);
            HoldsLimits(c, calls, key, t, left || leaves, p)
  {
    var before, call := Full(c, calls)[..p - 1], Full(c, calls)[p - 1];
    assert Full(c, calls)[..p] == before + [call];
    FullCounters(c, calls, key, p - 1);
    FullNext(c, before, call, key);
    FullStepTotal(c, before, call, key, t);
    FullStepStart(c, before, call, key);
  }

  /** The counter is for the window of k when k was there. */
  lemma {:induction false} FullLast(c: Config, calls: seq<Call>, key: string, k: int)
    requires c.Usable() && Reading(c, calls, key, k)
    ensures var run := Full(c, calls)[..k + 1];
            key in Run(c, run) && Run(c, run)[key].start == Truncate(calls[k].now, c.window)
  {
    var before, call := Full(c, calls)[..k], Full(c, calls)[k];
    assert Full(c, calls)[..k + 1] == before + [call];
    FullCounters(c, calls, key, k);
    FullNext(c, before, call, key);
    FullStepStart(c, before, call, key);
  }

  /** A call that reads the clock leaves the counter on its own window, others leave it. */
  lemma {:induction false} FullStepStart(c: Config, before: seq<Call>, call: Call, key: string)
    requires c.Usable() && FullStep(c, before, call, key)
    ensures var next := Run(c, before + [call]);
            if call.key == key && ReadsClock(c, call) then
              key in next && next[key].start == Truncate(call.now, c.window)
            else
              (key in Run(c, before) <==> key in next)
              && (key in next ==> next[key].start == Run(c, before)[key].start)
  {
  }

  lemma {:induction false} FullFirst(c: Config, calls: seq<Call>, key: string, i: int)
    requires c.Usable() && Reading(c, calls, key, i)
    ensures var run := Full(c, calls)[..i + 1];
            && key in Run(c, run) && Run(c, run)[key].start == Truncate(calls[i].now, c.window)
            && WindowTotal(c, Log(c, run, key), calls[i].now) >= c.limit
  {
    var full := Full(c, calls);
    assert full[..i + 1] == full[..i] + [full[i]];
    FullCounters(c, calls, key, i);
    FullNext(c, full[..i], full[i], key);
    FullCounters(c, calls, key, i + 1);
    WindowTotalStart(c, Log(c, full[..i + 1], key), calls[i].now);
  }

  /** The total of a window grows by the limit if a counter is set up for it, and else stays. */
  lemma {:induction false} FullStepTotal(c: Config, before: seq<Call>, call: Call, key: string, t: int)
    requires c.Usable() && call != Call.Reset(key) && FullStep(c, before, call, key)
    ensures var s := Truncate(t, c.window);
            var opens := call.key == key && ReadsClock(c, call) && FreshWindow(c, Run(c, before), key, call.now);
            WindowTotal(c, Log(c, before + [call], key), t) == WindowTotal(c, Log(c, before, key), t)
              + if opens && Truncate(call.now, c.window) == s then c.limit else 0
  {
    if call.AllowN? {
      WindowTotalStep(c, Log(c, before, key), Grant(call.now, c.limit), t);
    }
  }

  /** Wherever readings return to a window they have left, some amounts asked for by the
      same calls let at least twice the limit into it. */
  lemma {:induction false} ReturnsBreakBound(c: Config, calls: seq<Call>, key: string, i: int, j: int, k: int)
    requires c.Usable() && Returns(c, calls, key, i, j, k)
    ensures SameClock(c, calls, Full(c, calls))
    ensures WindowTotal(c, Log(c, Full(c, calls), key), calls[i].now) >= 2 * c.limit
  {
    FullBetween(c, calls, key, i, j, k, k + 1);
    FullLast(c, calls, key, k);
    FullLater(c, calls, key, calls[i].now, i, k + 1, |calls|);
    assert Full(c, calls)[..|calls|] == Full(c, calls);
  }

  lemma {:induction false} FullLater(c: Config, calls: seq<Call>, key: string, t: int, i: int, p: nat, q: nat)
    requires c.Usable() && Reading(c, calls, key, i) && i < p <= q <= |calls|
    ensures WindowTotal(c, Log(c, Full(c, calls)[..p], key), t) <= WindowTotal(c, Log(c, Full(c, calls)[..q], key), t)
  {
    if p == q {
    } else {
      var full := Full(c, calls);
      assert full[..q] == full[..q - 1] + [full[q - 1]];
      FullLater(c, calls, key, t, i, p, q - 1);
      NoResetSince(calls, key, q - 1);
      FullCounters(c, calls, key, q - 1);
      FullNext(c, full[..q - 1], full[q - 1], key);
      if full[q - 1].AllowN? {
        WindowTotalStep(c, Log(c, full[..q - 1], key), Grant(full[q - 1].now, c.limit), t);
      }
    }
  }

  /** No span was granted more than a limit for every aligned window it touches. */
  ghost predicate EachSpanBounded(c: Config, log: seq<Grant>)
    requires c.Usable()
  {
    forall from, until :: from <= until ==> SpanBounded(c, log, from, until)
  }

  ghost predicate SpanBounded(c: Config, log: seq<Grant>, from: int, until: int)
    requires c.Usable()
  {
    Total(log, from, until) <= (until / c.window - from / c.window + 1) * c.limit
  }

  lemma {:induction false} SpansBoundWindows(c: Config, log: seq<Grant>, t: int)
    requires c.Usable() && EachSpanBounded(c, log)
    ensures WindowTotal(c, log, t) <= c.limit
  {
    var s := Truncate(t, c.window);
    var q := (s + c.window - 1) / c.window - s / c.window + 1;
    TruncateAligned(t, c.window);
    DivModOf(t / c.window, 0, c.window);
    DivModOf(t / c.window, c.window - 1, c.window);
    assert SpanBounded(c, log, s, s + c.window - 1) && q == 1;
    assert q * c.limit == c.limit;
  }

  /** The span bound holds, whatever the calls ask for, if and only if no reading returns
      to a window that was left. */
  lemma {:induction false} BoundedExactly(c: Config, calls: seq<Call>, key: string)
    requires c.Usable()
    ensures (forall other :: SameClock(c, calls, other) ==> EachSpanBounded(c, Log(c, other, key)))
            <==> NoReturn(c, calls, key)
  {
    if NoReturn(c, calls, key) {
      forall other | SameClock(c, calls, other)
        ensures EachSpanBounded(c, Log(c, other, key))
      {
        SameNoReturn(c, calls, other, key);
        forall from, until | from <= until
          ensures SpanBounded(c, Log(c, other, key), from, until)
        {
          SpanBound(c, other, key, from, until);
        }
      }
    } else {
      var i, j, k :| Returns(c, calls, key, i, j, k);
      ReturnsBreakBound(c, calls, key, i, j, k);
      if EachSpanBounded(c, Log(c, Full(c, calls), key)) {
        SpansBoundWindows(c, Log(c, Full(c, calls), key), calls[i].now);
      }
    }
  }

  // ---------- the limiter ----------

  /** A counter holds at least one unit and at most the limit, and no fewer than zero
      rejections, in whatever order the readings come. */
  lemma {:induction false} CountWithinLimit(c: Config, calls: seq<Call>, key: string)
    requires c.Usable()
    ensures key in Run(c, calls) ==> 0 < Run(c, calls)[key].count <= c.limit && Run(c, calls)[key].rejected >= 0
  {
    if calls == [] {
    } else {
      CountWithinLimit(c, calls[..|calls| - 1], key);
    }
  }

  lemma {:induction false} CounterOfLast(c: Config, windows: Windows, key: string, log: seq<Grant>, refused: seq<Grant>)
    requires c.Usable() && Tracks(c, windows, key, log, refused) && key in windows
    ensures var w, last := windows[key], log[|log| - 1].now;
            && w.start == Truncate(last, c.window) && w.count <= c.limit
            && w.count == WindowTotal(c, log, last) && w.rejected == WindowTotal(c, refused, last)
  {
    WindowTotalStart(c, log, log[|log| - 1].now);
    WindowTotalStart(c, refused, log[|log| - 1].now);
  }

  datatype Stats = Stats(available: int, windowEnd: int, rejected: int)

  class FixedWindowLimiter {
    const limit: int
    const window: int
    var windows: Windows
    ghost var calls: seq<Call>

    ghost function Cfg(): Config { Config(limit, window) }

    ghost predicate Valid()
      reads this
    {
      Cfg().Usable() && windows == Run(Cfg(), calls)
    }

    constructor (limit: int, window: int)
      ensures Valid() && calls == []
      ensures this.limit == if limit <= 0 then 60 else limit
      ensures this.window == if window <= 0 then MINUTE else window
    {
      this.limit := if limit <= 0 then 60 else limit;
      this.window := if window <= 0 then MINUTE else window;
      windows := map[];
      calls := [];
    }

    method AllowN(key: string, now: int, n: int) returns (ok: bool)
      requires Valid()
      modifies this
      ensures Valid() && calls == old(calls) + [Call.AllowN(key, now, n)]
      ensures ok == Allows(Cfg(), old(windows), key, now, n)
      ensures windows == After(Cfg(), old(windows), Call.AllowN(key, now, n))
      ensures MeetsHistory(Cfg(), old(calls), key, now, n, ok)
      ensures Adds(Cfg(), old(calls), Call.AllowN(key, now, n), ok)
    {
      ghost var call := Call.AllowN(key, now, n);
      DecisionMatchesHistory(Cfg(), calls, key, now, n);
      GrantAdds(Cfg(), calls, call);
      assert (calls + [call])[..|calls|] == calls;
      calls := calls + [call];
      if n <= 0 {
        return true;
      }
      if n > limit {
        return false;
      }
      var windowStart := Truncate(now, window);
      if key !in windows || windows[key].start != windowStart {
        windows := windows[key := Counter(windowStart, n, 0)];
        return true;
      }
      var current := windows[key];
      if current.count + n > limit {
        windows := windows[key := current.(rejected := current.rejected + 1)];
        return false;
      }
      windows := windows[key := current.(count := current.count + n)];
      return true;
    }

    /** `first` is the reading of the attempt, `second` the one the remaining time
        is measured from; no other call comes between the two. A rejected caller
        gets the exact distance from `second` until the first instant `free` at which
        one request is admitted, negative if that instant has passed by then. */
    method Wait(key: string, first: int, second: int) returns (d: int, ghost free: int)
      requires Valid()
      modifies this
      ensures Valid() && calls == old(calls) + [Call.AllowN(key, first, 1)]
      ensures Allows(Cfg(), old(windows), key, first, 1) ==> d == 0
      ensures !Allows(Cfg(), old(windows), key, first, 1) ==>
                && first < free <= first + window
                && (forall t :: first <= t ==> (Allows(Cfg(), windows, key, t, 1) <==> free <= t))
                && d == free - second
    {
      var ok := AllowN(key, first, 1);
      free := first;
      if ok {
        return 0, free;
      }
      FirstAdmission(Cfg(), old(windows), key, first, first);
      free := old(windows)[key].start + window;
      forall t | first <= t
        ensures Allows(Cfg(), windows, key, t, 1) <==> free <= t
      {
        FirstAdmission(Cfg(), old(windows), key, first, t);
      }
      if key in windows {
        return windows[key].start + window - second, free;
      }
      return 0, free;
    }

    method Reset(key: string)
      requires Valid()
      modifies this
      ensures Valid() && calls == old(calls) + [Call.Reset(key)]
      ensures windows == old(windows) - {key}
      ensures Log(Cfg(), calls, key) == []
    {
      ghost var call := Call.Reset(key);
      assert (calls + [call])[..|calls|] == calls;
      calls := calls + [call];
      windows := windows - {key};
    }

    /** The figures belong to the window of the last grant, also when that window
        is over: Stats reads no clock. */
    method GetStats(key: string) returns (s: Stats)
      requires Valid()
      ensures 0 <= s.available <= limit && 0 <= s.rejected
      ensures NoReturn(Cfg(), calls, key) ==>
                var log, refused := Log(Cfg(), calls, key), Refusals(Cfg(), calls, key);
                if log == [] then s == Stats(limit, 0, 0)
                else
                  var last := log[|log| - 1].now;
                  s == Stats(limit - WindowTotal(Cfg(), log, last), Truncate(last, window) + window,
                             WindowTotal(Cfg(), refused, last))
    {
      CountWithinLimit(Cfg(), calls, key);
      if NoReturn(Cfg(), calls, key) {
        CounterTracksLog(Cfg(), calls, key);
        if key in windows {
          CounterOfLast(Cfg(), windows, key, Log(Cfg(), calls, key), Refusals(Cfg(), calls, key));
        }
      }
      if key in windows {
        var current := windows[key];
        var available := limit - current.count;
        if available < 0 {
          available := 0;
        }
        return Stats(available, current.start + window, current.rejected);
      }
      return Stats(limit, 0, 0);
    }
  }
}
