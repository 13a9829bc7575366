/** The calls on a limiter that keeps its counts by key. */
module LimiterCalls {

  /** The calls that change a limiter, in the order in which they take the lock.
      `now` is the clock reading the call works with. */
  datatype Call = AllowN(key: string, now: int, n: int) | Reset(key: string)

  /** Where the calls after the last Reset of the key begin. */
  function Since(calls: seq<Call>, key: string): (s: nat)
    ensures s <= |calls|
  {
    if calls == [] then 0
    else if calls[|calls| - 1] == Reset(key) then |calls|
    else Since(calls[..|calls| - 1], key)
  }

  /** Call x asks for the key, which was not reset since. */
  predicate Current(calls: seq<Call>, key: string, x: int) {
    Since(calls, key) <= x < |calls| && calls[x].AllowN? && calls[x].key == key
  }

  lemma {:induction false} CurrentSnoc(before: seq<Call>, call: Call, key: string, x: int)
    ensures Current(before + [call], key, x)
            <==> if x == |before| then call.AllowN? && call.key == key
                 else call != Reset(key) && Current(before, key, x)
    ensures 0 <= x < |before| ==> (before + [call])[x] == before[x]
  {
    assert (before + [call])[..|before|] == before;
  }

  lemma {:induction false} AllCurrent(before: seq<Call>, call: Call, key: string)
    requires call != Reset(key)
    ensures (before + [call])[|before|] == call
    ensures forall x :: 0 <= x < |before| ==> (before + [call])[x] == before[x]
    ensures forall x :: Current(before + [call], key, x)
                        <==> if x == |before| then call.AllowN? && call.key == key else Current(before, key, x)
  {
    assert (before + [call])[..|before|] == before;
  }

  lemma {:induction false} NoResetSince(calls: seq<Call>, key: string, x: int)
    requires Since(calls, key) <= x < |calls|
    ensures calls[x] != Reset(key)
  {
    if x == |calls| - 1 {
    } else {
      NoResetSince(calls[..|calls| - 1], key, x);
    }
  }

  /** The calls are the same but for how much each asks for. */
  ghost predicate SameReadings(calls: seq<Call>, other: seq<Call>) {
    && |calls| == |other|
    && forall x :: 0 <= x < |calls| ==> SameReading(calls[x], other[x])
  }

  predicate SameReading(call: Call, other: Call) {
    if call.AllowN? then other.AllowN? && other.key == call.key && other.now == call.now else other == call
  }

  lemma {:induction false} SameCurrent(calls: seq<Call>, other: seq<Call>, key: string)
    requires SameReadings(calls, other)
    ensures Since(calls, key) == Since(other, key)
    ensures forall x :: Current(calls, key, x) ==> Current(other, key, x) && other[x].now == calls[x].now
  {
    SameSince(calls, other, key);
  }

  lemma {:induction false} SameSince(calls: seq<Call>, other: seq<Call>, key: string)
    requires SameReadings(calls, other)
    ensures Since(calls, key) == Since(other, key)
  {
    if calls == [] {
    } else {
      var n := |calls|;
      assert SameReading(calls[n - 1], other[n - 1]);
      SameSince(calls[..n - 1], other[..n - 1], key);
    }
  }

  const MINUTE := 60_000_000_000
}
