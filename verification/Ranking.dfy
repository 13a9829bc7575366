/** The order in which search results are listed. The sort it is handed to is not
    stable, so a ranking is fixed only up to results with the same key. */
module Ranking {

  /** What the comparison looks at: score first, then endpoint. */
  datatype Key = Key(score: nat, endpoint: string)

  /** Go's order on strings: bytewise in UTF-8, that is, by code point. */
  predicate Less(a: string, b: string) {
    b != "" && (a == "" || a[0] < b[0] || (a[0] == b[0] && Less(a[1..], b[1..])))
  }

  lemma {:induction false} LessIsTotal(a: string, b: string)
    ensures !Less(a, a)
    ensures !(Less(a, b) && Less(b, a))
    ensures a == b || Less(a, b) || Less(b, a)
    decreases |a|
  {
    if a == "" {
    } else {
      LessIsTotal(a[1..], a[1..]);
      if b != "" && a[0] == b[0] {
        LessIsTotal(a[1..], b[1..]);
        assert a == [a[0]] + a[1..] && b == [b[0]] + b[1..];
      }
    }
  }

  lemma {:induction false} LessIsTransitive(a: string, b: string, c: string)
    requires Less(a, b) && Less(b, c)
    ensures Less(a, c)
  {
    if a == "" || a[0] != b[0] || b[0] != c[0] {
    } else {
      LessIsTransitive(a[1..], b[1..], c[1..]);
    }
  }

  /** The first place where the strings differ decides, and there the end of a string
      comes before any character. */
  ghost predicate Before(a: string, b: string) {
    exists k :: DiffersAt(a, b, k)
  }

  predicate DiffersAt(a: string, b: string, k: int) {
    0 <= k <= |a| && k < |b| && a[..k] == b[..k] && (k == |a| || a[k] < b[k])
  }

  lemma {:induction false} SameUpTo(a: string, b: string, k: int)
    requires DiffersAt(a, b, k)
    ensures k == 0 || (a != "" && b != "" && a[0] == b[0])
  {
    if k > 0 {
      assert a[0] == a[..k][0] && b[0] == b[..k][0];
    }
  }

  lemma {:induction false} LessExactly(a: string, b: string)
    ensures Less(a, b) <==> Before(a, b)
  {
    if a == "" || b == "" || a[0] != b[0] {
      if Less(a, b) {
        assert DiffersAt(a, b, 0);
      }
      if Before(a, b) {
        var k :| DiffersAt(a, b, k);
        SameUpTo(a, b, k);
      }
    } else {
      LessExactly(a[1..], b[1..]);
      DiffersLater(a, b);
    }
  }

  lemma {:induction false} DiffersLater(a: string, b: string)
    requires a != "" && b != "" && a[0] == b[0]
    ensures Before(a, b) <==> Before(a[1..], b[1..])
  {
    if Before(a, b) {
      var k :| DiffersAt(a, b, k);
      assert a[1..][..k - 1] == a[..k][1..] && b[1..][..k - 1] == b[..k][1..];
      assert DiffersAt(a[1..], b[1..], k - 1);
    }
    if Before(a[1..], b[1..]) {
      var k :| DiffersAt(a[1..], b[1..], k);
      assert a[..k + 1] == [a[0]] + a[1..][..k] && b[..k + 1] == [b[0]] + b[1..][..k];
      assert DiffersAt(a, b, k + 1);
    }
  }

  predicate Outranks(x: Key, y: Key) {
    if x.score == y.score then Less(x.endpoint, y.endpoint) else x.score > y.score
  }

  /** The comparison is a strict total order on keys, as sorting demands. */
  lemma {:induction false} OutranksIsStrictOrder(x: Key, y: Key, z: Key)
    ensures !Outranks(x, x)
    ensures !(Outranks(x, y) && Outranks(y, x))
    ensures x == y || Outranks(x, y) || Outranks(y, x)
    ensures Outranks(x, y) && Outranks(y, z) ==> Outranks(x, z)
  {
    LessIsTotal(x.endpoint, x.endpoint);
    LessIsTotal(x.endpoint, y.endpoint);
    if Less(x.endpoint, y.endpoint) && Less(y.endpoint, z.endpoint) {
      LessIsTransitive(x.endpoint, y.endpoint, z.endpoint);
    }
  }

  /** The higher score outranks, and among equal scores the earlier endpoint. */
  lemma {:induction false} OutranksExactly(x: Key, y: Key)
    ensures Outranks(x, y) <==> x.score > y.score || (x.score == y.score && Before(x.endpoint, y.endpoint))
  {
    LessExactly(x.endpoint, y.endpoint);
  }

  function Keys<T>(key: T -> Key, rs: seq<T>): (ks: seq<Key>)
    ensures |ks| == |rs| && forall i :: 0 <= i < |rs| ==> ks[i] == key(rs[i])
  {
    seq(|rs|, i requires 0 <= i < |rs| => key(rs[i]))
  }

  predicate Ranked(ks: seq<Key>) {
    forall i, j :: 0 <= i < j < |ks| ==> !Outranks(ks[j], ks[i])
  }

  /** All that is asked of the sort: the same elements, in rank order. */
  predicate IsSortOf<T(==)>(key: T -> Key, sorted: seq<T>, rs: seq<T>) {
    multiset(sorted) == multiset(rs) && Ranked(Keys(key, sorted))
  }

  /** Where r goes in a ranked list. */
  function Insert<T>(key: T -> Key, r: T, rs: seq<T>): seq<T> {
    if rs == [] || !Outranks(key(rs[0]), key(r)) then [r] + rs
    else [rs[0]] + Insert(key, r, rs[1..])
  }

  lemma {:induction false} RankedCons<T>(key: T -> Key, r: T, rs: seq<T>)
    requires Ranked(Keys(key, rs))
    requires forall j :: 0 <= j < |rs| ==> !Outranks(key(rs[j]), key(r))
    ensures Ranked(Keys(key, [r] + rs))
  {
    assert Keys(key, [r] + rs) == [key(r)] + Keys(key, rs);
  }

  lemma {:induction false} BelowHead<T>(key: T -> Key, rs: seq<T>, r: T, rest: seq<T>, j: nat)
    requires Ranked(Keys(key, rs)) && rs != [] && Outranks(key(rs[0]), key(r))
    requires multiset(rest) == multiset(rs[1..]) + multiset{r} && j < |rest|
    ensures !Outranks(key(rest[j]), key(rs[0]))
  {
    assert rest[j] in multiset(rest);
    if rest[j] == r {
      OutranksIsStrictOrder(key(r), key(rs[0]), key(r));
    } else {
      assert rest[j] in multiset(rs[1..]);
      var i :| 0 < i < |rs| && rs[i] == rest[j];
      assert !Outranks(Keys(key, rs)[i], Keys(key, rs)[0]);
    }
  }

  lemma {:induction false} InsertRanks<T>(key: T -> Key, r: T, rs: seq<T>)
    requires Ranked(Keys(key, rs))
    ensures multiset(Insert(key, r, rs)) == multiset(rs) + multiset{r}
    ensures Ranked(Keys(key, Insert(key, r, rs)))
  {
    if rs == [] {
    } else if !Outranks(key(rs[0]), key(r)) {
      forall j | 0 <= j < |rs|
        ensures !Outranks(key(rs[j]), key(r))
      {
        assert 0 < j ==> !Outranks(Keys(key, rs)[j], Keys(key, rs)[0]);
        OutranksIsStrictOrder(key(rs[j]), key(r), key(rs[0]));
        OutranksIsStrictOrder(key(r), key(rs[0]), key(rs[j]));
      }
      RankedCons(key, r, rs);
    } else {
      var tail := rs[1..];
      assert Keys(key, tail) == Keys(key, rs)[1..];
      RankedTail(Keys(key, rs));
      InsertRanks(key, r, tail);
      assert rs == [rs[0]] + tail;
      var rest := Insert(key, r, tail);
      forall j | 0 <= j < |rest|
        ensures !Outranks(key(rest[j]), key(rs[0]))
      {
        BelowHead(key, rs, r, rest, j);
      }
      RankedCons(key, rs[0], rest);
    }
  }

  lemma {:induction false} SortExists<T>(key: T -> Key, rs: seq<T>) returns (sorted: seq<T>)
    ensures IsSortOf(key, sorted, rs)
  {
    if rs == [] {
      sorted := [];
    } else {
      var rest := SortExists(key, rs[1..]);
      InsertRanks(key, rs[0], rest);
      assert rs == [rs[0]] + rs[1..];
      sorted := Insert(key, rs[0], rest);
    }
  }

  // ---------- how far the sort leaves a choice ----------

  function Removed<T>(xs: seq<T>, j: nat): seq<T>
    requires j < |xs|
  {
    xs[..j] + xs[j + 1..]
  }

  lemma {:induction false} RemovedLess<T>(xs: seq<T>, j: nat)
    requires j < |xs|
    ensures multiset(xs) == multiset(Removed(xs, j)) + multiset{xs[j]}
    ensures multiset(Removed(xs, j)) == multiset(xs) - multiset{xs[j]}
  {
    assert xs == xs[..j] + [xs[j]] + xs[j + 1..];
  }

  lemma {:induction false} KeysRemoved<T>(key: T -> Key, xs: seq<T>, j: nat)
    requires j < |xs|
    ensures multiset(Keys(key, xs)) == multiset(Keys(key, Removed(xs, j))) + multiset{key(xs[j])}
  {
    RemovedLess(Keys(key, xs), j);
    assert Keys(key, Removed(xs, j)) == Removed(Keys(key, xs), j);
  }

  lemma {:induction false} KeysOfPermutation<T>(key: T -> Key, xs: seq<T>, ys: seq<T>)
    requires multiset(xs) == multiset(ys)
    ensures multiset(Keys(key, xs)) == multiset(Keys(key, ys))
  {
    if xs == [] {
      assert |multiset(ys)| == 0;
    } else {
      assert xs[0] in multiset(ys);
      var j :| 0 <= j < |ys| && ys[j] == xs[0];
      RemovedLess(xs, 0);
      RemovedLess(ys, j);
      KeysOfPermutation(key, Removed(xs, 0), Removed(ys, j));
      KeysRemoved(key, xs, 0);
      KeysRemoved(key, ys, j);
    }
  }

  /** Nothing outranks the head of a ranked list. */
  lemma {:induction false} HeadIsBest(a: seq<Key>, k: Key)
    requires Ranked(a) && a != [] && k in multiset(a)
    ensures !Outranks(k, a[0])
  {
    var j :| 0 <= j < |a| && a[j] == k;
    OutranksIsStrictOrder(k, k, k);
  }

  lemma {:induction false} RankedHeads(a: seq<Key>, b: seq<Key>)
    requires Ranked(a) && Ranked(b) && multiset(a) == multiset(b) && a != [] && b != []
    ensures a[0] == b[0]
  {
    assert a[0] in multiset(a) && b[0] in multiset(b);
    HeadIsBest(a, b[0]);
    HeadIsBest(b, a[0]);
    OutranksIsStrictOrder(a[0], b[0], a[0]);
  }

  lemma {:induction false} RankedTail(a: seq<Key>)
    requires Ranked(a) && a != []
    ensures Ranked(a[1..]) && multiset(a[1..]) == multiset(a) - multiset{a[0]}
  {
    RemovedLess(a, 0);
    assert Removed(a, 0) == a[1..];
    forall i, j | 0 <= i < j < |a[1..]|
      ensures !Outranks(a[1..][j], a[1..][i])
    {
      assert !Outranks(a[j + 1], a[i + 1]);
    }
  }

  lemma {:induction false} RankedIsUnique(a: seq<Key>, b: seq<Key>)
    requires Ranked(a) && Ranked(b) && multiset(a) == multiset(b)
    ensures a == b
  {
    if a == [] {
      assert |multiset(b)| == 0;
    } else {
      assert |multiset(b)| == |a|;
      RankedHeads(a, b);
      RankedTail(a);
      RankedTail(b);
      RankedIsUnique(a[1..], b[1..]);
      assert a == [a[0]] + a[1..] && b == [b[0]] + b[1..];
    }
  }

  /** Any two sorts of the same results list the same scores and endpoints. */
  lemma {:induction false} SortsAgree<T>(key: T -> Key, s: seq<T>, t: seq<T>, rs: seq<T>)
    requires IsSortOf(key, s, rs) && IsSortOf(key, t, rs)
    ensures Keys(key, s) == Keys(key, t)
  {
    KeysOfPermutation(key, s, t);
    RankedIsUnique(Keys(key, s), Keys(key, t));
  }
}
