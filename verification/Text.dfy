/** Strings as sequences of characters: trimming, decimal numbers, lines and
    substring search. */
module Text {

  /** White space in the sense of Unicode, which TrimSpace removes. */
  predicate IsSpace(c: char) {
    || c == ' ' || c == '\t' || c == '\n' || c == '\U{0B}' || c == '\U{0C}' || c == '\r'
    || c == '\U{85}' || c == '\U{A0}' || c == '\U{1680}' || '\U{2000}' <= c <= '\U{200A}'
    || c == '\U{2028}' || c == '\U{2029}' || c == '\U{202F}' || c == '\U{205F}' || c == '\U{3000}'
  }

  predicate IsDigit(c: char) { '0' <= c <= '9' }

  // ---------- trimming ----------

  function TrimLeft(s: string): (r: string)
    ensures r == "" || !IsSpace(r[0])
  {
    if s != "" && IsSpace(s[0]) then TrimLeft(s[1..]) else s
  }

  function TrimRight(s: string): (r: string)
    ensures r <= s
    ensures r == "" || !IsSpace(r[|r| - 1])
  {
    if s != "" && IsSpace(s[|s| - 1]) then TrimRight(s[..|s| - 1]) else s
  }

  function Trim(s: string): string { TrimRight(TrimLeft(s)) }

  predicate StartsSolid(s: string) { s != "" ==> !IsSpace(s[0]) }

  predicate EndsSolid(s: string) { s != "" ==> !IsSpace(s[|s| - 1]) }

  lemma {:induction false} TrimSolid(s: string)
    ensures StartsSolid(Trim(s)) && EndsSolid(Trim(s))
    ensures StartsSolid(s) && EndsSolid(s) ==> Trim(s) == s
  {
    var l := TrimLeft(s);
    var r := TrimRight(l);
    if r != "" {
      assert r[0] == l[0];
    }
  }

  predicate AllSpace(s: string) { forall c :: c in s ==> IsSpace(c) }

  /** What trimming removes is a white prefix and a white suffix. */
  lemma {:induction false} TrimParts(s: string) returns (a: string, b: string)
    ensures s == a + Trim(s) + b && AllSpace(a) && AllSpace(b)
  {
    a := LeftPart(s);
    b := RightPart(TrimLeft(s));
  }

  lemma {:induction false} LeftPart(s: string) returns (a: string)
    ensures s == a + TrimLeft(s) && AllSpace(a)
  {
    if s != "" && IsSpace(s[0]) {
      var a' := LeftPart(s[1..]);
      a := [s[0]] + a';
    } else {
      a := "";
    }
  }

  lemma {:induction false} RightPart(s: string) returns (b: string)
    ensures s == TrimRight(s) + b && AllSpace(b)
  {
    if s != "" && IsSpace(s[|s| - 1]) {
      var b' := RightPart(s[..|s| - 1]);
      b := b' + [s[|s| - 1]];
    } else {
      b := "";
    }
  }

  /** Trimming does not see white space added at the ends. */
  lemma {:induction false} TrimAround(a: string, s: string, b: string)
    requires AllSpace(a) && AllSpace(b)
    ensures Trim(a + s + b) == Trim(s)
  {
    if a != "" {
      assert (a + s + b)[1..] == a[1..] + s + b;
      TrimAround(a[1..], s, b);
    } else {
      assert a + s + b == s + b;
      TrimLeftConcat(s, b);
      if TrimLeft(s) == "" {
        TrimLeftAll(b);
      } else {
        TrimRightConcat(TrimLeft(s), b);
      }
    }
  }

  lemma {:induction false} TrimLeftConcat(s: string, b: string)
    ensures TrimLeft(s + b) == if TrimLeft(s) == "" then TrimLeft(b) else TrimLeft(s) + b
  {
    if s == "" {
      assert s + b == b;
    } else if IsSpace(s[0]) {
      assert (s + b)[1..] == s[1..] + b;
      TrimLeftConcat(s[1..], b);
    }
  }

  lemma {:induction false} TrimLeftAll(b: string)
    requires AllSpace(b)
    ensures TrimLeft(b) == ""
  {
    if b == "" {
    } else {
      assert b[0] in b;
      TrimLeftAll(b[1..]);
    }
  }

  lemma {:induction false} TrimRightConcat(s: string, b: string)
    requires AllSpace(b)
    ensures TrimRight(s + b) == TrimRight(s)
  {
    if b == "" {
      assert s + b == s;
    } else {
      assert b[|b| - 1] in b;
      assert (s + b)[..|s + b| - 1] == s + b[..|b| - 1];
      TrimRightConcat(s, b[..|b| - 1]);
    }
  }

  // ---------- decimal numbers ----------

  predicate AllDigits(s: string) { forall c :: c in s ==> IsDigit(c) }

  function DigitChar(d: nat): (c: char)
    requires d < 10
    ensures IsDigit(c)
  {
    ('0' as int + d) as char
  }

  function Decimal(n: nat): (s: string)
    ensures s != "" && AllDigits(s)
  {
    if n < 10 then [DigitChar(n)] else Decimal(n / 10) + [DigitChar(n % 10)]
  }

  /** What %d prints. */
  function IntString(n: int): string {
    if n < 0 then "-" + Decimal(-n) else Decimal(n)
  }

  /** The number a string of digits denotes, leading zeros allowed. */
  function Value(s: string): nat
    requires AllDigits(s)
  {
    if s == "" then 0
    else
      assert s[|s| - 1] in s;
      assert forall c :: c in s[..|s| - 1] ==> c in s;
      Value(s[..|s| - 1]) * 10 + (s[|s| - 1] as int - '0' as int)
  }

  lemma {:induction false} ValueOfDecimal(n: nat)
    ensures Value(Decimal(n)) == n
  {
    if n >= 10 {
      ValueOfDecimal(n / 10);
      var s := Decimal(n);
      assert s[..|s| - 1] == Decimal(n / 10);
    } else {
      assert [DigitChar(n)][..0] == "";
    }
  }

  // ---------- lines ----------

  predicate NoNewline(s: string) { '\n' !in s }

  function SplitLines(s: string): (lines: seq<string>)
    ensures lines != []
    ensures forall l :: l in lines ==> NoNewline(l)
  {
    if s == "" then [""]
    else
      var rest := SplitLines(s[1..]);
      if s[0] == '\n' then [""] + rest
      else
        assert NoNewline(rest[0]) by { assert rest[0] in rest; }
        [[s[0]] + rest[0]] + rest[1..]
  }

  lemma {:induction false} SplitConcat(a: string, b: string)
    ensures SplitLines(a + "\n" + b) == SplitLines(a) + SplitLines(b)
  {
    var s := a + "\n" + b;
    if a == "" {
      assert s[1..] == b;
    } else {
      assert s[1..] == a[1..] + "\n" + b;
      SplitConcat(a[1..], b);
    }
  }

  lemma {:induction false} SplitSingle(a: string)
    requires NoNewline(a)
    ensures SplitLines(a) == [a]
  {
    if a == "" {
    } else {
      assert a[0] in a;
      SplitSingle(a[1..]);
      assert [a[0]] + a[1..] == a;
    }
  }

  // ---------- substring search ----------

  predicate OccursAt(s: string, m: string, i: nat) {
    i + |m| <= |s| && s[i..i + |m|] == m
  }

  /** The first position at which m occurs in s, at or after i; -1 if none. */
  function IndexFrom(s: string, m: string, i: nat): (k: int)
    requires i <= |s|
    ensures k == -1 || (i <= k && OccursAt(s, m, k))
    ensures forall j :: i <= j < (if k == -1 then |s| + 1 else k) ==> !OccursAt(s, m, j)
    decreases |s| - i
  {
    if OccursAt(s, m, i) then i
    else if i == |s| then -1
    else IndexFrom(s, m, i + 1)
  }

  function Index(s: string, m: string): int { IndexFrom(s, m, 0) }

  lemma {:induction false} IndexIs(s: string, m: string, k: nat)
    requires OccursAt(s, m, k) && forall j :: 0 <= j < k ==> !OccursAt(s, m, j)
    ensures Index(s, m) == k
  {
    var i := Index(s, m);
    assert OccursAt(s, m, k);
  }

  lemma {:induction false} IndexNone(s: string, m: string)
    requires forall j :: 0 <= j <= |s| ==> !OccursAt(s, m, j)
    ensures Index(s, m) == -1
  {
    var i := Index(s, m);
  }

  function Concat(pieces: seq<string>): string {
    if pieces == [] then "" else pieces[0] + Concat(pieces[1..])
  }

  lemma {:induction false} ConcatNoNewline(pieces: seq<string>)
    requires forall p :: p in pieces ==> NoNewline(p)
    ensures NoNewline(Concat(pieces))
  {
    if pieces == [] {
    } else {
      assert pieces[0] in pieces;
      ConcatNoNewline(pieces[1..]);
    }
  }

  /** The text ends in the last piece, and if that is empty in the one before. */
  lemma {:induction false} ConcatLast(pieces: seq<string>, p: string, q: string)
    ensures Concat(pieces + [p, q]) == Concat(pieces) + (p + q)
  {
    var all := pieces + [p, q];
    if pieces == [] {
      assert all == [p, q] && [p, q][1..] == [q] && [q][1..] == [];
      assert Concat([q]) == q + "";
    } else {
      assert all[1..] == pieces[1..] + [p, q];
      ConcatLast(pieces[1..], p, q);
    }
  }

  lemma {:induction false} ConcatAll(xs: seq<string>, ys: seq<string>)
    ensures Concat(xs + ys) == Concat(xs) + Concat(ys)
  {
    if xs == [] {
      assert xs + ys == ys;
    } else {
      assert (xs + ys)[0] == xs[0] && (xs + ys)[1..] == xs[1..] + ys;
      ConcatAll(xs[1..], ys);
    }
  }

  lemma {:induction false} ConcatFour(a: string, b: string, c: string, d: string)
    ensures Concat([a, b, c, d]) == a + b + c + d
    ensures Concat([a, b, c]) == a + b + c
  {
    assert [a, b, c, d][1..] == [b, c, d] && [b, c, d][1..] == [c, d] && [c, d][1..] == [d] && [d][1..] == [];
    assert [a, b, c][1..] == [b, c] && [b, c][1..] == [c] && [c][1..] == [];
    assert Concat([d]) == d && Concat([c]) == c;
    assert Concat([c, d]) == c + d && Concat([b, c]) == b + c;
    assert Concat([b, c, d]) == b + (c + d);
    assert a + (b + (c + d)) == a + b + c + d && a + (b + c) == a + b + c;
  }
}
