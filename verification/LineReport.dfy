/** A text that carries a report: a summary, a marker, and one line for each entry.
    How lines are read is a parameter; what is proved here is that the report can
    be found again and cut into its lines. */
module LineReport {
  import opened Text

  /** Reads one trimmed line. */
  type Reader<!T> = string -> seq<T>

  // ---------- writing ----------

  /** The lines from i on, each ended. */
  function Body(lines: seq<string>, i: nat): string
    requires i <= |lines|
    decreases |lines| - i
  {
    if i == |lines| then "" else lines[i] + "\n" + Body(lines, i + 1)
  }

  /** The summary, trimmed, and a blank line; nothing if the summary is blank. */
  function Head(summary: string): string {
    var trimmed := Trim(summary);
    if trimmed == "" then "" else trimmed + "\n\n"
  }

  function Attach(marker: string, summary: string, lines: seq<string>): string {
    if lines == [] then summary
    else Trim(Head(summary) + marker + "\n" + Body(lines, 0))
  }

  lemma {:induction false} BodyStep(b: string, lines: seq<string>, i: nat)
    requires i < |lines|
    ensures (b + lines[i] + "\n") + Body(lines, i + 1) == b + Body(lines, i)
  {
  }

  // ---------- reading ----------

  function ItemsOf<T>(read: Reader<T>, lines: seq<string>): seq<T> {
    if lines == [] then [] else read(Trim(lines[0])) + ItemsOf(read, lines[1..])
  }

  function ParseSection<T>(read: Reader<T>, section: string): seq<T> {
    ItemsOf(read, SplitLines(section))
  }

  function Parse<T>(marker: string, read: Reader<T>, summary: string): seq<T> {
    var i := Index(summary, marker);
    if i < 0 then [] else ParseSection(read, summary[i + |marker|..])
  }

  lemma {:induction false} ParseOfSection<T>(marker: string, read: Reader<T>, summary: string)
    ensures var i := Index(summary, marker);
            Parse(marker, read, summary)
            == if i < 0 then [] else ItemsOf(read, SplitLines(summary[i + |marker|..]))
  {
  }

  /** What is read of the lines from i on is line i and the rest. */
  lemma {:induction false} ItemsStep<T>(read: Reader<T>, items: seq<T>, lines: seq<string>, i: nat)
    requires i < |lines|
    ensures (items + read(Trim(lines[i]))) + ItemsOf(read, lines[i + 1..]) == items + ItemsOf(read, lines[i..])
  {
    assert lines[i..][1..] == lines[i + 1..];
    assert ItemsOf(read, lines[i..]) == read(Trim(lines[i])) + ItemsOf(read, lines[i + 1..]);
  }

  /** Lines of which each yields one item yield them in order. */
  lemma {:induction false} ItemsOfEach<T>(read: Reader<T>, lines: seq<string>, items: seq<T>)
    requires |items| == |lines|
    requires forall i :: 0 <= i < |lines| ==> read(Trim(lines[i])) == [items[i]]
    ensures ItemsOf(read, lines) == items
  {
    if lines == [] {
    } else {
      assert forall i :: 0 <= i < |lines| - 1 ==> lines[1..][i] == lines[i + 1] && items[1..][i] == items[i + 1];
      ItemsOfEach(read, lines[1..], items[1..]);
      assert items == [items[0]] + items[1..];
    }
  }

  // ---------- sections ----------

  lemma {:induction false} ItemsConcat<T>(read: Reader<T>, xs: seq<string>, ys: seq<string>)
    ensures ItemsOf(read, xs + ys) == ItemsOf(read, xs) + ItemsOf(read, ys)
  {
    if xs == [] {
      assert xs + ys == ys;
    } else {
      assert (xs + ys)[1..] == xs[1..] + ys;
      ItemsConcat(read, xs[1..], ys);
    }
  }

  lemma {:induction false} SectionConcat<T>(read: Reader<T>, a: string, b: string)
    ensures ParseSection(read, a + "\n" + b) == ParseSection(read, a) + ParseSection(read, b)
  {
    SplitConcat(a, b);
    ItemsConcat(read, SplitLines(a), SplitLines(b));
  }

  lemma {:induction false} SectionOfLine<T>(read: Reader<T>, line: string)
    requires NoNewline(line)
    ensures ParseSection(read, line) == read(Trim(line))
  {
    SplitSingle(line);
    assert [line][1..] == [];
    assert ItemsOf(read, [line]) == read(Trim(line)) + ItemsOf(read, []);
  }

  /** A section is read the same with white space, line ends included, after it. */
  lemma {:induction false} WhiteTail<T>(read: Reader<T>, a: string, b: string)
    requires AllSpace(b) && read("") == []
    ensures ParseSection(read, a + b) == ParseSection(read, a)
    decreases |a| + |b|
  {
    if n: int :| 0 <= n < |a| && a[n] == '\n' {
      var x, y := a[..n], a[n + 1..];
      assert a == x + "\n" + y;
      assert a + b == x + "\n" + (y + b);
      SectionConcat(read, x, y + b);
      SectionConcat(read, x, y);
      WhiteTail(read, y, b);
    } else if n: int :| 0 <= n < |b| && b[n] == '\n' {
      var x, y := b[..n], b[n + 1..];
      assert b == x + "\n" + y;
      assert a + b == (a + x) + "\n" + y;
      SectionConcat(read, a + x, y);
      WhiteTail(read, a, x);
      WhiteSection(read, y);
    } else {
      assert NoNewline(a) && NoNewline(b);
      SectionOfLine(read, a + b);
      SectionOfLine(read, a);
      assert "" + a + b == a + b;
      TrimAround("", a, b);
    }
  }

  lemma {:induction false} WhiteSection<T>(read: Reader<T>, b: string)
    requires AllSpace(b) && read("") == []
    ensures ParseSection(read, b) == []
    decreases |b|
  {
    if n: int :| 0 <= n < |b| && b[n] == '\n' {
      var x, y := b[..n], b[n + 1..];
      assert b == x + "\n" + y;
      SectionConcat(read, x, y);
      WhiteSection(read, x);
      WhiteSection(read, y);
    } else {
      assert NoNewline(b);
      SectionOfLine(read, b);
      assert "" + "" + b == b;
      TrimAround("", "", b);
    }
  }

  // ---------- the written section ----------

  /** A line that survives: not empty, no white space at its ends, no line end. */
  predicate Solid(line: string) {
    line != "" && StartsSolid(line) && EndsSolid(line) && NoNewline(line)
  }

  predicate AllSolid(lines: seq<string>) {
    forall i :: 0 <= i < |lines| ==> Solid(lines[i])
  }

  /** The lines from i on, without the last line end. */
  function Joined(lines: seq<string>, i: nat): string
    requires i < |lines|
    decreases |lines| - i
  {
    if i + 1 == |lines| then lines[i] else lines[i] + "\n" + Joined(lines, i + 1)
  }

  lemma {:induction false} BodyIsJoined(lines: seq<string>, i: nat)
    requires i < |lines|
    ensures Body(lines, i) == Joined(lines, i) + "\n"
    decreases |lines| - i
  {
    if i + 1 == |lines| {
    } else {
      BodyIsJoined(lines, i + 1);
    }
  }

  lemma {:induction false} JoinedEndsSolid(lines: seq<string>, i: nat)
    requires i < |lines| && AllSolid(lines)
    ensures Joined(lines, i) != "" && EndsSolid(Joined(lines, i))
    decreases |lines| - i
  {
    if i + 1 == |lines| {
    } else {
      JoinedEndsSolid(lines, i + 1);
    }
  }

  lemma {:induction false} JoinedReadsBack<T>(read: Reader<T>, lines: seq<string>, i: nat)
    requires i < |lines| && AllSolid(lines)
    ensures ParseSection(read, Joined(lines, i)) == ItemsOf(read, lines[i..])
    decreases |lines| - i
  {
    var line := lines[i];
    SectionOfLine(read, line);
    assert lines[i..][1..] == lines[i + 1..];
    if i + 1 == |lines| {
    } else {
      JoinedReadsBack(read, lines, i + 1);
      SectionConcat(read, line, Joined(lines, i + 1));
    }
  }

  /** With solid lines the outer trim takes away just the last line end. */
  lemma {:induction false} AttachedText(marker: string, summary: string, lines: seq<string>)
    requires Solid(marker) && lines != [] && AllSolid(lines)
    ensures Attach(marker, summary, lines) == Head(summary) + marker + "\n" + Joined(lines, 0)
  {
    BodyIsJoined(lines, 0);
    JoinedEndsSolid(lines, 0);
    TrimLast(Head(summary) + marker, Joined(lines, 0)) by {
      TrimSolid(summary);
    }
  }

  lemma {:induction false} TrimLast(front: string, joined: string)
    requires front != "" && StartsSolid(front) && joined != "" && EndsSolid(joined)
    ensures Trim(front + "\n" + (joined + "\n")) == front + "\n" + joined
  {
    var text := front + "\n" + joined;
    assert front + "\n" + (joined + "\n") == "" + text + "\n";
    TrimAround("", text, "\n");
    TrimSolid(text);
  }

  // ---------- where the section starts ----------

  predicate Has(s: string, marker: string) { Index(s, marker) >= 0 }

  /** A search looks at what comes first: an occurrence in a prefix is found there. */
  lemma {:induction false} IndexInPrefix(s: string, marker: string, rest: string)
    requires Has(s, marker)
    ensures 0 <= Index(s, marker) <= |s| - |marker|
    ensures Index(s + rest, marker) == Index(s, marker)
  {
    var k := Index(s, marker);
    assert k != -1;
    assert (s + rest)[k..k + |marker|] == s[k..k + |marker|];
    forall j | 0 <= j < k ensures !OccursAt(s + rest, marker, j) {
      assert !OccursAt(s, marker, j);
      if j + |marker| <= |s| {
        assert (s + rest)[j..j + |marker|] == s[j..j + |marker|];
      }
    }
    IndexIs(s + rest, marker, k);
  }

  /** No occurrence straddles a line end, since the marker holds none. */
  lemma {:induction false} NoneStraddles(t: string, marker: string, rest: string, j: nat)
    requires marker != "" && NoNewline(marker) && j <= |t| && !OccursAt(t, marker, j)
    ensures !OccursAt(t + "\n" + rest, marker, j)
  {
    var s := t + "\n" + rest;
    if j + |marker| <= |t| {
      assert s[j..j + |marker|] == t[j..j + |marker|];
    } else {
      assert marker[|t| - j] in marker;
      Differs(s, marker, j, |t|);
    }
  }

  lemma {:induction false} Differs(s: string, marker: string, j: nat, p: nat)
    requires j <= p < j + |marker| && p < |s| && s[p] != marker[p - j]
    ensures !OccursAt(s, marker, j)
  {
    if j + |marker| <= |s| {
      assert s[j..j + |marker|][p - j] == s[p];
    }
  }

  /** No occurrence starts in white space before a text. */
  lemma {:induction false} NoneInWhiteFront(a: string, marker: string, t: string, j: nat)
    requires Solid(marker) && AllSpace(a) && j < |a|
    ensures !OccursAt(a + t, marker, j)
  {
    assert a[j] in a;
    Differs(a + t, marker, j, j);
  }

  lemma {:induction false} OccursShifted(a: string, marker: string, t: string, j: nat)
    ensures OccursAt(a + t, marker, |a| + j) <==> OccursAt(t, marker, j)
  {
    if j + |marker| <= |t| {
      assert (a + t)[|a| + j..|a| + j + |marker|] == t[j..j + |marker|];
    }
  }

  /** No occurrence ends in white space after a text. */
  lemma {:induction false} NoneInWhiteBack(t: string, marker: string, b: string, j: nat)
    requires Solid(marker) && AllSpace(b) && !OccursAt(t, marker, j)
    ensures !OccursAt(t + b, marker, j)
  {
    if j + |marker| <= |t| {
      assert (t + b)[j..j + |marker|] == t[j..j + |marker|];
    } else if j + |marker| <= |t + b| {
      var p := j + |marker| - 1;
      assert b[p - |t|] in b;
      Differs(t + b, marker, j, p);
    }
  }

  lemma {:induction false} IndexAfterLine(t: string, marker: string, rest: string)
    requires marker != "" && NoNewline(marker) && !Has(t, marker)
    ensures Index(t + "\n" + rest, marker) == (if Has(rest, marker) then |t| + 1 + Index(rest, marker) else -1)
  {
    var s := t + "\n" + rest;
    forall j | 0 <= j <= |t| ensures !OccursAt(s, marker, j) {
      NoneStraddles(t, marker, rest, j);
    }
    forall j | 0 <= j <= |rest| ensures OccursAt(s, marker, |t| + 1 + j) <==> OccursAt(rest, marker, j) {
      if j + |marker| <= |rest| {
        assert s[|t| + 1 + j..|t| + 1 + j + |marker|] == rest[j..j + |marker|];
      }
    }
    if Has(rest, marker) {
      var k := Index(rest, marker);
      assert k != -1;
      forall j | 0 <= j < |t| + 1 + k ensures !OccursAt(s, marker, j) {
        if j > |t| {
          assert !OccursAt(rest, marker, j - |t| - 1);
        }
      }
      IndexIs(s, marker, |t| + 1 + k);
    } else {
      forall j | 0 <= j <= |s| ensures !OccursAt(s, marker, j) {
        if j > |t| {
          assert !OccursAt(rest, marker, j - |t| - 1);
        }
      }
      IndexNone(s, marker);
    }
  }

  lemma {:induction false} NoMarkerNoItems<T>(marker: string, read: Reader<T>, s: string)
    requires !Has(s, marker)
    ensures Parse(marker, read, s) == []
  {
  }

  lemma {:induction false} ParseFromMarker<T>(marker: string, read: Reader<T>, rest: string)
    ensures Parse(marker, read, marker + rest) == ParseSection(read, rest)
  {
    assert (marker + rest)[..|marker|] == marker && (marker + rest)[|marker|..] == rest;
    assert (marker + rest)[0..0 + |marker|] == marker;
    IndexIs(marker + rest, marker, 0);
  }

  lemma {:induction false} ParseAt<T>(marker: string, read: Reader<T>, s: string, k: nat, section: string)
    requires Index(s, marker) == k && k + |marker| <= |s| && s[k + |marker|..] == section
    ensures Parse(marker, read, s) == ParseSection(read, section)
  {
  }

  /** What follows a text with a marker is read as more of its section ... */
  lemma {:induction false} ParseOn<T>(marker: string, read: Reader<T>, t: string, rest: string)
    requires Has(t, marker)
    ensures Parse(marker, read, t + "\n" + rest) == Parse(marker, read, t) + ParseSection(read, rest)
  {
    var k := Index(t, marker);
    IndexInPrefix(t, marker, "\n" + rest);
    LineConcat(t, rest);
    var section := t[k + |marker|..];
    assert (t + "\n" + rest)[k + |marker|..] == section + "\n" + rest;
    ParseAt(marker, read, t + "\n" + rest, k, section + "\n" + rest);
    ParseAt(marker, read, t, k, section);
    SectionConcat(read, section, rest);
  }

  lemma {:induction false} LineConcat(t: string, rest: string)
    ensures t + ("\n" + rest) == t + "\n" + rest
  {
  }

  /** ... and what follows one without is read for itself. */
  lemma {:induction false} ParseAfter<T>(marker: string, read: Reader<T>, t: string, rest: string)
    requires marker != "" && NoNewline(marker) && !Has(t, marker)
    ensures Parse(marker, read, t + "\n" + rest) == Parse(marker, read, rest)
  {
    IndexAfterLine(t, marker, rest);
    if Has(rest, marker) {
      var k := Index(rest, marker);
      var section := rest[k + |marker|..];
      assert (t + "\n" + rest)[|t| + 1 + k + |marker|..] == section;
      ParseAt(marker, read, t + "\n" + rest, |t| + 1 + k, section);
      ParseAt(marker, read, rest, k, section);
    }
  }

  // ---------- the report is found again ----------

  /** White space around a summary does not change what is read from it. */
  lemma {:induction false} ParseTrimmed<T>(marker: string, read: Reader<T>, s: string)
    requires Solid(marker) && read("") == []
    ensures Parse(marker, read, Trim(s)) == Parse(marker, read, s)
    ensures Has(Trim(s), marker) <==> Has(s, marker)
  {
    var a, b := TrimParts(s);
    var t := Trim(s);
    WhiteFront(marker, read, a, t + b);
    assert a + (t + b) == s;
    WhiteBack(marker, read, t, b);
  }

  lemma {:induction false} IndexWhiteFront(marker: string, a: string, t: string)
    requires Solid(marker) && AllSpace(a)
    ensures Index(a + t, marker) == if Has(t, marker) then |a| + Index(t, marker) else -1
  {
    var s := a + t;
    forall j | 0 <= j < |a| ensures !OccursAt(s, marker, j) {
      NoneInWhiteFront(a, marker, t, j);
    }
    if Has(t, marker) {
      var k := Index(t, marker);
      assert k != -1;
      OccursShifted(a, marker, t, k);
      forall j | |a| <= j < |a| + k ensures !OccursAt(s, marker, j) {
        OccursShifted(a, marker, t, j - |a|);
      }
      IndexIs(s, marker, |a| + k);
    } else {
      forall j | |a| <= j <= |s| ensures !OccursAt(s, marker, j) {
        OccursShifted(a, marker, t, j - |a|);
      }
      IndexNone(s, marker);
    }
  }

  lemma {:induction false} WhiteFront<T>(marker: string, read: Reader<T>, a: string, t: string)
    requires Solid(marker) && AllSpace(a)
    ensures Parse(marker, read, a + t) == Parse(marker, read, t)
    ensures Has(a + t, marker) <==> Has(t, marker)
  {
    IndexWhiteFront(marker, a, t);
    if Has(t, marker) {
      var k := Index(t, marker);
      var section := t[k + |marker|..];
      assert (a + t)[|a| + k + |marker|..] == section;
      ParseAt(marker, read, a + t, |a| + k, section);
      ParseAt(marker, read, t, k, section);
    }
  }

  lemma {:induction false} IndexWhiteBack(marker: string, t: string, b: string)
    requires Solid(marker) && AllSpace(b)
    ensures Index(t + b, marker) == Index(t, marker)
  {
    if Has(t, marker) {
      IndexInPrefix(t, marker, b);
    } else {
      forall j | 0 <= j <= |t + b| ensures !OccursAt(t + b, marker, j) {
        NoneInWhiteBack(t, marker, b, j);
      }
      IndexNone(t + b, marker);
    }
  }

  lemma {:induction false} WhiteBack<T>(marker: string, read: Reader<T>, t: string, b: string)
    requires Solid(marker) && AllSpace(b) && read("") == []
    ensures Parse(marker, read, t + b) == Parse(marker, read, t)
    ensures Has(t + b, marker) <==> Has(t, marker)
  {
    IndexWhiteBack(marker, t, b);
    if Has(t, marker) {
      var k := Index(t, marker);
      var section := t[k + |marker|..];
      assert (t + b)[k + |marker|..] == section + b;
      ParseAt(marker, read, t + b, k, section + b);
      ParseAt(marker, read, t, k, section);
      WhiteTail(read, section, b);
    }
  }

  /** The text of a report: the marker on a line of its own, and the lines. */
  function Report(marker: string, lines: seq<string>): string
    requires lines != []
  {
    marker + ("\n" + Joined(lines, 0))
  }

  lemma {:induction false} AttachedReport(marker: string, summary: string, lines: seq<string>)
    requires Solid(marker) && lines != [] && AllSolid(lines)
    ensures var t := Trim(summary);
            Attach(marker, summary, lines)
            == if t == "" then Report(marker, lines) else t + "\n" + ("\n" + Report(marker, lines))
  {
    AttachedText(marker, summary, lines);
  }

  /** Attaching a report appends exactly its lines to what the text is read as:
      whatever the summary held, markers and readable lines included, stays. */
  lemma {:induction false} AttachAppends<T>(marker: string, read: Reader<T>, summary: string, lines: seq<string>)
    requires Solid(marker) && AllSolid(lines)
    requires read("") == [] && read(marker) == []
    ensures Parse(marker, read, Attach(marker, summary, lines)) == Parse(marker, read, summary) + ItemsOf(read, lines)
  {
    if lines != [] {
      AttachedReport(marker, summary, lines);
      ParseTrimmed(marker, read, summary);
      ReportAppends(marker, read, Trim(summary), lines);
    }
  }

  lemma {:induction false} ReportAppends<T>(marker: string, read: Reader<T>, t: string, lines: seq<string>)
    requires Solid(marker) && lines != [] && AllSolid(lines)
    requires read("") == [] && read(marker) == []
    ensures Parse(marker, read, if t == "" then Report(marker, lines) else t + "\n" + ("\n" + Report(marker, lines)))
            == Parse(marker, read, t) + ItemsOf(read, lines)
  {
    if Has(t, marker) {
      ParseOn(marker, read, t, "\n" + Report(marker, lines));
      BlankAndMarker(marker, read, lines);
      IndexInPrefix(t, marker, "");
    } else {
      NoMarkerNoItems(marker, read, t);
      SectionAfterMarker(marker, read, lines);
      if t != "" {
        ParseAfter(marker, read, t, "\n" + Report(marker, lines));
        BlankThenReport(marker, read, lines);
      }
    }
  }

  lemma {:induction false} BlankThenReport<T>(marker: string, read: Reader<T>, lines: seq<string>)
    requires Solid(marker) && lines != [] && AllSolid(lines) && read("") == []
    ensures Parse(marker, read, "\n" + Report(marker, lines)) == ItemsOf(read, lines)
  {
    assert "" + "\n" + Report(marker, lines) == "\n" + Report(marker, lines);
    ParseAfter(marker, read, "", Report(marker, lines));
    SectionAfterMarker(marker, read, lines);
  }

  lemma {:induction false} SectionAfterMarker<T>(marker: string, read: Reader<T>, lines: seq<string>)
    requires lines != [] && AllSolid(lines) && read("") == []
    ensures Parse(marker, read, Report(marker, lines)) == ItemsOf(read, lines)
  {
    ParseFromMarker(marker, read, "\n" + Joined(lines, 0));
    assert "" + "\n" + Joined(lines, 0) == "\n" + Joined(lines, 0);
    SectionConcat(read, "", Joined(lines, 0));
    SectionOfLine(read, "");
    JoinedReadsBack(read, lines, 0);
    assert lines[0..] == lines;
  }

  /** Read as lines of an earlier section, the blank line and the marker are nothing. */
  lemma {:induction false} BlankAndMarker<T>(marker: string, read: Reader<T>, lines: seq<string>)
    requires Solid(marker) && lines != [] && AllSolid(lines) && read("") == [] && read(marker) == []
    ensures ParseSection(read, "\n" + Report(marker, lines)) == ItemsOf(read, lines)
  {
    var joined := Joined(lines, 0);
    assert "\n" + (marker + ("\n" + joined)) == "" + "\n" + (marker + "\n" + joined);
    SectionConcat(read, "", marker + "\n" + joined);
    SectionConcat(read, marker, joined);
    SectionOfLine(read, "");
    SectionOfLine(read, marker);
    TrimSolid(marker);
    JoinedReadsBack(read, lines, 0);
    assert lines[0..] == lines;
  }
}
