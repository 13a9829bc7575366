/** The printer that appends tool traces to a summary and the parser that reads
    them back out of the text. */
module TraceSummary {
  import opened Options
  import opened Text
  import opened Pattern
  import LineReport

  datatype ToolTrace = ToolTrace(step: int, tool: string, success: bool, durationMs: int, preview: string)

  datatype Item = Item(step: int, tool: string, status: string, latencyMs: int, preview: string)

  const MARKER := "工具调用轨迹:"
  const MAX_INT64 := 0x7FFF_FFFF_FFFF_FFFF

  function Status(success: bool): string { if success then "ok" else "error" }

  function ToItem(t: ToolTrace): Item {
    Item(t.step, t.tool, Status(t.success), t.durationMs, t.preview)
  }

  function ToItems(traces: seq<ToolTrace>): seq<Item> {
    seq(|traces|, i requires 0 <= i < |traces| => ToItem(traces[i]))
  }

  // ---------- previews ----------

  /** The bytes a character takes in UTF-8. */
  function Utf8Len(c: char): nat {
    if c as int < 0x80 then 1 else if c as int < 0x800 then 2 else if c as int < 0x1_0000 then 3 else 4
  }

  function ByteLen(s: string): nat {
    if s == "" then 0 else Utf8Len(s[0]) + ByteLen(s[1..])
  }

  const STRAY := '\U{FFFD}'

  /** The first n bytes. A character cut in two leaves stray bytes, each of which
      reads as one replacement character. */
  function ByteTake(s: string, n: nat): string
    requires n <= ByteLen(s)
  {
    if n == 0 then ""
    else if Utf8Len(s[0]) <= n then [s[0]] + ByteTake(s[1..], n - Utf8Len(s[0]))
    else seq(n, _ => STRAY)
  }

  function Flatten(s: string): string {
    if s == "" then "" else [if s[0] == '\n' then ' ' else s[0]] + Flatten(s[1..])
  }

  function ShortPreview(s: string, max: int): string {
    var flat := Flatten(Trim(s));
    if max <= 0 || ByteLen(flat) <= max then flat else ByteTake(flat, max) + "..."
  }

  lemma {:induction false} FlattenPointwise(s: string)
    ensures |Flatten(s)| == |s|
    ensures forall i :: 0 <= i < |s| ==> Flatten(s)[i] == if s[i] == '\n' then ' ' else s[i]
  {
    if s == "" {
    } else {
      FlattenPointwise(s[1..]);
    }
  }

  lemma {:induction false} ByteTakeNoNewline(s: string, n: nat)
    requires n <= ByteLen(s) && NoNewline(s)
    ensures NoNewline(ByteTake(s, n))
  {
    if n == 0 || Utf8Len(s[0]) > n {
    } else {
      assert s[0] in s;
      ByteTakeNoNewline(s[1..], n - Utf8Len(s[0]));
    }
  }

  /** A cut preview is whole characters of the text, fewer than four stray bytes,
      and no shorter than the bytes it may take. */
  lemma {:induction false} ByteTakeIsPrefix(s: string, n: nat) returns (k: nat)
    requires n <= ByteLen(s)
    ensures k <= |s| && ByteLen(s[..k]) <= n < ByteLen(s[..k]) + 4
    ensures k < |s| ==> n < ByteLen(s[..k + 1])
    ensures ByteTake(s, n) == s[..k] + seq(n - ByteLen(s[..k]), _ => STRAY)
  {
    if n > 0 && Utf8Len(s[0]) <= n {
      var k' := ByteTakeIsPrefix(s[1..], n - Utf8Len(s[0]));
      k := k' + 1;
      assert s[..k][1..] == s[1..][..k'];
      assert k < |s| ==> s[..k + 1][1..] == s[1..][..k' + 1];
    } else {
      k := 0;
      assert s != "" ==> s[..1][1..] == "";
    }
  }

  /** The trimmed text with spaces for line ends. */
  ghost predicate OnOneLine(s: string, flat: string) {
    var t := Trim(s);
    |flat| == |t| && forall i :: 0 <= i < |t| ==> flat[i] == if t[i] == '\n' then ' ' else t[i]
  }

  /** A preview is that text if it is short enough, else as many whole characters of it as
      the bytes allow, what is left of the next one, and three dots. */
  lemma {:induction false} PreviewIs(s: string, max: int) returns (flat: string, k: nat)
    ensures OnOneLine(s, flat) && k <= |flat|
    ensures max <= 0 || ByteLen(flat) <= max ==> ShortPreview(s, max) == flat
    ensures 0 < max < ByteLen(flat) ==>
              && ByteLen(flat[..k]) <= max < ByteLen(flat[..k]) + 4
              && (k < |flat| ==> max < ByteLen(flat[..k + 1]))
              && ShortPreview(s, max) == flat[..k] + seq(max - ByteLen(flat[..k]), _ => STRAY) + "..."
  {
    flat := Flatten(Trim(s));
    FlattenPointwise(Trim(s));
    k := 0;
    if 0 < max < ByteLen(flat) {
      k := ByteTakeIsPrefix(flat, max);
    }
  }

  /** A preview is one line that does not end in white space, wherever it is cut. */
  lemma {:induction false} PreviewIsPrintable(s: string, max: int)
    ensures NoNewline(ShortPreview(s, max)) && EndsSolid(ShortPreview(s, max))
  {
    var t := Trim(s);
    var flat := Flatten(t);
    TrimSolid(s);
    FlattenPointwise(t);
    if !(max <= 0 || ByteLen(flat) <= max) {
      ByteTakeNoNewline(flat, max);
    }
  }

  // ---------- the printer ----------

  /** The number of the line, and then each field of the trace after its name; the fixed
      texts are cut at their blanks. */
  function LinePieces(number: nat, t: ToolTrace): seq<string> {
    [Decimal(number), ".", " ", "step=", IntString(t.step), " ", "tool=", t.tool, " ", "status=", Status(t.success),
     " ", "latency=", IntString(t.durationMs), "ms", " ", "preview=", t.preview]
  }

  function Line(number: nat, t: ToolTrace): string { Concat(LinePieces(number, t)) }

  function Lines(traces: seq<ToolTrace>): seq<string> {
    seq(|traces|, i requires 0 <= i < |traces| => Line(i + 1, traces[i]))
  }

  function Attach(summary: string, traces: seq<ToolTrace>): string {
    LineReport.Attach(MARKER, summary, Lines(traces))
  }

  /** A line in full. */
  function LineText(number: nat, t: ToolTrace): string {
    (Decimal(number) + ". step=") + (IntString(t.step) + " tool=" + t.tool)
    + (" status=" + (if t.success then "ok" else "error") + " ")
    + ("latency=" + IntString(t.durationMs) + "ms") + (" preview=" + t.preview)
  }

  lemma {:induction false} LineIsText(number: nat, t: ToolTrace)
    ensures Line(number, t) == LineText(number, t)
  {
    var ps := LinePieces(number, t);
    assert ps == ps[..4] + ps[4..8] + ps[8..12] + ps[12..15] + ps[15..];
    ConcatAll(ps[..4] + ps[4..8] + ps[8..12] + ps[12..15], ps[15..]);
    ConcatAll(ps[..4] + ps[4..8] + ps[8..12], ps[12..15]);
    ConcatAll(ps[..4] + ps[4..8], ps[8..12]);
    ConcatAll(ps[..4], ps[4..8]);
    ConcatFour(ps[0], ps[1], ps[2], ps[3]);
    ConcatFour(ps[4], ps[5], ps[6], ps[7]);
    ConcatFour(ps[8], ps[9], ps[10], ps[11]);
    ConcatFour(ps[12], ps[13], ps[14], "");
    ConcatFour(ps[15], ps[16], ps[17], "");
    assert ps[..4] == [ps[0], ps[1], ps[2], ps[3]];
    assert ps[4..8] == [ps[4], ps[5], ps[6], ps[7]];
    assert ps[8..12] == [ps[8], ps[9], ps[10], ps[11]];
    assert ps[12..15] == [ps[12], ps[13], ps[14]];
    assert ps[15..] == [ps[15], ps[16], ps[17]];
    LineParts(number, t);
  }

  lemma {:induction false} LineParts(number: nat, t: ToolTrace)
    ensures LineText(number, t)
            == (Decimal(number) + "." + " " + "step=") + (IntString(t.step) + " " + "tool=" + t.tool)
               + (" " + "status=" + Status(t.success) + " ") + ("latency=" + IntString(t.durationMs) + "ms")
               + (" " + "preview=" + t.preview)
  {
    var n, i := Decimal(number), IntString(t.step);
    assert n + "." + " " + "step=" == n + ". step=";
    assert i + " " + "tool=" + t.tool == i + " tool=" + t.tool;
    assert " " + "status=" + Status(t.success) + " " == " status=" + Status(t.success) + " ";
    assert " " + "preview=" + t.preview == " preview=" + t.preview;
  }

  method AttachToolTraceSummary(summary: string, traces: seq<ToolTrace>) returns (text: string)
    ensures text == Attach(summary, traces)
  {
    if |traces| == 0 {
      return summary;
    }
    var b := Trim(summary);
    if |b| > 0 {
      b := b + "\n\n";
    }
    b := b + MARKER + "\n";
    ghost var lines, start := Lines(traces), b;
    for i := 0 to |traces|
      invariant b + LineReport.Body(lines, i) == start + LineReport.Body(lines, 0)
    {
      LineReport.BodyStep(b, lines, i);
      b := b + Line(i + 1, traces[i]) + "\n";
    }
    assert b + "" == b;
    return Trim(b);
  }

  // ---------- the parser ----------

  /** A numbered line with five named fields: two numbers, two words and, to the end of
      the line, a preview. Blanks between them are one or more. */
  const TRACE_LINE: seq<Token> :=
    [Plus(Digit), Lit("."), Plus(Blank), Lit("step="), Plus(Digit), Plus(Blank), Lit("tool="), Plus(Ink),
     Plus(Blank), Lit("status="), Plus(Ink), Plus(Blank), Lit("latency="), Plus(Digit), Lit("ms"), Plus(Blank),
     Lit("preview="), Rest]

  /** The groups of a match. */
  datatype Groups = Groups(step: string, tool: string, status: string, latency: string, preview: string)

  function MatchTraceLine(line: string): (r: Option<Groups>)
    ensures r.Some? ==> AllDigits(r.value.step) && AllDigits(r.value.latency)
  {
    match Match(TRACE_LINE, line)
    case None => None
    case Some(ps) =>
      MatchSound(TRACE_LINE, line);
      assert TRACE_LINE[4] == Plus(Digit) && TRACE_LINE[13] == Plus(Digit);
      Some(Groups(ps[4], ps[7], ps[10], ps[13], ps[17]))
  }

  /** What a trimmed line yields: an item, if it is not empty, matches, and its
      numbers fit in 64 bits. */
  function LineItems(line: string): seq<Item> {
    if line == "" then []
    else
      match MatchTraceLine(line)
      case None => []
      case Some(g) =>
        if Value(g.step) > MAX_INT64 || Value(g.latency) > MAX_INT64 then []
        else [Item(Value(g.step), g.tool, g.status, Value(g.latency), g.preview)]
  }

  function Parse(summary: string): seq<Item> {
    LineReport.Parse(MARKER, LineItems, summary)
  }

  method ParseTraceFromSummary(summary: string) returns (items: seq<Item>)
    ensures items == Parse(summary)
  {
    LineReport.ParseOfSection(MARKER, LineItems, summary);
    var idx := Index(summary, MARKER);
    if idx < 0 {
      return [];
    }
    var section := summary[idx + |MARKER|..];
    items := ReadLines(SplitLines(section));
  }

  /** The loop over the lines of the section. */
  method ReadLines(lines: seq<string>) returns (items: seq<Item>)
    ensures items == LineReport.ItemsOf(LineItems, lines)
  {
    items := [];
    for i := 0 to |lines|
      invariant items + LineReport.ItemsOf(LineItems, lines[i..]) == LineReport.ItemsOf(LineItems, lines)
    {
      LineReport.ItemsStep(LineItems, items, lines, i);
      var found := ReadLine(lines[i]);
      items := items + found;
    }
    assert items + [] == items;
  }

  /** One round of the loop: no item or one. */
  method ReadLine(raw: string) returns (items: seq<Item>)
    ensures items == LineItems(Trim(raw))
  {
    var line := Trim(raw);
    if line == "" {
      return [];
    }
    var m := MatchTraceLine(line);
    if m.None? {
      return [];
    }
    var step, latency := Value(m.value.step), Value(m.value.latency);
    if step > MAX_INT64 || latency > MAX_INT64 {
      return [];
    }
    return [Item(step, m.value.tool, m.value.status, latency, m.value.preview)];
  }

  // ---------- a printed trace reads back ----------

  predicate NoBlanks(s: string) { AllIn(Ink, s) }

  predicate In64(n: int) { 0 <= n <= MAX_INT64 }

  /** The traces whose line says what they are: a tool name without blanks, numbers
      that are not negative and fit in 64 bits, a preview on one line that does not
      end in white space. */
  predicate Printable(t: ToolTrace) {
    && t.tool != "" && NoBlanks(t.tool)
    && In64(t.step) && In64(t.durationMs)
    && NoNewline(t.preview) && EndsSolid(t.preview)
  }

  lemma {:induction false} PatternSeparated()
    ensures Separated(TRACE_LINE)
  {
    forall i | 0 <= i < 17 && TRACE_LINE[i].Plus? ensures EndsAt(TRACE_LINE[i].run, TRACE_LINE[i + 1]) {
      RunEndsAt(i);
    }
  }

  lemma {:induction false} RunEndsAt(i: nat)
    requires i < 17 && TRACE_LINE[i].Plus?
    ensures EndsAt(TRACE_LINE[i].run, TRACE_LINE[i + 1])
  {
  }

  lemma {:induction false} PrintedPiecesAdmitted(number: nat, t: ToolTrace)
    requires Printable(t)
    ensures MatchesAs(TRACE_LINE, Line(number, t), LinePieces(number, t))
  {
    var ps := LinePieces(number, t);
    forall i | 0 <= i < 18 ensures Admits(TRACE_LINE[i], ps[i]) {
      PieceAdmitted(number, t, i);
    }
  }

  lemma {:induction false} PieceAdmitted(number: nat, t: ToolTrace, i: nat)
    requires Printable(t) && i < 18
    ensures Admits(TRACE_LINE[i], LinePieces(number, t)[i])
  {
  }

  lemma {:induction false} PrintedLineMatches(number: nat, t: ToolTrace)
    requires Printable(t)
    ensures MatchTraceLine(Line(number, t))
            == Some(Groups(Decimal(t.step), t.tool, Status(t.success), Decimal(t.durationMs), t.preview))
  {
    PatternSeparated();
    PrintedPiecesAdmitted(number, t);
    MatchComplete(TRACE_LINE, Line(number, t), LinePieces(number, t));
  }

  lemma {:induction false} PrintedLineReadsBack(number: nat, t: ToolTrace)
    requires Printable(t)
    ensures LineItems(Line(number, t)) == [ToItem(t)]
    ensures ToItem(t) == Item(t.step, t.tool, if t.success then "ok" else "error", t.durationMs, t.preview)
  {
    PrintedLineMatches(number, t);
    PrintedLineStarts(number, t);
    ValueOfDecimal(t.step);
    ValueOfDecimal(t.durationMs);
  }

  lemma {:induction false} PrintedLineStarts(number: nat, t: ToolTrace)
    ensures Line(number, t) != "" && StartsSolid(Line(number, t))
  {
    assert Decimal(number)[0] in Decimal(number);
  }

  lemma {:induction false} PrintedLineEnds(number: nat, t: ToolTrace)
    requires Printable(t)
    ensures EndsSolid(Line(number, t))
  {
    var ps := LinePieces(number, t);
    ConcatLast(ps[..16], ps[16], ps[17]);
    assert ps == ps[..16] + [ps[16], ps[17]];
  }

  lemma {:induction false} PieceIsOne(number: nat, t: ToolTrace, i: nat)
    requires Printable(t) && i < |LinePieces(number, t)|
    ensures NoNewline(LinePieces(number, t)[i])
  {
  }

  lemma {:induction false} PrintedLineIsOne(number: nat, t: ToolTrace)
    requires Printable(t)
    ensures NoNewline(Line(number, t))
  {
    var pieces := LinePieces(number, t);
    forall i | 0 <= i < |pieces| ensures NoNewline(pieces[i]) {
      PieceIsOne(number, t, i);
    }
    ConcatNoNewline(pieces);
  }

  /** The line of a printable trace survives cutting and trimming. */
  lemma {:induction false} PrintedLineSolid(number: nat, t: ToolTrace)
    requires Printable(t)
    ensures LineReport.Solid(Line(number, t))
    ensures Trim(Line(number, t)) == Line(number, t)
  {
    PrintedLineStarts(number, t);
    PrintedLineEnds(number, t);
    PrintedLineIsOne(number, t);
    TrimSolid(Line(number, t));
  }

  predicate AllPrintable(traces: seq<ToolTrace>) {
    forall i :: 0 <= i < |traces| ==> Printable(traces[i])
  }

  lemma {:induction false} LinesSolid(traces: seq<ToolTrace>)
    requires AllPrintable(traces)
    ensures LineReport.AllSolid(Lines(traces))
  {
    var lines := Lines(traces);
    forall i | 0 <= i < |lines| ensures LineReport.Solid(lines[i]) {
      PrintedLineSolid(i + 1, traces[i]);
    }
  }

  lemma {:induction false} LinesReadBack(traces: seq<ToolTrace>)
    requires AllPrintable(traces)
    ensures LineReport.ItemsOf(LineItems, Lines(traces)) == ToItems(traces)
  {
    forall i | 0 <= i < |traces| ensures LineItems(Trim(Lines(traces)[i])) == [ToItems(traces)[i]] {
      PrintedLineSolid(i + 1, traces[i]);
      PrintedLineReadsBack(i + 1, traces[i]);
    }
    LineReport.ItemsOfEach(LineItems, Lines(traces), ToItems(traces));
  }

  lemma {:induction false} MarkerIsNoTrace()
    ensures LineReport.Solid(MARKER) && LineItems(MARKER) == [] && LineItems("") == []
  {
    assert Run(Digit, MARKER) == "";
    assert Match(TRACE_LINE, MARKER) == None;
  }

  /** The text of a summary with traces: the trimmed summary and a blank line, unless it is
      blank, the marker, and the traces, numbered from 1, each on a line. */
  lemma {:induction false} AttachedSummary(summary: string, traces: seq<ToolTrace>) returns (lines: seq<string>)
    requires AllPrintable(traces) && traces != []
    ensures |lines| == |traces| && forall i :: 0 <= i < |traces| ==> lines[i] == LineText(i + 1, traces[i])
    ensures Attach(summary, traces)
            == (if Trim(summary) == "" then "" else Trim(summary) + "\n\n")
               + MARKER + "\n" + LineReport.Joined(lines, 0)
  {
    lines := Lines(traces);
    forall i | 0 <= i < |traces| ensures lines[i] == LineText(i + 1, traces[i]) {
      LineIsText(i + 1, traces[i]);
    }
    LinesSolid(traces);
    MarkerIsNoTrace();
    LineReport.AttachedText(MARKER, summary, lines);
  }

  /** The round trip. For printable traces, reading back what was attached gives what
      the summary was read as before, and then exactly the traces, in order. */
  lemma {:induction false} AttachThenParse(summary: string, traces: seq<ToolTrace>)
    requires AllPrintable(traces)
    ensures Parse(Attach(summary, traces)) == Parse(summary) + ToItems(traces)
  {
    LinesSolid(traces);
    LinesReadBack(traces);
    MarkerIsNoTrace();
    LineReport.AttachAppends(MARKER, LineItems, summary, Lines(traces));
  }

  // ---------- and only such traces read back ----------

  predicate Readable(it: Item) {
    && it.tool != "" && NoBlanks(it.tool) && In64(it.step) && In64(it.latencyMs)
    && NoNewline(it.preview) && EndsSolid(it.preview)
  }

  lemma {:induction false} LineItemsReadable(line: string)
    requires EndsSolid(line)
    ensures forall it :: it in LineItems(line) ==> Readable(it)
  {
    var m := Match(TRACE_LINE, line);
    if m.Some? {
      MatchSound(TRACE_LINE, line);
      var ps := m.value;
      assert TRACE_LINE[7] == Plus(Ink) && TRACE_LINE[16] == Lit("preview=") && TRACE_LINE[17] == Rest;
      PreviewEndsLine(line, ps);
    }
  }

  lemma {:induction false} PreviewEndsLine(line: string, ps: seq<string>)
    requires |ps| == 18 && line == Concat(ps) && EndsSolid(line)
    ensures EndsSolid(ps[17])
  {
    assert ps == ps[..16] + [ps[16], ps[17]];
    ConcatLast(ps[..16], ps[16], ps[17]);
    if ps[17] != "" {
      assert line[|line| - 1] == ps[17][|ps[17]| - 1];
    }
  }

  lemma {:induction false} ItemsReadable(lines: seq<string>)
    ensures forall it :: it in LineReport.ItemsOf(LineItems, lines) ==> Readable(it)
  {
    if lines == [] {
    } else {
      ItemsReadable(lines[1..]);
      TrimSolid(lines[0]);
      LineItemsReadable(Trim(lines[0]));
    }
  }

  lemma {:induction false} ParsedIsReadable(summary: string)
    ensures forall it :: it in Parse(summary) ==> Readable(it)
  {
    var i := Index(summary, MARKER);
    if i >= 0 {
      ItemsReadable(SplitLines(summary[i + |MARKER|..]));
    }
  }

  /** The condition is exact: the traces come back if and only if all are printable. */
  lemma {:induction false} RoundTripExactly(summary: string, traces: seq<ToolTrace>)
    ensures Parse(Attach(summary, traces)) == Parse(summary) + ToItems(traces) <==> AllPrintable(traces)
  {
    if AllPrintable(traces) {
      AttachThenParse(summary, traces);
    }
    if Parse(Attach(summary, traces)) == Parse(summary) + ToItems(traces) {
      ParsedIsReadable(Attach(summary, traces));
      forall i | 0 <= i < |traces| ensures Printable(traces[i]) {
        assert ToItems(traces)[i] == ToItem(traces[i]);
        assert ToItem(traces[i]) in Parse(summary) + ToItems(traces);
      }
    }
  }

  /** A summary that does not contain the marker adds nothing of its own. */
  lemma {:induction false} MarkerFreeRoundTrip(summary: string, traces: seq<ToolTrace>)
    requires !LineReport.Has(summary, MARKER)
    ensures Parse(Attach(summary, traces)) == ToItems(traces) <==> AllPrintable(traces)
  {
    RoundTripExactly(summary, traces);
    LineReport.NoMarkerNoItems(MARKER, LineItems, summary);
    assert Parse(summary) + ToItems(traces) == ToItems(traces);
  }
}
