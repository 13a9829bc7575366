/** Patterns that are a sequence of literals and repeated character classes, and a
    greedy matcher for them. */
module Pattern {
  import opened Options
  import opened Text

  /** Digit is \d, Blank is \s, Ink is [^\s]. */
  datatype Class = Digit | Blank | Ink

  predicate IsBlank(ch: char) { ch == ' ' || ch == '\t' || ch == '\n' || ch == '\U{0C}' || ch == '\r' }

  predicate InClass(c: Class, ch: char) {
    match c
    case Digit => IsDigit(ch)
    case Blank => IsBlank(ch)
    case Ink => !IsBlank(ch)
  }

  /** A literal text, one or more characters of a class, or .* */
  datatype Token = Lit(text: string) | Plus(run: Class) | Rest

  predicate AllIn(c: Class, s: string) { forall ch :: ch in s ==> InClass(c, ch) }

  /** Whether the piece is one the token stands for. */
  predicate Admits(t: Token, piece: string) {
    match t
    case Lit(text) => piece == text
    case Plus(c) => piece != "" && AllIn(c, piece)
    case Rest => NoNewline(piece)
  }

  /** What it means for a pattern to match a text: the text falls apart into pieces,
      one for each token, and each token admits its piece. */
  ghost predicate MatchesAs(tokens: seq<Token>, s: string, pieces: seq<string>) {
    && |pieces| == |tokens|
    && s == Concat(pieces)
    && forall i :: 0 <= i < |tokens| ==> Admits(tokens[i], pieces[i])
  }

  /** The longest prefix of characters in the class. */
  function Run(c: Class, s: string): (r: string)
    ensures r <= s && AllIn(c, r)
    ensures |r| < |s| ==> !InClass(c, s[|r|])
  {
    if s != "" && InClass(c, s[0]) then [s[0]] + Run(c, s[1..]) else ""
  }

  function Prepend(piece: string, rest: Option<seq<string>>): Option<seq<string>> {
    if rest.None? then None else Some([piece] + rest.value)
  }

  /** Reads every token greedily, once, without ever going back. */
  function Match(tokens: seq<Token>, s: string): Option<seq<string>> {
    if tokens == [] then (if s == "" then Some([]) else None)
    else
      match tokens[0]
      case Lit(text) => if text <= s then Prepend(text, Match(tokens[1..], s[|text|..])) else None
      case Plus(c) =>
        var run := Run(c, s);
        if run == "" then None else Prepend(run, Match(tokens[1..], s[|run|..]))
      case Rest => if NoNewline(s) then Prepend(s, Match(tokens[1..], "")) else None
  }

  predicate Apart(c: Class, d: Class) {
    c != d && (c.Blank? || d.Blank?)
  }

  /** A run ends where the next token begins: no character of its class starts that. */
  predicate EndsAt(c: Class, next: Token) {
    match next
    case Lit(text) => text != "" && !InClass(c, text[0])
    case Plus(d) => Apart(c, d)
    case Rest => false
  }

  /** Greed loses nothing: every run ends where the next token begins, and `.*`
      comes last. */
  predicate Separated(tokens: seq<Token>) {
    && (forall i :: 0 <= i < |tokens| - 1 && tokens[i].Plus? ==> EndsAt(tokens[i].run, tokens[i + 1]))
    && (forall i :: 0 <= i < |tokens| && tokens[i].Rest? ==> i == |tokens| - 1)
  }

  lemma {:induction false} MatchSound(tokens: seq<Token>, s: string)
    requires Match(tokens, s).Some?
    ensures MatchesAs(tokens, s, Match(tokens, s).value)
  {
    if tokens == [] {
    } else {
      match tokens[0]
      case Lit(text) =>
        MatchSound(tokens[1..], s[|text|..]);
        Reassemble(text, s, Match(tokens[1..], s[|text|..]).value);
      case Plus(c) =>
        var run := Run(c, s);
        MatchSound(tokens[1..], s[|run|..]);
        Reassemble(run, s, Match(tokens[1..], s[|run|..]).value);
      case Rest =>
        MatchSound(tokens[1..], "");
        assert s[|s|..] == "";
        Reassemble(s, s, Match(tokens[1..], "").value);
    }
  }

  lemma {:induction false} Reassemble(piece: string, s: string, rest: seq<string>)
    requires piece <= s && s[|piece|..] == Concat(rest)
    ensures Concat([piece] + rest) == s
  {
    assert ([piece] + rest)[1..] == rest;
    assert s == piece + s[|piece|..];
  }

  lemma {:induction false} RunConcat(c: Class, run: string, rest: string)
    requires AllIn(c, run) && (rest == "" || !InClass(c, rest[0]))
    ensures Run(c, run + rest) == run
  {
    if run == "" {
      assert run + rest == rest;
    } else {
      assert run[0] in run;
      assert (run + rest)[1..] == run[1..] + rest;
      RunConcat(c, run[1..], rest);
    }
  }

  /** What follows a run does not start with a character of its class. */
  lemma {:induction false} RunEnds(c: Class, next: Token, piece: string, rest: string)
    requires Admits(next, piece)
    requires EndsAt(c, next)
    ensures piece + rest != "" && !InClass(c, (piece + rest)[0])
  {
    assert piece[0] in piece;
    assert (piece + rest)[0] == piece[0];
  }

  lemma {:induction false} MatchComplete(tokens: seq<Token>, s: string, pieces: seq<string>)
    requires Separated(tokens) && MatchesAs(tokens, s, pieces)
    ensures Match(tokens, s) == Some(pieces)
  {
    if tokens == [] {
    } else {
      var piece, rest := pieces[0], Concat(pieces[1..]);
      assert s == piece + rest && s[|piece|..] == rest;
      assert MatchesAs(tokens[1..], rest, pieces[1..]);
      MatchComplete(tokens[1..], rest, pieces[1..]);
      assert pieces == [piece] + pieces[1..];
      match tokens[0]
      case Lit(text) =>
      case Plus(c) =>
        if |tokens| > 1 {
          RunEnds(c, tokens[1], pieces[1], Concat(pieces[1..][1..]));
        }
        RunConcat(c, piece, rest);
      case Rest =>
        assert s == piece;
    }
  }

  /** The matcher decides the pattern, and finds the one way to match. */
  lemma {:induction false} MatchDecidesPattern(tokens: seq<Token>, s: string, pieces: seq<string>)
    requires Separated(tokens)
    ensures Match(tokens, s) == Some(pieces) <==> MatchesAs(tokens, s, pieces)
  {
    if Match(tokens, s) == Some(pieces) {
      MatchSound(tokens, s);
    }
    if MatchesAs(tokens, s, pieces) {
      MatchComplete(tokens, s, pieces);
    }
  }
}
